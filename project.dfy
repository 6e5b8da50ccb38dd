/** apub/project.py: turns the dictionary read from a project's JSON file
    into a Project, and finds that file. `Book.from_dict` and
    `Substitution.from_dict` are not part of this model and are passed in
    as functions. */
module Projects {
  import opened Values
  import opened Books
  import opened Outputs
  import OutputFactory

  /** A loaded project as values: the book, the outputs' records and the substitutions. */
  datatype ProjectValue = ProjectValue(book: Book, outputs: seq<OutputRecord>, substitutions: seq<Substitution>)

  /** `_get_book_from_dict`: the `book` entry through `Book.from_dict`, or
      NoBookFoundError when there is none. */
  function GetBook(d: Dict, bookFromDict: Json -> Result<Book>): (r: Result<Book>)
    ensures Has(d, "book") ==> r == bookFromDict(Get(d, "book"))
    ensures !Has(d, "book") ==> r == Err(NoBookFoundError)
  {
    if Has(d, "book") then bookFromDict(Get(d, "book")) else Err(NoBookFoundError)
  }

  /** The outputs `_get_outputs_from_dict` returns, as records. */
  function OutputsOf(d: Dict): (r: Result<seq<OutputRecord>>)
    ensures !Has(d, "outputs") ==> r == Ok([])
    ensures Has(d, "outputs") && Iterate(Get(d, "outputs")).Err? ==> r == Err(Iterate(Get(d, "outputs")).error)
  {
    if !Has(d, "outputs") then Ok([])
    else
      match Iterate(Get(d, "outputs"))
      case Err(e) => Err(e)
      case Ok(items) => Collect(items, OutputFactory.ParseOutput)
  }

  /** The substitutions `_get_substitutions_from_dict` returns. */
  function SubstitutionsOf(d: Dict, substitutionFromDict: Json -> Result<Substitution>): (r: Result<seq<Substitution>>)
    ensures !Has(d, "substitutions") ==> r == Ok([])
    ensures Has(d, "substitutions") && Iterate(Get(d, "substitutions")).Err? ==>
              r == Err(Iterate(Get(d, "substitutions")).error)
  {
    if !Has(d, "substitutions") then Ok([])
    else
      match Iterate(Get(d, "substitutions"))
      case Err(e) => Err(e)
      case Ok(items) => Collect(items, substitutionFromDict)
  }

  /** A list of outputs loads one output per entry, in order, and loads
      exactly when every entry does. */
  lemma OutputsOneForEach(d: Dict)
    requires Has(d, "outputs") && Get(d, "outputs").JArr?
    ensures var items := Get(d, "outputs").items;
            (OutputsOf(d).Ok? <==> forall i :: 0 <= i < |items| ==> OutputFactory.ParseOutput(items[i]).Ok?)
            && (OutputsOf(d).Ok? ==>
                  |OutputsOf(d).value| == |items|
                  && forall i :: 0 <= i < |items| ==> OutputFactory.ParseOutput(items[i]) == Ok(OutputsOf(d).value[i]))
  {
    CollectElementwise(Get(d, "outputs").items, OutputFactory.ParseOutput);
  }

  /** The same for the substitutions. */
  lemma SubstitutionsOneForEach(d: Dict, substitutionFromDict: Json -> Result<Substitution>)
    requires Has(d, "substitutions") && Get(d, "substitutions").JArr?
    ensures var items := Get(d, "substitutions").items;
            var r := SubstitutionsOf(d, substitutionFromDict);
            (r.Ok? <==> forall i :: 0 <= i < |items| ==> substitutionFromDict(items[i]).Ok?)
            && (r.Ok? ==> |r.value| == |items| && forall i :: 0 <= i < |items| ==> substitutionFromDict(items[i]) == Ok(r.value[i]))
  {
    CollectElementwise(Get(d, "substitutions").items, substitutionFromDict);
  }

  /** What `Project.from_dict` yields: book first, then outputs, then
      substitutions; the first of them that fails decides the error. */
  function Load(d: Dict, bookFromDict: Json -> Result<Book>, substitutionFromDict: Json -> Result<Substitution>)
    : (r: Result<ProjectValue>)
    ensures !Has(d, "book") ==> r == Err(NoBookFoundError)
    ensures GetBook(d, bookFromDict).Err? ==> r == Err(GetBook(d, bookFromDict).error)
    ensures GetBook(d, bookFromDict).Ok? && OutputsOf(d).Err? ==> r == Err(OutputsOf(d).error)
    ensures r.Ok? <==> GetBook(d, bookFromDict).Ok? && OutputsOf(d).Ok? && SubstitutionsOf(d, substitutionFromDict).Ok?
    ensures r.Ok? ==> r.value == ProjectValue(GetBook(d, bookFromDict).value, OutputsOf(d).value,
                                              SubstitutionsOf(d, substitutionFromDict).value)
  {
    match GetBook(d, bookFromDict)
    case Err(e) => Err(e)
    case Ok(book) =>
      match OutputsOf(d)
      case Err(e) => Err(e)
      case Ok(outputs) =>
        match SubstitutionsOf(d, substitutionFromDict)
        case Err(e) => Err(e)
        case Ok(substitutions) => Ok(ProjectValue(book, outputs, substitutions))
  }

  /** The loop of `_get_outputs_from_dict`: one new Output per item, in order. */
  method BuildOutputs(items: seq<Json>) returns (r: Result<seq<Output>>)
    ensures r.Ok? <==> Collect(items, OutputFactory.ParseOutput).Ok?
    ensures r.Err? ==> r.error == Collect(items, OutputFactory.ParseOutput).error
    ensures r.Ok? ==> forall j :: 0 <= j < |r.value| ==> fresh(r.value[j])
    ensures r.Ok? ==> |r.value| == |Collect(items, OutputFactory.ParseOutput).value|
                      && forall j :: 0 <= j < |r.value| ==> r.value[j].Record() == Collect(items, OutputFactory.ParseOutput).value[j]
  {
    var outputs: seq<Output> := [];
    for i := 0 to |items|
      invariant |outputs| == i
      invariant forall j :: 0 <= j < i ==> OutputFactory.ParseOutput(items[j]) == Ok(outputs[j].Record())
      invariant forall j :: 0 <= j < i ==> fresh(outputs[j])
    {
      var output := OutputFactory.FromDict(items[i]);
      if output.Err? {
        CollectFirstError(items, OutputFactory.ParseOutput, i);
        return Err(output.error);
      }
      outputs := outputs + [output.value];
    }
    CollectElementwise(items, OutputFactory.ParseOutput);
    r := Ok(outputs);
  }

  /** `_get_outputs_from_dict`: the outputs of the `outputs` entry, or none. */
  method GetOutputs(d: Dict) returns (r: Result<seq<Output>>)
    ensures r.Ok? <==> OutputsOf(d).Ok?
    ensures r.Err? ==> r.error == OutputsOf(d).error
    ensures r.Ok? ==> forall j :: 0 <= j < |r.value| ==> fresh(r.value[j])
    ensures r.Ok? ==> |r.value| == |OutputsOf(d).value|
                      && forall j :: 0 <= j < |r.value| ==> r.value[j].Record() == OutputsOf(d).value[j]
  {
    if !Has(d, "outputs") {
      return Ok([]);
    }
    var items := Iterate(Get(d, "outputs"));
    if items.Err? {
      return Err(items.error);
    }
    r := BuildOutputs(items.value);
  }

  /** `_get_substitutions_from_dict`: one Substitution per entry, in order. */
  method GetSubstitutions(d: Dict, substitutionFromDict: Json -> Result<Substitution>)
    returns (r: Result<seq<Substitution>>)
    ensures r == SubstitutionsOf(d, substitutionFromDict)
  {
    if !Has(d, "substitutions") {
      return Ok([]);
    }
    var items := Iterate(Get(d, "substitutions"));
    if items.Err? {
      return Err(items.error);
    }
    var substitutions: seq<Substitution> := [];
    for i := 0 to |items.value|
      invariant Collect(items.value[..i], substitutionFromDict) == Ok(substitutions)
    {
      var substitution := substitutionFromDict(items.value[i]);
      if substitution.Err? {
        CollectStopsAtFirstError(items.value, substitutionFromDict, i);
        return Err(substitution.error);
      }
      CollectExtend(items.value, substitutionFromDict, i);
      substitutions := substitutions + [substitution.value];
    }
    assert items.value[..|items.value|] == items.value;
    r := Ok(substitutions);
  }

  class Project {
    var book: Option<Book>
    var outputs: seq<Output>
    var substitutions: seq<Substitution>

    constructor ()
      ensures book == None && outputs == [] && substitutions == []
    {
      book, outputs, substitutions := None, [], [];
    }

    /** `Project.from_dict`: a new Project whose fields are assigned book
        first, then outputs, then substitutions. */
    static method FromDict(d: Dict, bookFromDict: Json -> Result<Book>,
                           substitutionFromDict: Json -> Result<Substitution>) returns (r: Result<Project>)
      ensures r.Ok? <==> Load(d, bookFromDict, substitutionFromDict).Ok?
      ensures r.Err? ==> r.error == Load(d, bookFromDict, substitutionFromDict).error
      ensures r.Ok? ==> fresh(r.value) && forall j :: 0 <= j < |r.value.outputs| ==> fresh(r.value.outputs[j])
      ensures r.Ok? ==> var v := Load(d, bookFromDict, substitutionFromDict).value;
                        r.value.book == Some(v.book) && r.value.substitutions == v.substitutions
                        && |r.value.outputs| == |v.outputs|
                        && forall j :: 0 <= j < |v.outputs| ==> r.value.outputs[j].Record() == v.outputs[j]
    {
      var project := new Project();
      var book := GetBook(d, bookFromDict);
      if book.Err? {
        return Err(book.error);
      }
      project.book := Some(book.value);
      var outputs := GetOutputs(d);
      if outputs.Err? {
        return Err(outputs.error);
      }
      project.outputs := outputs.value;
      var substitutions := GetSubstitutions(d, substitutionFromDict);
      if substitutions.Err? {
        return Err(substitutions.error);
      }
      project.substitutions := substitutions.value;
      r := Ok(project);
    }
  }

  const MalformedPrefix: string := "The provided project json contained malformed data. Expected a valid json object, got\n'"
  const MalformedSuffix: string := "'\nInspect the enclosed ValueError for more information."

  /** The message of the MalformedProjectJsonError for file contents `data`. */
  function MalformedMessage(data: string): (m: string)
    ensures |m| == |MalformedPrefix| + |data| + |MalformedSuffix|
    ensures m[|MalformedPrefix|..|MalformedPrefix| + |data|] == data
    ensures StartsWith(m, MalformedPrefix) && EndsWith(m, MalformedSuffix)
  {
    var m := MalformedPrefix + data + MalformedSuffix;
    assert m[..|MalformedPrefix|] == MalformedPrefix;
    assert m[|m| - |MalformedSuffix|..] == MalformedSuffix;
    m
  }

  /** What `Project.from_dict` raises for a document that is not a dict: its
      first step, `'book' in v` and then `v['book']`, already fails. A list or
      a string without "book" has no book; one with it cannot be subscripted
      with a string; None, booleans and numbers do not support `in`. */
  function NonDictProjectError(v: Json): (e: Error)
    requires !v.JObj?
    ensures v.JArr? ==> (e == NoBookFoundError <==> JStr("book") !in v.items)
    ensures v.JStr? ==> (e == NoBookFoundError <==> !IsSubstring("book", v.s))
    ensures (v.JArr? || v.JStr?) && e != NoBookFoundError ==> e == OutputFactory.SubscriptError(v) && e.TypeError?
    ensures v.JNull? || v.JBool? || v.JNum? ==> e == TypeError("argument of type '" + TypeName(v) + "' is not iterable")
  {
    match v
    case JArr(items) => if JStr("book") in items then OutputFactory.SubscriptError(v) else NoBookFoundError
    case JStr(s) => if IsSubstring("book", s) then OutputFactory.SubscriptError(v) else NoBookFoundError
    case _ => TypeError("argument of type '" + TypeName(v) + "' is not iterable")
  }

  /** `read_project` from the point where the file's text `data` has been
      read: `json.loads` is the partial function `loads`, and a document it
      cannot parse becomes a MalformedProjectJsonError carrying the text. A
      parsed document that is not an object fails in `Project.from_dict`. */
  method ReadProject(data: string, loads: string -> Option<Json>, bookFromDict: Json -> Result<Book>,
                     substitutionFromDict: Json -> Result<Substitution>) returns (r: Result<Project>)
    ensures loads(data).None? ==> r == Err(MalformedProjectJsonError(MalformedMessage(data)))
    ensures loads(data).Some? && !loads(data).value.JObj? ==> r == Err(NonDictProjectError(loads(data).value))
    ensures loads(data).Some? && loads(data).value.JObj? ==>
              var d := loads(data).value.entries;
              (r.Ok? <==> Load(d, bookFromDict, substitutionFromDict).Ok?)
              && (r.Err? ==> r.error == Load(d, bookFromDict, substitutionFromDict).error)
              && (r.Ok? ==> var v := Load(d, bookFromDict, substitutionFromDict).value;
                            fresh(r.value) && r.value.book == Some(v.book) && r.value.substitutions == v.substitutions
                            && |r.value.outputs| == |v.outputs|
                            && forall j :: 0 <= j < |v.outputs| ==> r.value.outputs[j].Record() == v.outputs[j])
  {
    var parsed := loads(data);
    if parsed.None? {
      return Err(MalformedProjectJsonError(MalformedMessage(data)));
    }
    if !parsed.value.JObj? {
      return Err(NonDictProjectError(parsed.value));
    }
    r := Project.FromDict(parsed.value.entries, bookFromDict, substitutionFromDict);
  }

  const DefaultProjectFileName: string := ".apub.json"

  /** `_get_project_file_path(path)`. The working directory `cwd` and the
      file-system queries `isDir`, `isFile` and `join` are passed in. */
  function ProjectFilePath(path: Option<string>, cwd: string, isDir: string -> bool, isFile: string -> bool,
                           join: (string, string) -> string): (r: Option<string>)
    // no path, or an empty one: the default file in the working directory
    ensures path.None? || path.value == "" ==> r == Some(join(cwd, DefaultProjectFileName))
    // a directory (looked up relative to cwd): the default file in `path` itself, not cwd/path
    ensures path.Some? && path.value != "" && isDir(join(cwd, path.value)) ==>
              r == Some(join(path.value, DefaultProjectFileName))
    // a file: the path unchanged
    ensures path.Some? && path.value != "" && !isDir(join(cwd, path.value)) && isFile(join(cwd, path.value)) ==>
              r == path
    // anything else: no result
    ensures r.None? <==> path.Some? && path.value != "" && !isDir(join(cwd, path.value)) && !isFile(join(cwd, path.value))
  {
    if path.None? || path.value == "" then Some(join(cwd, DefaultProjectFileName))
    else if isDir(join(cwd, path.value)) then Some(join(path.value, DefaultProjectFileName))
    else if isFile(join(cwd, path.value)) then Some(path.value)
    else None
  }
}
