/** The flat-schema YAML loader (`publish.yaml`) whose behaviour
    tests/test_yaml.py asserts. Its own code is not part of this model, so
    every function here is specified from those assertions; where the tests
    are silent the choice made is listed in the README. The document is the
    tree a YAML parser produces, with the book's fields at the top level. */
module YamlLoader {
  import opened Values
  import opened Books

  // ---------------------------------------------------------------- book

  const MissingTitle: Error := TypeError("__init__() missing 1 required positional argument: 'title'")

  /** `_load_book`: the document's keys that name a parameter of the Book
      constructor (`bookParams`), with their values; other keys are dropped.
      The chapters are loaded separately. */
  function LoadBook(doc: Dict, bookParams: set<string>): (r: Result<Book>)
    requires "title" in bookParams
    ensures !Has(doc, "title") ==> r == Err(MissingTitle)
    ensures Has(doc, "title") ==> r.Ok?
    ensures r.Ok? ==> "title" in r.value.attrs && r.value.attrs["title"] == Get(doc, "title")
    ensures r.Ok? ==> forall k :: k in r.value.attrs <==> k in bookParams && Has(doc, k)
    ensures r.Ok? ==> forall k | k in r.value.attrs :: r.value.attrs[k] == Get(doc, k)
    ensures r.Ok? ==> r.value.chapters == []
  {
    if !Has(doc, "title") then Err(MissingTitle)
    else
      HasIffInKeys(doc);
      Ok(Book(map k | k in Keys(doc) && k in bookParams :: Get(doc, k), []))
  }

  // ------------------------------------------------------------ chapters

  /** The TypeError of `Cls(**v)` when `v` is not a mapping. */
  function NotAMapping(v: Json): Error {
    TypeError("argument after ** must be a mapping, not " + TypeName(v))
  }

  const MissingSrc: Error := TypeError("__init__() missing 1 required positional argument: 'src'")
  const PublishNotBool: Error := TypeError("publish must be a boolean")

  /** One chapter entry: its `src`, and `publish`, True unless given. */
  function LoadChapter(e: Json): (r: Result<Chapter>)
    ensures r.Ok? <==> e.JObj? && Has(e.entries, "src")
                       && (Has(e.entries, "publish") ==> Get(e.entries, "publish").JBool?)
    ensures r.Ok? ==> r.value.src == Get(e.entries, "src")
    ensures r.Ok? && !Has(e.entries, "publish") ==> r.value.publish
    ensures r.Ok? && Has(e.entries, "publish") ==> r.value.publish == Get(e.entries, "publish").b
    ensures e.JObj? && !Has(e.entries, "src") ==> r == Err(MissingSrc)
  {
    if !e.JObj? then Err(NotAMapping(e))
    else if !Has(e.entries, "src") then Err(MissingSrc)
    else
      match GetOr(e.entries, "publish", JBool(true))
      case JBool(b) => Ok(Chapter(Get(e.entries, "src"), b))
      case _ => Err(PublishNotBool)
  }

  /** `_load_chapters`: one chapter per entry of `chapters`, in order; none
      when the key is absent. */
  function LoadChapters(doc: Dict): (r: Result<seq<Chapter>>)
    ensures !Has(doc, "chapters") ==> r == Ok([])
    ensures Has(doc, "chapters") && Get(doc, "chapters").JArr? ==>
              var items := Get(doc, "chapters").items;
              (r.Ok? <==> forall i :: 0 <= i < |items| ==> LoadChapter(items[i]).Ok?)
              && (r.Ok? ==> |r.value| == |items| && forall i :: 0 <= i < |items| ==> LoadChapter(items[i]) == Ok(r.value[i]))
  {
    if !Has(doc, "chapters") then Ok([])
    else
      match Iterate(Get(doc, "chapters"))
      case Err(e) => Err(e)
      case Ok(items) =>
        CollectElementwise(items, LoadChapter); Collect(items, LoadChapter)
  }

  // ---------------------------------------------------------- parameters

  /** Every character of `s` is one of `chars`. */
  predicate AllOf(s: string, chars: char -> bool) {
    forall k :: 0 <= k < |s| ==> chars(s[k])
  }

  /** Where the run of `chars` that starts at `i` ends. */
  function RunEnd(s: string, chars: char -> bool, i: nat): (n: nat)
    requires i <= |s|
    ensures i <= n <= |s|
    ensures forall k :: i <= k < n ==> chars(s[k])
    ensures n == |s| || !chars(s[n])
    decreases |s| - i
  {
    if i < |s| && chars(s[i]) then RunEnd(s, chars, i + 1) else i
  }

  /** Where the run of `chars` that ends at `j` starts. */
  function RunStart(s: string, chars: char -> bool, j: nat): (n: nat)
    requires j <= |s|
    ensures n <= j
    ensures forall k :: n <= k < j ==> chars(s[k])
    ensures n == 0 || !chars(s[n - 1])
    decreases j
  {
    if j > 0 && chars(s[j - 1]) then RunStart(s, chars, j - 1) else j
  }

  /** `s.lstrip(chars)`: the suffix of `s` after its leading run of `chars`. */
  function StripLeft(s: string, chars: char -> bool): (r: string)
    ensures |r| <= |s| && r == s[|s| - |r|..]
    ensures forall k :: 0 <= k < |s| - |r| ==> chars(s[k])
    ensures r == [] || !chars(r[0])
  {
    s[RunEnd(s, chars, 0)..]
  }

  /** `s.rstrip(chars)`: the prefix of `s` before its trailing run of `chars`. */
  function StripRight(s: string, chars: char -> bool): (r: string)
    ensures |r| <= |s| && r == s[..|r|]
    ensures forall k :: |r| <= k < |s| ==> chars(s[k])
    ensures r == [] || !chars(r[|r| - 1])
  {
    s[..RunStart(s, chars, |s|)]
  }

  /** `s.strip(chars)`: `s` without its leading and trailing runs of
      `chars` (StripIsPiece and StripCutsRuns: what is left is a contiguous
      piece of `s`, with any of `chars` inside it kept). */
  function Strip(s: string, chars: char -> bool): (r: string)
    ensures |r| <= |s|
    ensures r == [] || (!chars(r[0]) && !chars(r[|r| - 1]))
  {
    StripRight(StripLeft(s, chars), chars)
  }

  /** What `strip` leaves is the piece of `s` that starts after the leading run. */
  lemma StripIsPiece(s: string, chars: char -> bool)
    ensures var i := |s| - |StripLeft(s, chars)|; var r := Strip(s, chars);
            i + |r| <= |s| && r == s[i..i + |r|]
  {
    var l := StripLeft(s, chars);
    var i := |s| - |l|;
    var r := StripRight(l, chars);
    assert l == s[i..];
    assert r == l[..|r|];
    assert s[i..][..|r|] == s[i..i + |r|];
  }

  /** Everything `strip` cuts away, before the piece and after it, is one of `chars`. */
  lemma StripCutsRuns(s: string, chars: char -> bool)
    ensures var i := |s| - |StripLeft(s, chars)|; var j := i + |Strip(s, chars)|;
            j <= |s|
            && (forall k :: 0 <= k < i ==> chars(s[k]))
            && (forall k :: j <= k < |s| ==> chars(s[k]))
  {
    var l := StripLeft(s, chars);
    var i := |s| - |l|;
    var r := StripRight(l, chars);
    forall k | i + |r| <= k < |s|
      ensures chars(s[k])
    {
      assert s[k] == l[k - i];
    }
  }

  /** A string that neither starts nor ends with one of `chars` is its own strip. */
  lemma StripOfTrimmed(s: string, chars: char -> bool)
    requires s == [] || (!chars(s[0]) && !chars(s[|s| - 1]))
    ensures Strip(s, chars) == s
  {
    assert StripLeft(s, chars) == s;
    assert StripRight(s, chars) == s;
  }

  lemma StripIdempotent(s: string, chars: char -> bool)
    ensures Strip(Strip(s, chars), chars) == Strip(s, chars)
  {
    StripOfTrimmed(Strip(s, chars), chars);
  }

  /** A leading run of `chars` in front of a piece that does not start with
      one is exactly what `lstrip` removes. */
  lemma StripLeftPrefix(pre: string, x: string, chars: char -> bool)
    requires AllOf(pre, chars) && (x == [] || !chars(x[0]))
    ensures StripLeft(pre + x, chars) == x
  {
    var s := pre + x;
    forall k | 0 <= k < |pre|
      ensures chars(s[k])
    {
      assert s[k] == pre[k];
    }
    assert x != [] ==> s[|pre|] == x[0];
    assert RunEnd(s, chars, 0) == |pre|;
    assert s[|pre|..] == x;
  }

  /** A trailing run of `chars` after a piece that does not end with one is
      exactly what `rstrip` removes. */
  lemma StripRightSuffix(x: string, post: string, chars: char -> bool)
    requires AllOf(post, chars) && (x == [] || !chars(x[|x| - 1]))
    ensures StripRight(x + post, chars) == x
  {
    var s := x + post;
    forall k | |x| <= k < |s|
      ensures chars(s[k])
    {
      assert s[k] == post[k - |x|];
    }
    assert x != [] ==> s[|x| - 1] == x[|x| - 1];
    assert RunStart(s, chars, |s|) == |x|;
    assert s[..|x|] == x;
  }

  /** Only the surrounding runs are removed; the core, with anything inside
      it, is kept as it is. */
  lemma StripSurrounded(pre: string, core: string, post: string, chars: char -> bool)
    requires AllOf(pre, chars) && AllOf(post, chars)
    requires core == [] || (!chars(core[0]) && !chars(core[|core| - 1]))
    ensures Strip(pre + core + post, chars) == core
  {
    if core == [] {
      assert pre + core + post == pre + post;
    } else {
      assert pre + core + post == pre + (core + post);
      StripLeftPrefix(pre, core + post, chars);
      StripRightSuffix(core, post, chars);
    }
  }

  /** How the loader normalises one ebook-convert parameter: strip the
      whitespace at the ends, then prepend `--` unless the parameter already
      starts with it. */
  function Normalise(s: string): (r: string)
    ensures StartsWith(r, "--")
    ensures StartsWith(Strip(s, IsSpace), "--") ==> r == Strip(s, IsSpace)
    ensures !StartsWith(Strip(s, IsSpace), "--") ==> r == "--" + Strip(s, IsSpace)
  {
    var t := Strip(s, IsSpace);
    if StartsWith(t, "--") then t else "--" + t
  }

  lemma DashIsNotSpace()
    ensures !IsSpace('-')
  {
    IsSpaceChars('-');
  }

  /** Normalising a normalised parameter changes nothing. */
  lemma NormaliseIdempotent(s: string)
    ensures Normalise(Normalise(s)) == Normalise(s)
  {
    var t := Strip(s, IsSpace);
    var n := Normalise(s);
    if StartsWith(t, "--") {
      StripIdempotent(s, IsSpace);
    } else {
      assert n == "--" + t;
      DashIsNotSpace();
      assert !IsSpace(n[0]);
      assert t != [] ==> n[|n| - 1] == t[|t| - 1];
      StripOfTrimmed(n, IsSpace);
    }
  }

  /** The tests' examples in general form: whitespace around a parameter
      goes, whitespace inside it stays, and `--` is added only when the
      parameter lacks it. */
  lemma NormaliseSurrounded(pre: string, core: string, post: string)
    requires IsBlank(pre) && IsBlank(post)
    requires core == [] || (!IsSpace(core[0]) && !IsSpace(core[|core| - 1]))
    ensures StartsWith(core, "--") ==> Normalise(pre + core + post) == core
    ensures !StartsWith(core, "--") ==> Normalise(pre + core + post) == "--" + core
  {
    StripSurrounded(pre, core, post, IsSpace);
  }

  /** The AttributeError of `v.strip()` for a value that is not a string. */
  function NoStrip(v: Json): Error {
    AttributeError("'" + TypeName(v) + "' object has no attribute 'strip'")
  }

  /** One parameter entry, normalised. */
  function LoadParam(v: Json): (r: Result<string>)
    ensures v.JStr? ==> r == Ok(Normalise(v.s))
    ensures !v.JStr? ==> r == Err(NoStrip(v))
  {
    if v.JStr? then Ok(Normalise(v.s)) else Err(NoStrip(v))
  }

  /** The `ebookconvert_params` list of a document or an output entry,
      each parameter normalised, in order; empty when the key is absent.
      `_load_ebookconvert_params(doc)` is this function on the document: it
      reads the document's own list only, not the outputs' lists. */
  function ParamsOf(d: Dict): (r: Result<seq<string>>)
    ensures !Has(d, "ebookconvert_params") ==> r == Ok([])
    ensures Has(d, "ebookconvert_params") && Get(d, "ebookconvert_params").JArr? ==>
              var items := Get(d, "ebookconvert_params").items;
              (r.Ok? <==> forall i :: 0 <= i < |items| ==> items[i].JStr?)
              && (r.Ok? ==> |r.value| == |items| && forall i :: 0 <= i < |items| ==> r.value[i] == Normalise(items[i].s))
  {
    if !Has(d, "ebookconvert_params") then Ok([])
    else
      match Iterate(Get(d, "ebookconvert_params"))
      case Err(e) => Err(e)
      case Ok(items) =>
        CollectElementwise(items, LoadParam); Collect(items, LoadParam)
  }

  // ------------------------------------------------------------- outputs

  /** An output as the YAML loader builds it. */
  datatype LoadedOutput =
    | HtmlOutput(path: string, stylesheet: Json)
    | EbookConvertOutput(path: string, stylesheet: Json, ebookconvertParams: seq<string>)

  /** The error of `path.endswith(...)` for a path that is not a string. */
  function NoEndswith(v: Json): Error {
    AttributeError("'" + TypeName(v) + "' object has no attribute 'endswith'")
  }

  /** The stylesheet of an output: its own, else the document's, else None. */
  function ResolveStylesheet(local: Dict, global: Dict): (r: Json)
    ensures Has(local, "stylesheet") ==> r == Get(local, "stylesheet")
    ensures !Has(local, "stylesheet") && Has(global, "stylesheet") ==> r == Get(global, "stylesheet")
    ensures !Has(local, "stylesheet") && !Has(global, "stylesheet") ==> r == JNull
  {
    GetOr(local, "stylesheet", GetOr(global, "stylesheet", JNull))
  }

  /** One output entry of document `doc`, given the document's normalised
      parameters `globalParams`. */
  function LoadOutput(e: Json, doc: Dict, globalParams: seq<string>): (r: Result<LoadedOutput>)
    // the kind follows the path's ending
    ensures r.Ok? ==> e.JObj? && Has(e.entries, "path") && Get(e.entries, "path").JStr?
    ensures r.Ok? ==> r.value.path == Get(e.entries, "path").s
    ensures r.Ok? ==> (r.value.HtmlOutput? <==> EndsWith(r.value.path, ".html"))
    // local stylesheet over global
    ensures r.Ok? ==> r.value.stylesheet == ResolveStylesheet(e.entries, doc)
    // global parameters first, then the output's own, each normalised
    ensures r.Ok? && r.value.EbookConvertOutput? ==>
              ParamsOf(e.entries).Ok? && r.value.ebookconvertParams == globalParams + ParamsOf(e.entries).value
    ensures e.JObj? && !Has(e.entries, "path") ==> r == Err(KeyError("path"))
    ensures e.JObj? && Has(e.entries, "path") && Get(e.entries, "path").JStr?
            && !EndsWith(Get(e.entries, "path").s, ".html") && ParamsOf(e.entries).Err? ==>
              r == Err(ParamsOf(e.entries).error)
  {
    if !e.JObj? then Err(NotAMapping(e))
    else if !Has(e.entries, "path") then Err(KeyError("path"))
    else
      var path := Get(e.entries, "path");
      if !path.JStr? then Err(NoEndswith(path))
      else
        var stylesheet := ResolveStylesheet(e.entries, doc);
        if EndsWith(path.s, ".html") then Ok(HtmlOutput(path.s, stylesheet))
        else
          match ParamsOf(e.entries)
          case Err(err) => Err(err)
          case Ok(local) => Ok(EbookConvertOutput(path.s, stylesheet, globalParams + local))
  }

  /** `_load_outputs`: one output per entry of `outputs`, in order; none
      when the key is absent. */
  function LoadOutputs(doc: Dict): (r: Result<seq<LoadedOutput>>)
    ensures !Has(doc, "outputs") ==> r == Ok([])
    ensures Has(doc, "outputs") && Get(doc, "outputs").JArr? && ParamsOf(doc).Ok? ==>
              var items := Get(doc, "outputs").items;
              (r.Ok? <==> forall i :: 0 <= i < |items| ==> LoadOutput(items[i], doc, ParamsOf(doc).value).Ok?)
              && (r.Ok? ==> |r.value| == |items|
                            && forall i :: 0 <= i < |items| ==> LoadOutput(items[i], doc, ParamsOf(doc).value) == Ok(r.value[i]))
    ensures Has(doc, "outputs") && ParamsOf(doc).Err? ==> r == Err(ParamsOf(doc).error)
  {
    if !Has(doc, "outputs") then Ok([])
    else
      match ParamsOf(doc)
      case Err(e) => Err(e)
      case Ok(globalParams) =>
        match Iterate(Get(doc, "outputs"))
        case Err(e) => Err(e)
        case Ok(items) =>
          var load := e => LoadOutput(e, doc, globalParams);
          CollectElementwise(items, load);
          Collect(items, load)
  }

  // ------------------------------------------------------- substitutions

  /** `repr(list(d.keys()))` */
  function KeysRepr(d: Dict): string {
    Repr(JArr(seq(|d|, i requires 0 <= i < |d| => JStr(d[i].key))))
  }

  function NoSubstitutionShape(d: Dict): Error {
    TypeError(KeysRepr(d) + " do not match any substitution type.")
  }

  /** `d` has exactly the keys `a` and `b`. */
  predicate HasExactlyKeys(d: Dict, a: string, b: string) {
    Has(d, a) && Has(d, b) && forall i :: 0 <= i < |d| ==> d[i].key == a || d[i].key == b
  }

  /** One substitution entry: a literal one for exactly the keys old and new,
      a regular-expression one for exactly pattern and replace_with. */
  function LoadSubstitution(e: Json): (r: Result<Substitution>)
    ensures r.Ok? <==> e.JObj? && (HasExactlyKeys(e.entries, "old", "new") || HasExactlyKeys(e.entries, "pattern", "replace_with"))
    ensures r.Ok? && HasExactlyKeys(e.entries, "old", "new") ==>
              r.value == SimpleSubstitution(Get(e.entries, "old"), Get(e.entries, "new"))
    ensures r.Ok? && HasExactlyKeys(e.entries, "pattern", "replace_with") ==>
              r.value == RegexSubstitution(Get(e.entries, "pattern"), Get(e.entries, "replace_with"))
    ensures e.JObj? && r.Err? ==> r.error == NoSubstitutionShape(e.entries)
  {
    if !e.JObj? then Err(NotAMapping(e))
    else if HasExactlyKeys(e.entries, "old", "new") then
      Ok(SimpleSubstitution(Get(e.entries, "old"), Get(e.entries, "new")))
    else if HasExactlyKeys(e.entries, "pattern", "replace_with") then
      Ok(RegexSubstitution(Get(e.entries, "pattern"), Get(e.entries, "replace_with")))
    else Err(NoSubstitutionShape(e.entries))
  }

  /** The two shapes exclude each other. */
  lemma SubstitutionShapesDisjoint(d: Dict)
    ensures !(HasExactlyKeys(d, "old", "new") && HasExactlyKeys(d, "pattern", "replace_with"))
  {
  }

  /** `repr` of a two-key list: the keys quoted, in the order they were written. */
  lemma KeysReprOfTwo(d: Dict)
    requires |d| == 2
    ensures KeysRepr(d) == "['" + d[0].key + "', '" + d[1].key + "']"
  {
    var items := seq(|d|, i requires 0 <= i < |d| => JStr(d[i].key));
    assert items == [JStr(d[0].key), JStr(d[1].key)];
    var reprs := seq(|items|, i requires 0 <= i < |items| => Repr(items[i]));
    assert reprs == ["'" + d[0].key + "'", "'" + d[1].key + "'"];
    assert Join(reprs, ", ") == "'" + d[0].key + "'" + ", " + "'" + d[1].key + "'";
  }

  /** An entry whose first key belongs to neither shape is refused. */
  lemma NoShapeForStrangeKey(d: Dict)
    requires |d| > 0
    requires d[0].key != "old" && d[0].key != "new" && d[0].key != "pattern" && d[0].key != "replace_with"
    ensures LoadSubstitution(JObj(d)) == Err(NoSubstitutionShape(d))
  {
    assert !HasExactlyKeys(d, "old", "new");
    assert !HasExactlyKeys(d, "pattern", "replace_with");
  }

  /** The error text lists the entry's keys in the order they were written:
      for `{donald: duck, dagobert: duck}` it is
      "['donald', 'dagobert'] do not match any substitution type.". */
  lemma SubstitutionErrorListsKeys(d: Dict)
    requires |d| == 2
    requires d[0].key != "old" && d[0].key != "new" && d[0].key != "pattern" && d[0].key != "replace_with"
    ensures LoadSubstitution(JObj(d))
            == Err(TypeError("['" + d[0].key + "', '" + d[1].key + "'] do not match any substitution type."))
  {
    NoShapeForStrangeKey(d);
    KeysReprOfTwo(d);
  }

  /** `_load_substitutions`: one substitution per entry, in order; none
      when the key is absent. */
  function LoadSubstitutions(doc: Dict): (r: Result<seq<Substitution>>)
    ensures !Has(doc, "substitutions") ==> r == Ok([])
    ensures Has(doc, "substitutions") && Get(doc, "substitutions").JArr? ==>
              var items := Get(doc, "substitutions").items;
              (r.Ok? <==> forall i :: 0 <= i < |items| ==> LoadSubstitution(items[i]).Ok?)
              && (r.Ok? ==> |r.value| == |items| && forall i :: 0 <= i < |items| ==> LoadSubstitution(items[i]) == Ok(r.value[i]))
  {
    if !Has(doc, "substitutions") then Ok([])
    else
      match Iterate(Get(doc, "substitutions"))
      case Err(e) => Err(e)
      case Ok(items) =>
        CollectElementwise(items, LoadSubstitution); Collect(items, LoadSubstitution)
  }

  // ------------------------------------------------------------- project

  /** What `load_project` returns: the book with its chapters, the
      substitutions and the outputs. */
  datatype LoadedProject = LoadedProject(book: Book, substitutions: seq<Substitution>, outputs: seq<LoadedOutput>)

  /** `load_project` on a parsed document: the parts are loaded book,
      chapters, substitutions, outputs, and the first that fails decides the
      error. */
  function LoadProject(doc: Dict, bookParams: set<string>): (r: Result<LoadedProject>)
    requires "title" in bookParams
    ensures r.Ok? <==> LoadBook(doc, bookParams).Ok? && LoadChapters(doc).Ok?
                       && LoadSubstitutions(doc).Ok? && LoadOutputs(doc).Ok?
    ensures r.Ok? ==> r.value.book.attrs == LoadBook(doc, bookParams).value.attrs
                      && r.value.book.chapters == LoadChapters(doc).value
                      && r.value.substitutions == LoadSubstitutions(doc).value
                      && r.value.outputs == LoadOutputs(doc).value
    ensures !Has(doc, "title") ==> r == Err(MissingTitle)
  {
    match LoadBook(doc, bookParams)
    case Err(e) => Err(e)
    case Ok(book) =>
      match LoadChapters(doc)
      case Err(e) => Err(e)
      case Ok(chapters) =>
        match LoadSubstitutions(doc)
        case Err(e) => Err(e)
        case Ok(substitutions) =>
          match LoadOutputs(doc)
          case Err(e) => Err(e)
          case Ok(outputs) => Ok(LoadedProject(book.(chapters := chapters), substitutions, outputs))
  }
}
