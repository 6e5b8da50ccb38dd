/** apub/output/output.py: the output base class, its defaults and the
    chapter filter every output uses. The subclasses HtmlOutput, JsonOutput
    and EbookConvertOutput are one class here whose constant `kind` says
    which subclass an object is. */
module Outputs {
  import opened Values
  import opened Books

  /** Which subclass of Output an object is. */
  datatype Kind = HtmlKind | JsonKind | EbookConvertKind

  /** The fields of an output object at one moment. */
  datatype OutputRecord = OutputRecord(
    kind: Kind,
    name: Json,
    path: Json,
    css: Json,
    forcePublish: Json,
    ebookconvertParams: Json)

  /** What `Output.__init__` (and, for `ebookconvert_params`,
      `EbookConvertOutput.__init__`) leaves in a new object. */
  function Defaults(kind: Kind): OutputRecord {
    OutputRecord(kind, JNull, JNull, JNull, JBool(false), JArr([]))
  }

  class Output {
    const kind: Kind
    var name: Json
    var path: Json
    var css: Json
    var forcePublish: Json
    /** Only ebook-convert outputs read this field. */
    var ebookconvertParams: Json

    constructor (kind: Kind)
      ensures this.kind == kind
      ensures name == JNull && path == JNull && css == JNull
      ensures forcePublish == JBool(false)
      ensures ebookconvertParams == JArr([])
    {
      this.kind := kind;
      name, path, css := JNull, JNull, JNull;
      forcePublish := JBool(false);
      ebookconvertParams := JArr([]);
    }

    function Record(): OutputRecord
      reads this
    {
      OutputRecord(kind, name, path, css, forcePublish, ebookconvertParams)
    }
  }

  /** `Output.filter_chapters_by_publish`: the chapters whose publish flag
      equals `publish`, which defaults to True. */
  function FilterChaptersByPublish(chapters: seq<Chapter>, publish: bool := true): (r: seq<Chapter>)
    ensures |r| <= |chapters|
    ensures forall i :: 0 <= i < |r| ==> r[i].publish == publish
  {
    if chapters == [] then []
    else
      var rest := FilterChaptersByPublish(chapters[1..], publish);
      if chapters[0].publish == publish then [chapters[0]] + rest else rest
  }

  /** The filter keeps every chapter with the requested flag as often as the
      input has it, and no chapter with the other flag. */
  lemma {:induction false} FilterKeepsExactlyMatching(chapters: seq<Chapter>, publish: bool)
    ensures forall c :: multiset(FilterChaptersByPublish(chapters, publish))[c]
                        == if c.publish == publish then multiset(chapters)[c] else 0
  {
    if chapters != [] {
      FilterKeepsExactlyMatching(chapters[1..], publish);
      assert chapters == [chapters[0]] + chapters[1..];
    }
  }

  /** The filter keeps the input's relative order. */
  lemma {:induction false} FilterPreservesOrder(chapters: seq<Chapter>, publish: bool)
    ensures IsSubsequence(FilterChaptersByPublish(chapters, publish), chapters)
  {
    if chapters != [] {
      FilterPreservesOrder(chapters[1..], publish);
      var r := FilterChaptersByPublish(chapters, publish);
      var rest := FilterChaptersByPublish(chapters[1..], publish);
      if chapters[0].publish == publish {
        assert r[1..] == rest;
      } else if r != [] {
        assert r == rest;
        assert r[0].publish == publish;
      }
    }
  }

  /** A chapter is in the result exactly when it is in the input with the
      requested flag. */
  lemma FilterMembership(chapters: seq<Chapter>, publish: bool)
    ensures forall c :: c in FilterChaptersByPublish(chapters, publish) <==> c in chapters && c.publish == publish
  {
    FilterKeepsExactlyMatching(chapters, publish);
    forall c ensures c in FilterChaptersByPublish(chapters, publish) <==> c in chapters && c.publish == publish {
      assert c in FilterChaptersByPublish(chapters, publish) <==> multiset(FilterChaptersByPublish(chapters, publish))[c] > 0;
      assert c in chapters <==> multiset(chapters)[c] > 0;
    }
  }

  /** Called without a flag, the filter keeps the published chapters only. */
  lemma DefaultFilterKeepsPublished(chapters: seq<Chapter>)
    ensures forall c :: c in FilterChaptersByPublish(chapters) <==> c in chapters && c.publish
  {
    FilterMembership(chapters, true);
  }
}

/** `Output.from_dict` (apub/output/output.py). It is a module of its own
    because it builds ebook-convert outputs, whose module builds on Outputs
    (the source imports the subclass modules inside the function for the
    same reason). */
module OutputFactory {
  import opened Values
  import opened Outputs
  import EbookConvert

  /** The TypeError Python raises for `v['type']` when `v` is not a dict. */
  function SubscriptError(v: Json): Error
    requires !v.JObj?
  {
    match v
    case JArr(_) => TypeError("list indices must be integers or slices, not str")
    case JStr(_) => TypeError("string indices must be integers")
    case _ => TypeError("'" + TypeName(v) + "' object is not subscriptable")
  }

  /** The subclass an explicit `type` value selects. */
  function KindOf(t: Json): Option<Kind> {
    if t == JStr("html") then Some(HtmlKind)
    else if t == JStr("json") then Some(JsonKind)
    else if t == JStr("ebook-convert") then Some(EbookConvertKind)
    else None
  }

  /** What the subclass's own `from_dict` returns, before the shared fields are set. */
  function SubclassRecord(kind: Kind, e: Dict): (r: OutputRecord)
    ensures r.kind == kind
    ensures kind != EbookConvertKind ==> r == Defaults(kind)
    ensures kind == EbookConvertKind ==> r.ebookconvertParams == GetOr(e, "ebookconvert_params", JArr([]))
  {
    if kind == EbookConvertKind then EbookConvert.FromDictRecord(e) else Defaults(kind)
  }

  /** `base` with `name`, `path`, `css` and `force_publish` set from `e`, read
      in that order; the first missing key is a KeyError. */
  function CopySharedFields(e: Dict, base: OutputRecord): (r: Result<OutputRecord>)
    ensures r.Ok? <==> Has(e, "name") && Has(e, "path") && Has(e, "css") && Has(e, "force_publish")
    ensures r.Ok? ==> r.value == base.(name := Get(e, "name"), path := Get(e, "path"), css := Get(e, "css"),
                                       forcePublish := Get(e, "force_publish"))
    ensures !Has(e, "name") ==> r == Err(KeyError("name"))
    ensures Has(e, "name") && !Has(e, "path") ==> r == Err(KeyError("path"))
    ensures Has(e, "name") && Has(e, "path") && !Has(e, "css") ==> r == Err(KeyError("css"))
    ensures Has(e, "name") && Has(e, "path") && Has(e, "css") && !Has(e, "force_publish") ==>
              r == Err(KeyError("force_publish"))
  {
    if !Has(e, "name") then Err(KeyError("name"))
    else if !Has(e, "path") then Err(KeyError("path"))
    else if !Has(e, "css") then Err(KeyError("css"))
    else if !Has(e, "force_publish") then Err(KeyError("force_publish"))
    else Ok(base.(name := Get(e, "name"), path := Get(e, "path"), css := Get(e, "css"),
                  forcePublish := Get(e, "force_publish")))
  }

  /** The object `Output.from_dict(d)` returns, as a record, or the error it raises. */
  function ParseOutput(d: Json): (r: Result<OutputRecord>)
    ensures !d.JObj? ==> r.Err?
  {
    if !d.JObj? then Err(SubscriptError(d))
    else if !Has(d.entries, "type") then Err(KeyError("type"))
    else
      var t := Get(d.entries, "type");
      match KindOf(t)
      case None => Err(NotImplementedError("Unrecognized output type: " + Str(t)))
      case Some(kind) => CopySharedFields(d.entries, SubclassRecord(kind, d.entries))
  }

  /** What `Output.from_dict` promises: the subclass follows the `type` key
      (html, json or ebook-convert), any other type is refused with a message
      that names it, a missing `type` is a KeyError before anything else is
      read, the four shared fields are the dictionary's values unchanged, and
      an ebook-convert output takes its options from the dictionary, or []. */
  lemma ParseOutputFollowsType(d: Json)
    ensures var r := ParseOutput(d);
            (r.Ok? ==> d.JObj? && Has(d.entries, "type"))
            && (r.Ok? ==> (r.value.kind == HtmlKind <==> Get(d.entries, "type") == JStr("html")))
            && (r.Ok? ==> (r.value.kind == JsonKind <==> Get(d.entries, "type") == JStr("json")))
            && (r.Ok? ==> (r.value.kind == EbookConvertKind <==> Get(d.entries, "type") == JStr("ebook-convert")))
            && (d.JObj? && Has(d.entries, "type") && KindOf(Get(d.entries, "type")).None? ==>
                  r == Err(NotImplementedError("Unrecognized output type: " + Str(Get(d.entries, "type")))))
            && (r.Ok? ==> Has(d.entries, "name") && r.value.name == Get(d.entries, "name"))
            && (r.Ok? ==> Has(d.entries, "path") && r.value.path == Get(d.entries, "path"))
            && (r.Ok? ==> Has(d.entries, "css") && r.value.css == Get(d.entries, "css"))
            && (r.Ok? ==> Has(d.entries, "force_publish") && r.value.forcePublish == Get(d.entries, "force_publish"))
            && (r.Ok? && r.value.kind == EbookConvertKind ==>
                  r.value.ebookconvertParams == GetOr(d.entries, "ebookconvert_params", JArr([])))
            && (d.JObj? && !Has(d.entries, "type") ==> r == Err(KeyError("type")))
            && (d.JObj? && Has(d.entries, "type") && KindOf(Get(d.entries, "type")).None? ==> r.Err?)
  {
  }

  /** Lines 52-55 of `Output.from_dict`: assigns the shared fields one by one. */
  method AssignSharedFields(output: Output, e: Dict) returns (r: Result<Output>)
    modifies output
    ensures r.Ok? <==> CopySharedFields(e, old(output.Record())).Ok?
    ensures r.Err? ==> r.error == CopySharedFields(e, old(output.Record())).error
    ensures r.Ok? ==> r.value == output && output.Record() == CopySharedFields(e, old(output.Record())).value
  {
    if !Has(e, "name") {
      return Err(KeyError("name"));
    }
    output.name := Get(e, "name");
    if !Has(e, "path") {
      return Err(KeyError("path"));
    }
    output.path := Get(e, "path");
    if !Has(e, "css") {
      return Err(KeyError("css"));
    }
    output.css := Get(e, "css");
    if !Has(e, "force_publish") {
      return Err(KeyError("force_publish"));
    }
    output.forcePublish := Get(e, "force_publish");
    r := Ok(output);
  }

  /** `Output.from_dict`: builds the subclass object, then assigns the four
      shared fields. HtmlOutput.from_dict and JsonOutput.from_dict are not
      part of this model; they are taken to return a new object of their
      class. */
  method FromDict(d: Json) returns (r: Result<Output>)
    ensures r.Ok? <==> ParseOutput(d).Ok?
    ensures r.Err? ==> r.error == ParseOutput(d).error
    ensures r.Ok? ==> fresh(r.value) && r.value.Record() == ParseOutput(d).value
  {
    if !d.JObj? {
      return Err(SubscriptError(d));
    }
    var e := d.entries;
    if !Has(e, "type") {
      return Err(KeyError("type"));
    }
    var outputType := Get(e, "type");
    var output: Output;
    if outputType == JStr("html") {
      output := new Output(HtmlKind);
    } else if outputType == JStr("json") {
      output := new Output(JsonKind);
    } else if outputType == JStr("ebook-convert") {
      output := EbookConvert.FromDict(e);
    } else {
      return Err(NotImplementedError("Unrecognized output type: " + Str(outputType)));
    }
    assert output.Record() == SubclassRecord(KindOf(outputType).value, e);
    r := AssignSharedFields(output, e);
  }
}
