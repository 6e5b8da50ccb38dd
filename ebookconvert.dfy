/** apub/output/ebookconvert.py: an output that renders the book to a
    temporary HTML file and hands it to the external `ebook-convert` program,
    with the book's metadata turned into command-line options. */
module EbookConvert {
  import opened Values
  import opened Books
  import opened Outputs

  /** `_supported_metadata_attrs` as Python evaluates it. A comma is missing
      after 'book_producer', so that literal and 'comments' are one string. */
  const SupportedMetadataAttrs: seq<string> := [
    "author_sort",
    "authors",
    "book_producer" + "comments",
    "cover",
    "isbn",
    "language",
    "pubdate",
    "publisher",
    "rating",
    "series",
    "series_index",
    "tags",
    "title"
  ]

  /** The allow-list with the comma restored: 14 names. The build does not
      use it; IntendedListEmitsProducerAndComments says what it would change. */
  const IntendedMetadataAttrs: seq<string> := [
    "author_sort", "authors", "book_producer", "comments", "cover", "isbn", "language",
    "pubdate", "publisher", "rating", "series", "series_index", "tags", "title"
  ]

  lemma SupportedMetadataAttrsAsEvaluated()
    ensures |SupportedMetadataAttrs| == 13
    ensures "book_producercomments" in SupportedMetadataAttrs
    ensures "book_producer" !in SupportedMetadataAttrs && "comments" !in SupportedMetadataAttrs
  {
    assert SupportedMetadataAttrs[2] == "book_producer" + "comments" == "book_producercomments";
  }

  /** The restored list is the list as written with its joined entry split
      back into its two names. */
  lemma IntendedListSplitsJoinedName()
    ensures IntendedMetadataAttrs
            == SupportedMetadataAttrs[..2] + ["book_producer", "comments"] + SupportedMetadataAttrs[3..]
  {
  }

  lemma SupportedNamesHaveNoEquals()
    ensures forall a | a in SupportedMetadataAttrs :: '=' !in a
  {
  }

  /** `_format_param(name, value)`: `--name="value"`. */
  function FormatParam(name: string, value: string): string {
    "--" + name + "=\"" + value + "\""
  }

  /** Where the name and the value sit in an option. */
  lemma FormatParamLayout(name: string, value: string)
    ensures var r := FormatParam(name, value);
            |r| == |name| + |value| + 5
            && r[..2] == "--" && r[2..2 + |name|] == name
            && r[2 + |name|] == '=' && r[3 + |name|] == '"'
            && r[4 + |name|..|r| - 1] == value && r[|r| - 1] == '"'
  {
  }

  /** Two options with names free of '=' are equal only when their names and
      their values are: each option says unambiguously what it sets. */
  lemma FormatParamInjective(n1: string, v1: string, n2: string, v2: string)
    requires '=' !in n1 && '=' !in n2
    requires FormatParam(n1, v1) == FormatParam(n2, v2)
    ensures n1 == n2 && v1 == v2
  {
    var t := FormatParam(n1, v1);
    FormatParamLayout(n1, v1);
    FormatParamLayout(n2, v2);
    if |n1| < |n2| {
      assert false;
    } else if |n2| < |n1| {
      assert false;
    }
  }

  /** The book has attribute `name` and its `str()` is not empty or all whitespace. */
  predicate Emits(book: Book, name: string) {
    name in book.attrs && !IsBlank(Str(book.attrs[name]))
  }

  /** The option `_append_param` adds for `name`, if any. A None attribute is
      the text "None", so it is emitted. */
  function AttrParam(book: Book, name: string): (r: seq<string>)
    ensures |r| <= 1
    ensures r == [] <==> !Emits(book, name)
    ensures r != [] ==> r[0] == FormatParam(name, Str(book.attrs[name]))
  {
    if name in book.attrs then
      var attr := Str(book.attrs[name]);
      if attr != "" && !IsBlank(attr) then [FormatParam(name, attr)] else []
    else []
  }

  /** `_append_param(book, name, params)`: appends to the caller's list. */
  method AppendParam(book: Book, name: string, params: PyList<string>)
    modifies params
    ensures params.items == old(params.items) + AttrParam(book, name)
  {
    if name in book.attrs {
      var attr := Str(book.attrs[name]);
      if attr != "" && !IsBlank(attr) {
        params.Append(FormatParam(name, attr));
      }
    }
  }

  /** The options the names in `attrs` give for `book`, in the order of `attrs`. */
  function MetadataParams(attrs: seq<string>, book: Book): (r: seq<string>)
    ensures |r| <= |attrs|
  {
    if attrs == [] then []
    else MetadataParams(attrs[..|attrs| - 1], book) + AttrParam(book, attrs[|attrs| - 1])
  }

  /** One more name adds its own option, if any, after the others. */
  lemma MetadataParamsAppend(attrs: seq<string>, name: string, book: Book)
    ensures MetadataParams(attrs + [name], book) == MetadataParams(attrs, book) + AttrParam(book, name)
  {
    assert (attrs + [name])[..|attrs|] == attrs;
  }

  /** `_attrs_as_ebookconvert_params(book)`: one `_append_param` per name of
      the allow-list as written, into a fresh list. ProducerAndCommentsNeverEmitted
      says what that list loses. */
  method AttrsAsParams(book: Book) returns (params: seq<string>)
    ensures params == MetadataParams(SupportedMetadataAttrs, book)
  {
    var attrs := SupportedMetadataAttrs;
    var list := new PyList<string>();
    for i := 0 to |attrs|
      invariant list.items == MetadataParams(attrs[..i], book)
    {
      MetadataParamsAppend(attrs[..i], attrs[i], book);
      assert attrs[..i + 1] == attrs[..i] + [attrs[i]];
      AppendParam(book, attrs[i], list);
    }
    assert attrs[..|attrs|] == attrs;
    params := list.items;
  }

  /** Every option comes from a name of the list whose attribute the book has
      and is not blank. */
  lemma {:induction false} MetadataParamsSound(attrs: seq<string>, book: Book)
    ensures forall t :: t in MetadataParams(attrs, book) ==>
              exists a :: a in attrs && Emits(book, a) && t == FormatParam(a, Str(book.attrs[a]))
  {
    if attrs != [] {
      var init, last := attrs[..|attrs| - 1], attrs[|attrs| - 1];
      assert attrs == init + [last];
      MetadataParamsSound(init, book);
      forall t | t in MetadataParams(attrs, book)
        ensures exists a :: a in attrs && Emits(book, a) && t == FormatParam(a, Str(book.attrs[a]))
      {
        if t in AttrParam(book, last) {
          assert last in attrs;
        } else {
          assert t in MetadataParams(init, book);
          var a :| a in init && Emits(book, a) && t == FormatParam(a, Str(book.attrs[a]));
          assert a in attrs;
        }
      }
    }
  }

  /** Every name of the list whose attribute is present and not blank gives its option. */
  lemma {:induction false} MetadataParamsComplete(attrs: seq<string>, book: Book)
    ensures forall a :: a in attrs && Emits(book, a) ==>
              FormatParam(a, Str(book.attrs[a])) in MetadataParams(attrs, book)
  {
    if attrs != [] {
      var init, last := attrs[..|attrs| - 1], attrs[|attrs| - 1];
      assert attrs == init + [last];
      MetadataParamsComplete(init, book);
      forall a | a in attrs && Emits(book, a)
        ensures FormatParam(a, Str(book.attrs[a])) in MetadataParams(attrs, book)
      {
        if a != last {
          assert a in init;
        }
      }
    }
  }

  /** The option each name would give if its attribute were emitted. */
  function Candidates(attrs: seq<string>, book: Book): (r: seq<string>)
    ensures |r| == |attrs|
  {
    seq(|attrs|, i requires 0 <= i < |attrs| =>
      FormatParam(attrs[i], if attrs[i] in book.attrs then Str(book.attrs[attrs[i]]) else ""))
  }

  /** The option a name gives, if any, is its candidate. */
  lemma AttrParamIsCandidate(book: Book, name: string)
    ensures AttrParam(book, name) == []
            || AttrParam(book, name) == [FormatParam(name, if name in book.attrs then Str(book.attrs[name]) else "")]
  {
  }

  /** The candidates of a longer list are those of its first names, then the last name's. */
  lemma CandidatesSnoc(attrs: seq<string>, book: Book)
    requires attrs != []
    ensures var last := attrs[|attrs| - 1];
            Candidates(attrs, book)
            == Candidates(attrs[..|attrs| - 1], book) + [FormatParam(last, if last in book.attrs then Str(book.attrs[last]) else "")]
  {
  }

  /** The options appear in the order of the list, at most one per name. */
  lemma {:induction false} MetadataParamsInListOrder(attrs: seq<string>, book: Book)
    ensures IsSubsequence(MetadataParams(attrs, book), Candidates(attrs, book))
  {
    if attrs != [] {
      var init, last := attrs[..|attrs| - 1], attrs[|attrs| - 1];
      MetadataParamsInListOrder(init, book);
      var x := FormatParam(last, if last in book.attrs then Str(book.attrs[last]) else "");
      CandidatesSnoc(attrs, book);
      SubsequenceExtend(MetadataParams(init, book), Candidates(init, book), x);
      AttrParamIsCandidate(book, last);
      assert AttrParam(book, last) == [] ==> MetadataParams(attrs, book) == MetadataParams(init, book);
    }
  }

  /** A name that is not in the list never gets an option, whatever the book holds. */
  lemma UnlistedNeverEmitted(attrs: seq<string>, book: Book, n: string, v: string)
    requires n !in attrs && '=' !in n
    requires forall a | a in attrs :: '=' !in a
    ensures FormatParam(n, v) !in MetadataParams(attrs, book)
  {
    MetadataParamsSound(attrs, book);
    if FormatParam(n, v) in MetadataParams(attrs, book) {
      var a :| a in attrs && Emits(book, a) && FormatParam(n, v) == FormatParam(a, Str(book.attrs[a]));
      FormatParamInjective(n, v, a, Str(book.attrs[a]));
    }
  }

  /** With the list as written, neither `book_producer` nor `comments` ever
      reaches ebook-convert, whatever the book holds. */
  lemma ProducerAndCommentsNeverEmitted(book: Book, v: string)
    ensures FormatParam("book_producer", v) !in MetadataParams(SupportedMetadataAttrs, book)
    ensures FormatParam("comments", v) !in MetadataParams(SupportedMetadataAttrs, book)
  {
    SupportedMetadataAttrsAsEvaluated();
    SupportedNamesHaveNoEquals();
    UnlistedNeverEmitted(SupportedMetadataAttrs, book, "book_producer", v);
    UnlistedNeverEmitted(SupportedMetadataAttrs, book, "comments", v);
  }

  /** With the comma restored, a present, non-blank `book_producer` or
      `comments` is passed on. */
  lemma IntendedListEmitsProducerAndComments(book: Book)
    ensures Emits(book, "book_producer") ==>
              FormatParam("book_producer", Str(book.attrs["book_producer"])) in MetadataParams(IntendedMetadataAttrs, book)
    ensures Emits(book, "comments") ==>
              FormatParam("comments", Str(book.attrs["comments"])) in MetadataParams(IntendedMetadataAttrs, book)
  {
    MetadataParamsComplete(IntendedMetadataAttrs, book);
    assert "book_producer" in IntendedMetadataAttrs && "comments" in IntendedMetadataAttrs;
  }

  /** The record of the object `EbookConvertOutput.from_dict(d)` returns. */
  function FromDictRecord(d: Dict): (r: OutputRecord)
    ensures r.kind == EbookConvertKind
    ensures r.ebookconvertParams == GetOr(d, "ebookconvert_params", JArr([]))
    ensures r.name == JNull && r.path == JNull && r.css == JNull && r.forcePublish == JBool(false)
  {
    Defaults(EbookConvertKind).(ebookconvertParams := GetOr(d, "ebookconvert_params", JArr([])))
  }

  /** `EbookConvertOutput.from_dict(d)`: a new object whose options are the
      dictionary's list, or [] when the key is absent. */
  method FromDict(d: Dict) returns (o: Output)
    ensures fresh(o) && o.Record() == FromDictRecord(d)
  {
    o := new Output(EbookConvertKind);
    o.ebookconvertParams := GetOr(d, "ebookconvert_params", JArr([]));
  }

  datatype TempEvent = Created(path: string) | Removed(path: string)

  /** One call of `HtmlOutput.make`: the output object as it was, and its arguments. */
  datatype Rendering = Rendering(output: OutputRecord, book: Book, substitutions: seq<Substitution>)

  /** What the outside world sees of a build: temporary files, HTML
      renderings and calls of ebook-convert. */
  class System {
    ghost var liveTemps: set<string>
    ghost var tempEvents: seq<TempEvent>
    ghost var renderings: seq<Rendering>
    ghost var conversions: seq<seq<Json>>

    constructor ()
      ensures liveTemps == {} && tempEvents == [] && renderings == [] && conversions == []
    {
      liveTemps, tempEvents, renderings, conversions := {}, [], [], [];
    }

    /** `mkstemp(suffix=".html")`, which creates the file at an unused `path`. */
    method MakeTemp(path: string)
      requires path !in liveTemps
      modifies this
      ensures liveTemps == old(liveTemps) + {path}
      ensures tempEvents == old(tempEvents) + [Created(path)]
      ensures renderings == old(renderings) && conversions == old(conversions)
    {
      liveTemps := liveTemps + {path};
      tempEvents := tempEvents + [Created(path)];
    }

    /** `os.remove(path)` */
    method Remove(path: string)
      requires path in liveTemps
      modifies this
      ensures liveTemps == old(liveTemps) - {path}
      ensures tempEvents == old(tempEvents) + [Removed(path)]
      ensures renderings == old(renderings) && conversions == old(conversions)
    {
      liveTemps := liveTemps - {path};
      tempEvents := tempEvents + [Removed(path)];
    }

    /** `html_output.make(book, substitutions)`; `raises` says whether it raised. */
    method RenderHtml(html: Output, book: Book, substitutions: seq<Substitution>, raises: bool) returns (r: Outcome)
      modifies this
      ensures renderings == old(renderings) + [Rendering(html.Record(), book, substitutions)]
      ensures r == if raises then Fail(CollaboratorError("HtmlOutput.make")) else Pass
      ensures liveTemps == old(liveTemps) && tempEvents == old(tempEvents) && conversions == old(conversions)
    {
      renderings := renderings + [Rendering(html.Record(), book, substitutions)];
      r := if raises then Fail(CollaboratorError("HtmlOutput.make")) else Pass;
    }

    /** `subprocess.call(argv)`. Its exit status is ignored by the caller, so
        only whether the call raised (no such program, say) is kept. */
    method Call(argv: seq<Json>, raises: bool) returns (r: Outcome)
      modifies this
      ensures conversions == old(conversions) + [argv]
      ensures r == if raises then Fail(CollaboratorError("subprocess.call")) else Pass
      ensures liveTemps == old(liveTemps) && tempEvents == old(tempEvents) && renderings == old(renderings)
    {
      conversions := conversions + [argv];
      r := if raises then Fail(CollaboratorError("subprocess.call")) else Pass;
    }
  }

  /** The record of the HTML output `_make_html` builds for `o`. */
  function HtmlRecordFor(o: OutputRecord, tempPath: string): (r: OutputRecord)
    ensures r.kind == HtmlKind && r.path == JStr(tempPath)
    ensures r.css == o.css && r.forcePublish == o.forcePublish
    ensures r.name == JNull && r.ebookconvertParams == JArr([])
  {
    Defaults(HtmlKind).(path := JStr(tempPath), css := o.css, forcePublish := o.forcePublish)
  }

  /** `_make_html`: renders the book to `tempPath` with this output's
      stylesheet and force-publish flag. */
  method MakeHtml(o: Output, tempPath: string, book: Book, substitutions: seq<Substitution>,
                  sys: System, raises: bool) returns (r: Outcome)
    modifies sys
    ensures sys.renderings == old(sys.renderings) + [Rendering(HtmlRecordFor(o.Record(), tempPath), book, substitutions)]
    ensures r == if raises then Fail(CollaboratorError("HtmlOutput.make")) else Pass
    ensures sys.liveTemps == old(sys.liveTemps) && sys.tempEvents == old(sys.tempEvents)
    ensures sys.conversions == old(sys.conversions)
  {
    var html := new Output(HtmlKind);
    html.path := JStr(tempPath);
    html.css := o.css;
    html.forcePublish := o.forcePublish;
    r := sys.RenderHtml(html, book, substitutions, raises);
  }

  function AsJson(ss: seq<string>): (r: seq<Json>)
    ensures |r| == |ss| && forall i :: 0 <= i < |ss| ==> r[i] == JStr(ss[i])
  {
    seq(|ss|, i requires 0 <= i < |ss| => JStr(ss[i]))
  }

  /** `EbookConvertOutput.make(book, substitutions)`. The temporary file
      `tempPath` that `mkstemp` creates is removed on every way out: after a
      successful call, when the rendering raises, when the options cannot be
      iterated and when the call raises. */
  method Make(o: Output, book: Book, substitutions: seq<Substitution>, sys: System,
              tempPath: string, renderRaises: bool, callRaises: bool) returns (r: Outcome)
    requires o.kind == EbookConvertKind
    requires tempPath !in sys.liveTemps
    modifies sys
    ensures sys.liveTemps == old(sys.liveTemps)
    ensures sys.tempEvents == old(sys.tempEvents) + [Created(tempPath), Removed(tempPath)]
    ensures sys.renderings == old(sys.renderings) + [Rendering(HtmlRecordFor(o.Record(), tempPath), book, substitutions)]
    ensures renderRaises ==> r == Fail(CollaboratorError("HtmlOutput.make")) && sys.conversions == old(sys.conversions)
    ensures !renderRaises && Iterate(o.ebookconvertParams).Err? ==>
              r == Fail(Iterate(o.ebookconvertParams).error) && sys.conversions == old(sys.conversions)
    ensures !renderRaises && Iterate(o.ebookconvertParams).Ok? ==>
              sys.conversions == old(sys.conversions)
                + [[JStr("ebook-convert"), JStr(tempPath), o.path]
                   + AsJson(MetadataParams(SupportedMetadataAttrs, book))
                   + Iterate(o.ebookconvertParams).value]
              && r == if callRaises then Fail(CollaboratorError("subprocess.call")) else Pass
  {
    sys.MakeTemp(tempPath);
    r := MakeHtml(o, tempPath, book, substitutions, sys, renderRaises);
    if r.Pass? {
      var callParams := new PyList<Json>();
      var head := [JStr("ebook-convert"), JStr(tempPath), o.path];
      callParams.Extend(head);
      assert callParams.items == head;
      var metadata := AttrsAsParams(book);
      callParams.Extend(AsJson(metadata));
      var extra := Iterate(o.ebookconvertParams);
      if extra.Err? {
        r := Fail(extra.error);
      } else {
        callParams.Extend(extra.value);
        r := sys.Call(callParams.items, callRaises);
      }
    }
    sys.Remove(tempPath);
  }
  /** The metadata options `make` hands to ebook-convert (between the
      destination and the output's own options) never set `book_producer` or
      `comments`, whatever the book holds. */
  lemma MakeNeverPassesProducerOrComments(book: Book, v: string)
    ensures JStr(FormatParam("book_producer", v)) !in AsJson(MetadataParams(SupportedMetadataAttrs, book))
    ensures JStr(FormatParam("comments", v)) !in AsJson(MetadataParams(SupportedMetadataAttrs, book))
  {
    ProducerAndCommentsNeverEmitted(book, v);
  }

  /** A book whose only metadata are a producer and comments gives ebook-convert
      no metadata option at all. */
  lemma ProducerAndCommentsBookGivesNoOptions()
    ensures MetadataParams(SupportedMetadataAttrs,
                           Book(map["book_producer" := JStr("ACME"), "comments" := JStr("Short")], [])) == []
  {
    var b := Book(map["book_producer" := JStr("ACME"), "comments" := JStr("Short")], []);
    SupportedMetadataAttrsAsEvaluated();
    forall a | a in SupportedMetadataAttrs
      ensures !Emits(b, a)
    {
    }
    NoneEmittedNoOptions(SupportedMetadataAttrs, b);
  }

  /** Names none of which the book emits give no options. */
  lemma {:induction false} NoneEmittedNoOptions(attrs: seq<string>, book: Book)
    requires forall a | a in attrs :: !Emits(book, a)
    ensures MetadataParams(attrs, book) == []
  {
    if attrs != [] {
      var init := attrs[..|attrs| - 1];
      assert forall a | a in init :: a in attrs;
      NoneEmittedNoOptions(init, book);
      assert attrs[|attrs| - 1] in attrs;
    }
  }
}
