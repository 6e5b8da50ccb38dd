/** The Python values the loaders work on: the tree that `json.loads` or a
    YAML parser produces, and the few built-in behaviours of Python that the
    modelled code relies on (`in` and `[]` on a dict, `str()`, iteration,
    `str.isspace`, lists that grow in place). */
module Values {

  datatype Option<+T> = None | Some(value: T)

  datatype Result<+T> = Ok(value: T) | Err(error: Error)

  /** The outcome of an operation that returns nothing but may raise. */
  datatype Outcome = Pass | Fail(error: Error)

  /** The exceptions the modelled code raises or lets through. */
  datatype Error =
    | KeyError(key: string)                  // d[key] on a dict without key
    | TypeError(message: string)
    | AttributeError(message: string)
    | NotImplementedError(message: string)
    | NoBookFoundError
    | MalformedProjectJsonError(message: string)
    | OutputNotFoundError(message: string)
    | CollaboratorError(reason: string)      // raised inside code this model does not see

  /** A parsed document value. Numbers are integers only. */
  datatype Json =
    | JNull
    | JBool(b: bool)
    | JNum(n: int)
    | JStr(s: string)
    | JArr(items: seq<Json>)
    | JObj(entries: Dict)

  /** One key of a dict with its value; a dict keeps its keys in declaration order. */
  datatype Entry = Entry(key: string, value: Json)

  type Dict = seq<Entry>

  /** `list(d.keys())` */
  function Keys(d: Dict): (ks: seq<string>)
    ensures |ks| == |d|
    ensures forall i :: 0 <= i < |d| ==> ks[i] == d[i].key
  {
    seq(|d|, i requires 0 <= i < |d| => d[i].key)
  }

  /** `key in d` */
  predicate Has(d: Dict, key: string) {
    Lookup(d, key).Some?
  }

  /** The value stored under `key`, or None when `d` has no such key
      (the first entry wins if a key were repeated). */
  function Lookup(d: Dict, key: string): Option<Json> {
    if d == [] then None
    else if d[0].key == key then Some(d[0].value)
    else Lookup(d[1..], key)
  }

  /** A dict has a key exactly when one of its entries carries it, and the
      value found is the one stored with the first such entry. */
  lemma {:induction false} LookupFindsFirst(d: Dict, key: string)
    ensures Has(d, key) <==> key in Keys(d)
    ensures Has(d, key) ==> exists i :: 0 <= i < |d| && d[i] == Entry(key, Lookup(d, key).value)
                                       && forall j :: 0 <= j < i ==> d[j].key != key
  {
    if d != [] {
      LookupFindsFirst(d[1..], key);
      assert Keys(d) == [d[0].key] + Keys(d[1..]);
      if d[0].key != key && Has(d, key) {
        var i :| 0 <= i < |d[1..]| && d[1..][i] == Entry(key, Lookup(d, key).value)
                 && forall j :: 0 <= j < i ==> d[1..][j].key != key;
        assert d[i + 1] == Entry(key, Lookup(d, key).value);
      }
    }
  }

  /** The keys a dict has are the keys of its entries. */
  lemma HasIffInKeys(d: Dict)
    ensures forall key :: Has(d, key) <==> key in Keys(d)
  {
    forall key
      ensures Has(d, key) <==> key in Keys(d)
    {
      LookupFindsFirst(d, key);
    }
  }

  /** `d[key]`, for a key the dict has. */
  function Get(d: Dict, key: string): Json
    requires Has(d, key)
  {
    Lookup(d, key).value
  }

  /** `d.get(key, default)`: how a default is read for a key that may be absent. */
  function GetOr(d: Dict, key: string, default: Json): (r: Json)
    ensures Has(d, key) ==> r == Get(d, key)
    ensures !Has(d, key) ==> r == default
  {
    match Lookup(d, key)
    case Some(v) => v
    case None => default
  }

  /** Python's name for the type of a value, as its error messages print it. */
  function TypeName(v: Json): string {
    match v
    case JNull => "NoneType"
    case JBool(_) => "bool"
    case JNum(_) => "int"
    case JStr(_) => "str"
    case JArr(_) => "list"
    case JObj(_) => "dict"
  }

  /** The elements a `for` loop over `v` visits: the items of a list, the
      characters of a string, the keys of a dict; None, booleans and numbers
      are not iterable. */
  function Iterate(v: Json): (r: Result<seq<Json>>)
    ensures v.JArr? ==> r == Ok(v.items)
    ensures v.JStr? ==> r.Ok? && |r.value| == |v.s| && forall i :: 0 <= i < |v.s| ==> r.value[i] == JStr([v.s[i]])
    ensures v.JObj? ==> r.Ok? && |r.value| == |v.entries| && forall i :: 0 <= i < |v.entries| ==> r.value[i] == JStr(v.entries[i].key)
    ensures r.Err? <==> (v.JNull? || v.JBool? || v.JNum?)
  {
    match v
    case JArr(items) => Ok(items)
    case JStr(s) => Ok(seq(|s|, i requires 0 <= i < |s| => JStr([s[i]])))
    case JObj(entries) => Ok(seq(|entries|, i requires 0 <= i < |entries| => JStr(entries[i].key)))
    case _ => Err(TypeError("'" + TypeName(v) + "' object is not iterable"))
  }

  function DigitChar(d: nat): char
    requires d < 10
  {
    "0123456789"[d]
  }

  function NatToString(n: nat): (s: string)
    ensures |s| > 0
  {
    if n < 10 then [DigitChar(n)] else NatToString(n / 10) + [DigitChar(n % 10)]
  }

  /** `str(n)` for an integer. */
  function IntToString(n: int): string {
    if n < 0 then "-" + NatToString(-n) else NatToString(n)
  }

  /** Joins `parts` with `sep` between consecutive parts. */
  function Join(parts: seq<string>, sep: string): string {
    if parts == [] then ""
    else if |parts| == 1 then parts[0]
    else parts[0] + sep + Join(parts[1..], sep)
  }

  /** `repr(v)`; strings are quoted with `'` and not escaped. */
  function Repr(v: Json): string
    decreases v
  {
    match v
    case JNull => "None"
    case JBool(b) => if b then "True" else "False"
    case JNum(n) => IntToString(n)
    case JStr(s) => "'" + s + "'"
    case JArr(items) =>
      "[" + Join(seq(|items|, i requires 0 <= i < |items| => Repr(items[i])), ", ") + "]"
    case JObj(entries) =>
      "{" + Join(seq(|entries|, i requires 0 <= i < |entries| =>
                   "'" + entries[i].key + "': " + Repr(entries[i].value)), ", ") + "}"
  }

  /** `str(v)`: a string is itself, anything else is its repr. */
  function Str(v: Json): (r: string)
    ensures v.JStr? ==> r == v.s
    ensures v.JNull? ==> r == "None"
  {
    if v.JStr? then v.s else Repr(v)
  }

  /** The characters for which Python's `str.isspace` is true. */
  const PythonWhitespace: string := "\t\n\U{0B}\U{0C}\r\U{1C}\U{1D}\U{1E}\U{1F} \U{85}\U{A0}\U{1680}\U{2000}\U{2001}\U{2002}\U{2003}\U{2004}\U{2005}\U{2006}\U{2007}\U{2008}\U{2009}\U{200A}\U{2028}\U{2029}\U{202F}\U{205F}\U{3000}"

  /** `c.isspace()` for one character. */
  predicate IsSpace(c: char) {
    SpaceFrom(c, 0)
  }

  /** `c` is one of the whitespace characters from position `i` on. */
  predicate SpaceFrom(c: char, i: nat)
    decreases |PythonWhitespace| - i
  {
    i < |PythonWhitespace| && (PythonWhitespace[i] == c || SpaceFrom(c, i + 1))
  }

  lemma {:induction false} SpaceFromIsIn(c: char, i: nat)
    requires i <= |PythonWhitespace|
    ensures SpaceFrom(c, i) <==> exists k :: i <= k < |PythonWhitespace| && PythonWhitespace[k] == c
    decreases |PythonWhitespace| - i
  {
    if i < |PythonWhitespace| {
      SpaceFromIsIn(c, i + 1);
    }
  }

  /** Which characters are whitespace. */
  lemma IsSpaceChars(c: char)
    ensures IsSpace(c) <==> c in PythonWhitespace
  {
    SpaceFromIsIn(c, 0);
  }

  /** True when every character of `s` is whitespace (so also for ""). */
  predicate IsBlank(s: string) {
    forall i :: 0 <= i < |s| ==> IsSpace(s[i])
  }

  /** `s[:len(p)] == p` */
  predicate StartsWith(s: string, p: string) {
    |p| <= |s| && s[..|p|] == p
  }

  /** `s.endswith(p)` */
  predicate EndsWith(s: string, p: string) {
    |p| <= |s| && s[|s| - |p|..] == p
  }

  /** `p in s` for two strings: `p` occurs in `s` as a contiguous piece. */
  predicate IsSubstring(p: string, s: string) {
    exists i :: 0 <= i <= |s| && StartsWith(s[i..], p)
  }

  /** `a` is `b` with zero or more elements left out, the rest in the same order. */
  predicate IsSubsequence<T(==)>(a: seq<T>, b: seq<T>)
    decreases |b|
  {
    if a == [] then true
    else if b == [] then false
    else if a[0] == b[0] then IsSubsequence(a[1..], b[1..])
    else IsSubsequence(a, b[1..])
  }

  lemma {:induction false} SubsequenceNotLonger<T>(a: seq<T>, b: seq<T>)
    requires IsSubsequence(a, b)
    ensures |a| <= |b|
    decreases |b|
  {
    if a != [] {
      if a[0] == b[0] { SubsequenceNotLonger(a[1..], b[1..]); }
      else { SubsequenceNotLonger(a, b[1..]); }
    }
  }

  /** Adding an element in front of the longer sequence keeps a subsequence one. */
  lemma {:induction false} SubsequenceOfTail<T>(a: seq<T>, b: seq<T>)
    requires b != [] && IsSubsequence(a, b[1..])
    ensures IsSubsequence(a, b)
    decreases |b| - 1, 2
  {
    if a != [] && a[0] == b[0] {
      SubsequenceDropHead(a, b[1..]);
    }
  }

  /** Dropping the first element of a subsequence keeps it one. */
  lemma {:induction false} SubsequenceDropHead<T>(a: seq<T>, b: seq<T>)
    requires a != [] && IsSubsequence(a, b)
    ensures IsSubsequence(a[1..], b)
    decreases |b|, 1
  {
    if a[0] == b[0] {
      if a[1..] != [] { SubsequenceOfTail(a[1..], b); }
    } else {
      SubsequenceDropHead(a, b[1..]);
      if a[1..] != [] { SubsequenceOfTail(a[1..], b); }
    }
  }

  /** Appending the same element to both sequences keeps a subsequence one,
      and so does appending an element to the longer one only. */
  lemma {:induction false} SubsequenceExtend<T>(a: seq<T>, b: seq<T>, x: T)
    requires IsSubsequence(a, b)
    ensures IsSubsequence(a + [x], b + [x])
    ensures IsSubsequence(a, b + [x])
    decreases |b|
  {
    if b == [] {
      assert a == [];
      assert a + [x] == [x] == b + [x];
    } else {
      assert (b + [x])[0] == b[0] && (b + [x])[1..] == b[1..] + [x];
      if a == [] {
        SubsequenceExtend(a, b[1..], x);
        assert a + [x] == [x];
      } else {
        assert (a + [x])[0] == a[0] && (a + [x])[1..] == a[1..] + [x];
        if a[0] == b[0] {
          SubsequenceExtend(a[1..], b[1..], x);
        } else {
          SubsequenceExtend(a, b[1..], x);
        }
      }
    }
  }

  /** Maps `f` over `items`, stopping at the first element it fails on: what a
      `for` loop that appends `f(item)` to a fresh list computes when `f`
      may raise. */
  function Collect<T>(items: seq<Json>, f: Json -> Result<T>): (r: Result<seq<T>>)
    ensures r.Ok? ==> |r.value| == |items|
    decreases |items|
  {
    if items == [] then Ok([])
    else
      var init := items[..|items| - 1];
      match Collect(init, f)
      case Err(e) => Err(e)
      case Ok(xs) =>
        match f(items[|items| - 1])
        case Err(e) => Err(e)
        case Ok(x) => Ok(xs + [x])
  }

  /** Collect yields one value per item, each `f` of that item, exactly when
      `f` succeeds on every item; otherwise its error is `f`'s error on the
      first item it fails on. */
  lemma {:induction false} CollectElementwise<T>(items: seq<Json>, f: Json -> Result<T>)
    ensures var r := Collect(items, f);
            (r.Ok? <==> forall i :: 0 <= i < |items| ==> f(items[i]).Ok?)
            && (r.Ok? ==> forall i :: 0 <= i < |items| ==> f(items[i]) == Ok(r.value[i]))
            && (r.Err? ==> exists i :: 0 <= i < |items| && f(items[i]) == Err(r.error)
                                      && forall j :: 0 <= j < i ==> f(items[j]).Ok?)
    decreases |items|
  {
    if items != [] {
      var init := items[..|items| - 1];
      CollectElementwise(init, f);
      assert forall i :: 0 <= i < |init| ==> init[i] == items[i];
    }
  }

  /** Once `f` has succeeded on the first `i` items and fails on item `i`,
      the whole collection fails with that error. */
  lemma CollectStopsAtFirstError<T>(items: seq<Json>, f: Json -> Result<T>, i: nat)
    requires i < |items|
    requires Collect(items[..i], f).Ok? && f(items[i]).Err?
    ensures Collect(items, f) == Err(f(items[i]).error)
  {
    CollectElementwise(items[..i], f);
    assert forall j :: 0 <= j < i ==> items[..i][j] == items[j];
    CollectFirstError(items, f, i);
  }

  /** The same, when `f` is known to succeed on each of the first `i` items. */
  lemma CollectFirstError<T>(items: seq<Json>, f: Json -> Result<T>, i: nat)
    requires i < |items|
    requires forall j :: 0 <= j < i ==> f(items[j]).Ok?
    requires f(items[i]).Err?
    ensures Collect(items, f) == Err(f(items[i]).error)
  {
    var r := Collect(items, f);
    CollectElementwise(items, f);
    var k :| 0 <= k < |items| && f(items[k]) == Err(r.error) && forall j :: 0 <= j < k ==> f(items[j]).Ok?;
    assert k == i;
  }

  /** Appending an item `f` succeeds on extends the collected prefix by its value. */
  lemma CollectExtend<T>(items: seq<Json>, f: Json -> Result<T>, i: nat)
    requires i < |items|
    requires Collect(items[..i], f).Ok? && f(items[i]).Ok?
    ensures Collect(items[..i + 1], f) == Ok(Collect(items[..i], f).value + [f(items[i]).value])
  {
    assert items[..i + 1][..i] == items[..i];
  }

  /** A Python list that a method grows in place. */
  class PyList<T> {
    var items: seq<T>

    constructor ()
      ensures items == []
    {
      items := [];
    }

    /** `list.append(x)` */
    method Append(x: T)
      modifies this
      ensures items == old(items) + [x]
    {
      items := items + [x];
    }

    /** `list.extend(xs)` */
    method Extend(xs: seq<T>)
      modifies this
      ensures items == old(items) + xs
    {
      items := items + xs;
    }
  }
}
