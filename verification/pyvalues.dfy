/** Python values as the modelled code sees them: the JSON-like scalars and
    containers, enum members, and other objects (pydantic models and
    monty `MSONable`s carry their field dict). The module gives them
    Python's `repr`/`str` rendering, truthiness, `==` and ordering on
    numbers, and models `jsanitize` in its non-strict form. */
module PyValues {
  import opened Results
  import opened Strings
  import opened PyDict

  datatype PyVal =
    | PNone
    | PBool(b: bool)
    | PInt(i: int)
    | PFloat(x: real)
    | PNaN
    | PStr(s: string)
    | PList(items: seq<PyVal>)
    | PTuple(items: seq<PyVal>)
    | PSet(items: seq<PyVal>)
    | PDict(entries: seq<(PyVal, PyVal)>)
      /** A member of an `Enum` whose `str`/`repr` is `text`. */
    | PEnum(text: string, value: PyVal)
      /** A pydantic model or monty `MSONable`; `fields` is its
          `.dict()`/`.as_dict()`. */
    | PModel(text: string, fields: seq<(string, PyVal)>)
      /** Any other object, known by its `str`. */
    | PObject(text: string)

  /** A dict keyed by strings, the shape of every record in the system. */
  type StrDict = Dict<string, PyVal>

  function StrKeyed(d: StrDict): seq<(PyVal, PyVal)> {
    seq(|d|, i requires 0 <= i < |d| => (PStr(d[i].0), d[i].1))
  }

  /** Looking a string up in the dict value finds what the string-keyed
      dict holds under it. */
  lemma {:induction false} StrKeyedGet(d: StrDict, k: string)
    ensures Get(StrKeyed(d), PStr(k)) == Get(d, k)
    decreases |d|
  {
    if |d| > 0 {
      assert StrKeyed(d)[1..] == StrKeyed(d[1..]);
      StrKeyedGet(d[1..], k);
    }
  }

  /** A string-keyed dict as a Python value. */
  function DictVal(d: StrDict): PyVal {
    PDict(StrKeyed(d))
  }

  /** `d[k]` on a string-keyed dict: `KeyError` when the key is absent. */
  function Item(d: StrDict, k: string): (r: Result<PyVal>)
    ensures r.Ok? <==> k in Keys(d)
    ensures r.Ok? ==> Get(d, k) == Some(r.value)
    ensures r.Err? ==> r.error == KeyError(k)
  {
    GetPresent(d, k);
    if Get(d, k).Some? then Ok(Get(d, k).value) else Err(KeyError(k))
  }

  /** The first of the keys `ks` that `d` lacks: the `KeyError` a run of
      lookups `d[ks[0]]`, `d[ks[1]]`, ... stops at. */
  function FirstMissing(d: StrDict, ks: seq<string>): (r: Option<string>)
    ensures r.None? <==> forall k :: k in ks ==> k in Keys(d)
    ensures r.Some? ==> r.value in ks && r.value !in Keys(d)
    decreases |ks|
  {
    if |ks| == 0 then None
    else if ks[0] !in Keys(d) then assert ks[0] in ks; Some(ks[0])
    else
      var r := FirstMissing(d, ks[1..]);
      assert ks == [ks[0]] + ks[1..];
      assert r.Some? ==> r.value in ks;
      r
  }

  // --------------------------------------------------------------- rendering

  function HexDigit(d: nat): char
    requires d < 16
  {
    if d < 10 then DigitChar(d) else ('a' as int + d - 10) as char
  }

  /** The escape Python writes for an unprintable code point below 256. */
  function HexEscape(c: nat): string
    requires c < 256
  {
    ['\\', 'x', HexDigit(c / 16), HexDigit(c % 16)]
  }

  /** The quote `repr` chooses: double quotes only when the text holds a
      single quote and no double quote. */
  function QuoteFor(s: string): char {
    if '\'' in s && '"' !in s then '"' else '\''
  }

  /** The code points below 256 that `str.isprintable()` refuses: the C0
      and C1 controls, the no-break space and the soft hyphen. */
  predicate Latin1Unprintable(c: char) {
    c as int < 32 || (127 <= c as int <= 160) || c as int == 173
  }

  /** How `repr` writes one character of a `str` quoted with `q`. */
  function EscapeChar(c: char, q: char): string {
    if c == '\\' then "\\\\"
    else if c == q then ['\\', q]
    else if c == '\t' then "\\t"
    else if c == '\n' then "\\n"
    else if c == '\r' then "\\r"
    else if Latin1Unprintable(c) then HexEscape(c as int)
    else [c]
  }

  function EscapeText(s: string, q: char): string
    decreases |s|
  {
    if |s| == 0 then "" else EscapeChar(s[0], q) + EscapeText(s[1..], q)
  }

  /** `repr(s)` for a `str`. */
  function StrRepr(s: string): string {
    var q := QuoteFor(s);
    [q] + EscapeText(s, q) + [q]
  }

  /** A no-break space is written as its `\xa0` escape. */
  lemma NoBreakSpaceEscaped()
    ensures StrRepr("\U{00A0}") == "'\\xa0'"
  {
    assert EscapeText("\U{00A0}", '\'') == HexEscape(160) + EscapeText("", '\'');
    assert HexDigit(10) == 'a' && HexDigit(0) == '0';
  }

  /** The first `n` decimals of a fraction `f` in [0, 1), stopping early
      once the rest is zero. */
  function FracDigits(f: real, n: nat): string
    requires 0.0 <= f < 1.0
    decreases n
  {
    if n == 0 || f == 0.0 then ""
    else
      var t := f * 10.0;
      var d := t.Floor;
      [DigitChar(d)] + FracDigits(t - d as real, n - 1)
  }

  /** `repr(x)` for a finite float, in positional notation with at most 17
      decimals. */
  function FloatRepr(x: real): string {
    var a := if x < 0.0 then -x else x;
    var sign := if x < 0.0 then "-" else "";
    var ip := a.Floor;
    var frac := FracDigits(a - ip as real, 17);
    sign + Dec(ip) + "." + (if frac == "" then "0" else frac)
  }

  /** `repr(v)` */
  function Repr(v: PyVal): string
    decreases v
  {
    match v
    case PNone => "None"
    case PBool(b) => if b then "True" else "False"
    case PInt(i) => IntText(i)
    case PFloat(x) => FloatRepr(x)
    case PNaN => "nan"
    case PStr(s) => StrRepr(s)
    case PList(xs) => "[" + JoinWith(", ", seq(|xs|, k requires 0 <= k < |xs| => Repr(xs[k]))) + "]"
    case PTuple(xs) =>
      if |xs| == 1 then "(" + Repr(xs[0]) + ",)"
      else "(" + JoinWith(", ", seq(|xs|, k requires 0 <= k < |xs| => Repr(xs[k]))) + ")"
    case PSet(xs) =>
      if |xs| == 0 then "set()"
      else "{" + JoinWith(", ", seq(|xs|, k requires 0 <= k < |xs| => Repr(xs[k]))) + "}"
    case PDict(es) =>
      "{" + JoinWith(", ", seq(|es|, k requires 0 <= k < |es| => Repr(es[k].0) + ": " + Repr(es[k].1))) + "}"
    case PEnum(text, _) => text
    case PModel(text, _) => text
    case PObject(text) => text
  }

  /** `str(v)`: the text itself for strings, enum members and objects, the
      `repr` for everything else. */
  function Str(v: PyVal): string {
    match v
    case PStr(s) => s
    case PEnum(text, _) => text
    case PModel(text, _) => text
    case PObject(text) => text
    case _ => Repr(v)
  }

  /** The rendering of a dict starts with the rendering of its first key, so
      two dicts holding the same pairs in different insertion orders render
      differently: `str({'a': 1, 'b': 2}) != str({'b': 2, 'a': 1})` although
      the two dicts compare equal in Python. */
  lemma InsertionOrderMatters()
    ensures Str(PDict([(PStr("a"), PInt(1)), (PStr("b"), PInt(2))]))
         != Str(PDict([(PStr("b"), PInt(2)), (PStr("a"), PInt(1))]))
  {
    var r1 := Str(PDict([(PStr("a"), PInt(1)), (PStr("b"), PInt(2))]));
    var r2 := Str(PDict([(PStr("b"), PInt(2)), (PStr("a"), PInt(1))]));
    assert StrRepr("a") == "'a'";
    assert StrRepr("b") == "'b'";
    assert r1[2] == 'a';
    assert r2[2] == 'b';
  }

  // ----------------------------------------------------- truth and equality

  /** `bool(v)` */
  predicate Truthy(v: PyVal) {
    match v
    case PNone => false
    case PBool(b) => b
    case PInt(i) => i != 0
    case PFloat(x) => x != 0.0
    case PNaN => true
    case PStr(s) => |s| > 0
    case PList(xs) => |xs| > 0
    case PTuple(xs) => |xs| > 0
    case PSet(xs) => |xs| > 0
    case PDict(es) => |es| > 0
    case PEnum(_, _) => true
    case PModel(_, _) => true
    case PObject(_) => true
  }

  /** The numeric value of a bool, int or float (`bool` is a subclass of
      `int` in Python). NaN and non-numbers have none. */
  function Num(v: PyVal): Option<real> {
    match v
    case PBool(b) => Some(if b then 1.0 else 0.0)
    case PInt(i) => Some(i as real)
    case PFloat(x) => Some(x)
    case _ => None
  }

  predicate IsNumber(v: PyVal) {
    v.PBool? || v.PInt? || v.PFloat? || v.PNaN?
  }

  /** `a == b`: numbers compare by value across bool/int/float, NaN equals
      nothing, lists and tuples compare element by element, anything else
      compares structurally. */
  predicate PyEq(a: PyVal, b: PyVal)
    decreases a
  {
    if IsNumber(a) && IsNumber(b) then Num(a).Some? && Num(b).Some? && Num(a) == Num(b)
    else if (a.PList? && b.PList?) || (a.PTuple? && b.PTuple?) then
      |a.items| == |b.items| &&
      forall k :: 0 <= k < |a.items| ==> PyEq(a.items[k], b.items[k])
    else a == b
  }

  /** `==` is symmetric. */
  lemma {:induction false} PyEqSymmetric(a: PyVal, b: PyVal)
    ensures PyEq(a, b) <==> PyEq(b, a)
    decreases a
  {
    if !(IsNumber(a) && IsNumber(b)) && ((a.PList? && b.PList?) || (a.PTuple? && b.PTuple?)) {
      if |a.items| == |b.items| {
        forall k | 0 <= k < |a.items| ensures PyEq(a.items[k], b.items[k]) <==> PyEq(b.items[k], a.items[k]) {
          PyEqSymmetric(a.items[k], b.items[k]);
        }
      }
    }
  }

  /** `a > t` for a number `a` and an int threshold `t`; comparing `None` or
      a string with an int raises `TypeError`. */
  function GreaterThan(a: PyVal, t: int): (r: Result<bool>)
    ensures r.Ok? <==> IsNumber(a)
    ensures r == Ok(true) <==> Num(a).Some? && Num(a).value > t as real
  {
    if !IsNumber(a) then Err(TypeError("'>' not supported"))
    else Ok(Num(a).Some? && Num(a).value > t as real)
  }

  // ------------------------------------------------------------- jsanitize

  /** The values `jsanitize` is meant to produce: JSON scalars (no NaN),
      lists, and dicts with pairwise different string keys. */
  predicate JsonLike(v: PyVal)
    decreases v
  {
    match v
    case PNone => true
    case PBool(_) => true
    case PInt(_) => true
    case PFloat(_) => true
    case PStr(_) => true
    case PList(xs) => forall k :: 0 <= k < |xs| ==> JsonLike(xs[k])
    case PDict(es) =>
      DistinctKeys(es) &&
      forall k :: 0 <= k < |es| ==> es[k].0.PStr? && JsonLike(es[k].1)
    case _ => false
  }

  /** Every enum member inside `v` has a JSON-like value (the enums of this
      system have string values). `jsanitize` returns an enum's value
      without sanitizing it, so its guarantees rest on this. */
  predicate EnumsJsonLike(v: PyVal)
    decreases v
  {
    match v
    case PList(xs) => forall k :: 0 <= k < |xs| ==> EnumsJsonLike(xs[k])
    case PTuple(xs) => forall k :: 0 <= k < |xs| ==> EnumsJsonLike(xs[k])
    case PSet(xs) => forall k :: 0 <= k < |xs| ==> EnumsJsonLike(xs[k])
    case PDict(es) => forall k :: 0 <= k < |es| ==> EnumsJsonLike(es[k].1)
    case PEnum(_, value) => JsonLike(value)
    case PModel(_, fs) => forall k :: 0 <= k < |fs| ==> EnumsJsonLike(fs[k].1)
    case _ => true
  }

  /** `jsanitize(v)` with `strict=False`, `allow_bson=False`: lists, tuples
      and sets become lists; an enum member becomes its value; dict keys are
      replaced by their `str`, a later key overwriting an earlier one that
      renders the same; models become the dict of their fields; NaN becomes
      0; `None`, bools, ints, floats and strings are kept; any other object
      becomes its `str`. */
  function Sanitize(v: PyVal): PyVal
    decreases v
  {
    match v
    case PList(xs) => PList(seq(|xs|, k requires 0 <= k < |xs| => Sanitize(xs[k])))
    case PTuple(xs) => PList(seq(|xs|, k requires 0 <= k < |xs| => Sanitize(xs[k])))
    case PSet(xs) => PList(seq(|xs|, k requires 0 <= k < |xs| => Sanitize(xs[k])))
    case PEnum(_, value) => value
    case PDict(es) =>
      PDict(FromPairs(seq(|es|, k requires 0 <= k < |es| => (PStr(Str(es[k].0)), Sanitize(es[k].1)))))
    case PModel(_, fs) =>
      PDict(FromPairs(seq(|fs|, k requires 0 <= k < |fs| => (PStr(fs[k].0), Sanitize(fs[k].1)))))
    case PNaN => PInt(0)
    case PNone => v
    case PBool(_) => v
    case PInt(_) => v
    case PFloat(_) => v
    case PStr(_) => v
    case PObject(text) => PStr(text)
  }

  /** A dict built from string-keyed pairs with JSON-like values is JSON-like. */
  lemma FromPairsJsonLike(ps: seq<(PyVal, PyVal)>)
    requires forall k :: 0 <= k < |ps| ==> ps[k].0.PStr? && JsonLike(ps[k].1)
    ensures JsonLike(PDict(FromPairs(ps)))
  {
    var r := FromPairs(ps);
    FromPairsKeys(ps);
    UpdatePairs([], ps);
    forall k | 0 <= k < |r|
      ensures r[k].0.PStr? && JsonLike(r[k].1)
    {
      assert r[k] in r;
    }
  }

  /** `jsanitize` produces JSON-like data. */
  lemma {:induction false} SanitizeJsonLike(v: PyVal)
    requires EnumsJsonLike(v)
    ensures JsonLike(Sanitize(v))
    decreases v
  {
    match v
    case PList(xs) =>
      forall k | 0 <= k < |xs| ensures JsonLike(Sanitize(xs[k])) { SanitizeJsonLike(xs[k]); }
    case PTuple(xs) =>
      forall k | 0 <= k < |xs| ensures JsonLike(Sanitize(xs[k])) { SanitizeJsonLike(xs[k]); }
    case PSet(xs) =>
      forall k | 0 <= k < |xs| ensures JsonLike(Sanitize(xs[k])) { SanitizeJsonLike(xs[k]); }
    case PDict(es) =>
      var ps := seq(|es|, k requires 0 <= k < |es| => (PStr(Str(es[k].0)), Sanitize(es[k].1)));
      forall k | 0 <= k < |es| ensures JsonLike(Sanitize(es[k].1)) { SanitizeJsonLike(es[k].1); }
      FromPairsJsonLike(ps);
    case PModel(_, fs) =>
      var ps := seq(|fs|, k requires 0 <= k < |fs| => (PStr(fs[k].0), Sanitize(fs[k].1)));
      forall k | 0 <= k < |fs| ensures JsonLike(Sanitize(fs[k].1)) { SanitizeJsonLike(fs[k].1); }
      FromPairsJsonLike(ps);
    case _ =>
  }

  /** `jsanitize` leaves JSON-like data exactly as it is. */
  lemma {:induction false} SanitizeKeepsJsonLike(v: PyVal)
    requires JsonLike(v)
    ensures Sanitize(v) == v
    decreases v
  {
    match v
    case PList(xs) =>
      forall k | 0 <= k < |xs| ensures Sanitize(xs[k]) == xs[k] { SanitizeKeepsJsonLike(xs[k]); }
      assert seq(|xs|, k requires 0 <= k < |xs| => Sanitize(xs[k])) == xs;
    case PDict(es) =>
      var ps := seq(|es|, k requires 0 <= k < |es| => (PStr(Str(es[k].0)), Sanitize(es[k].1)));
      forall k | 0 <= k < |es| ensures ps[k] == es[k] {
        SanitizeKeepsJsonLike(es[k].1);
      }
      assert ps == es;
      FromPairsDistinct(es);
    case _ =>
  }

  /** Sanitizing twice is sanitizing once. */
  lemma SanitizeIdempotent(v: PyVal)
    requires EnumsJsonLike(v)
    ensures Sanitize(Sanitize(v)) == Sanitize(v)
  {
    SanitizeJsonLike(v);
    SanitizeKeepsJsonLike(Sanitize(v));
  }
}
