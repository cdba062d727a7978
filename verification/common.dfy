/** Shared record types: `JFData`, the reference to a raw file and its JSON
    sidecar that every parsed output is stored as, and the `DOI`
    constrained string. */
module Common {
  import opened Results
  import opened Strings
  import opened PyDict
  import opened PyValues
  import opened Models

  // ------------------------------------------------------------------ JFData

  const JFDataSchema: Schema := [
    Field("description", Some(PStr(""))),
    Field("file_fmt", Some(PNone)),
    Field("file_id", Some(PNone)),
    Field("file_name", Some(PNone)),
    Field("json_id", Some(PNone)),
    Field("json_file_name", Some(PNone)),
    Field("json_data", Some(PNone)),
    Field("meta", Some(DictVal([])))
  ]

  /** `JFData()`: every field at its default. */
  function EmptyJFData(): (v: PyVal)
    ensures v.PModel? && Keys(v.fields) == Names(JFDataSchema)
  {
    Record(Construct(JFDataSchema, []).value)
  }

  /** The record `parse_output` makes for one output:
      `JFData(file_fmt='.gz', file_id=None, file_name=raw, json_id=None,
      json_file_name=sidecar, json_data={})`. */
  function StoredJFData(raw: string, sidecar: string): (v: PyVal)
    ensures v.PModel? && Keys(v.fields) == Names(JFDataSchema)
    ensures Get(v.fields, "file_name") == Some(PStr(raw))
    ensures Get(v.fields, "json_file_name") == Some(PStr(sidecar))
  {
    var args := [("file_fmt", PStr(".gz")), ("file_id", PNone), ("file_name", PStr(raw)),
                 ("json_id", PNone), ("json_file_name", PStr(sidecar)), ("json_data", DictVal([]))];
    GetFirst(args, "file_name", 2);
    GetFirst(args, "json_file_name", 4);
    var r := Construct(JFDataSchema, args).value;
    KeysLength(r);
    assert r[3] == ("file_name", PStr(raw));
    assert r[5] == ("json_file_name", PStr(sidecar));
    GetFirst(r, "file_name", 3);
    GetFirst(r, "json_file_name", 5);
    Record(r)
  }

  // --------------------------------------------------------------------- DOI

  predicate IsAsciiDigit(c: char) {
    '0' <= c <= '9'
  }

  /** The class `[-._;()/:a-zA-Z0-9]`. */
  predicate IsSuffixChar(c: char) {
    c in "-._;()/:" || ('a' <= c <= 'z') || ('A' <= c <= 'Z') || IsAsciiDigit(c)
  }

  /** Length of the run of digits `s` starts with. */
  function DigitRun(s: string): (k: nat)
    ensures k <= |s|
    ensures forall i :: 0 <= i < k ==> IsAsciiDigit(s[i])
    ensures k < |s| ==> !IsAsciiDigit(s[k])
    decreases |s|
  {
    if |s| > 0 && IsAsciiDigit(s[0]) then 1 + DigitRun(s[1..]) else 0
  }

  /** The text the anchored pattern has to cover: `$` also matches just
      before one final newline. */
  function Body(s: string): string {
    if |s| > 0 && s[|s| - 1] == '\n' then s[..|s| - 1] else s
  }

  /** `re.match(r"^10\.\d{4,9}/[-._;()/:a-zA-Z0-9]+$", s)`, decided by one
      left-to-right scan. */
  predicate DoiMatches(s: string): (r: bool)
    ensures r ==> 9 <= |s| && s[..3] == "10."
  {
    var t := Body(s);
    StartsWith(t, "10.") &&
    var rest := t[3..];
    var k := DigitRun(rest);
    4 <= k <= 9 && k + 1 < |rest| && rest[k] == '/' &&
    forall i :: k + 1 <= i < |rest| ==> IsSuffixChar(rest[i])
  }

  /** `s` is `10.`, the digits `d`, `/`, the suffix `x`, and `nl`. */
  predicate DoiParts(s: string, d: string, x: string, nl: string) {
    s == "10." + d + "/" + x + nl &&
    4 <= |d| <= 9 && (forall i :: 0 <= i < |d| ==> IsAsciiDigit(d[i])) &&
    |x| >= 1 && (forall i :: 0 <= i < |x| ==> IsSuffixChar(x[i])) &&
    (nl == "" || nl == "\n")
  }

  /** The language of the pattern, stated as its parts. */
  ghost predicate DoiShape(s: string) {
    exists d, x, nl :: DoiParts(s, d, x, nl)
  }

  /** The scan accepts exactly the strings of the pattern's language. */
  lemma DoiMatchesShape(s: string)
    ensures DoiMatches(s) <==> DoiShape(s)
  {
    if DoiMatches(s) {
      var t := Body(s);
      var rest := t[3..];
      var k := DigitRun(rest);
      var d := rest[..k];
      var x := rest[k + 1..];
      var nl := if |s| > 0 && s[|s| - 1] == '\n' then "\n" else "";
      assert t + nl == s;
      assert rest == d + "/" + x;
      assert t == "10." + rest;
      assert DoiParts(s, d, x, nl);
    }
    if DoiShape(s) {
      var d, x, nl :| DoiParts(s, d, x, nl);
      DoiPartsMatch(s, d, x, nl);
    }
  }

  lemma DoiPartsMatch(s: string, d: string, x: string, nl: string)
    requires DoiParts(s, d, x, nl)
    ensures DoiMatches(s)
  {
    var t := "10." + d + "/" + x;
    assert s == t + nl;
    assert IsSuffixChar(x[|x| - 1]);
    BodyDrop(t, nl);
    var rest := d + "/" + x;
    DoiRest(d, x);
    DigitRunPrefix(d, "/" + x);
    assert d + "/" + x == d + ("/" + x);
    SuffixAfterSlash(d, x);
  }

  /** `$` lets one final newline through, and only after a suffix
      character. */
  lemma BodyDrop(t: string, nl: string)
    requires |t| > 0 && t[|t| - 1] != '\n' && (nl == "" || nl == "\n")
    ensures Body(t + nl) == t
  {
    if nl == "" {
      assert t + nl == t;
    } else {
      assert (t + nl)[..|t + nl| - 1] == t;
    }
  }

  lemma DoiRest(d: string, x: string)
    ensures StartsWith("10." + d + "/" + x, "10.")
    ensures ("10." + d + "/" + x)[3..] == d + "/" + x
  {
    assert "10." + d + "/" + x == "10." + (d + "/" + x);
  }

  lemma SuffixAfterSlash(d: string, x: string)
    requires forall i :: 0 <= i < |x| ==> IsSuffixChar(x[i])
    ensures var rest := d + "/" + x;
      rest[|d|] == '/' && forall i :: |d| + 1 <= i < |rest| ==> IsSuffixChar(rest[i])
  {
    var rest := d + "/" + x;
    forall i | |d| + 1 <= i < |rest| ensures IsSuffixChar(rest[i]) {
      assert rest[i] == x[i - |d| - 1];
    }
  }

  lemma {:induction false} DigitRunPrefix(d: string, u: string)
    requires forall i :: 0 <= i < |d| ==> IsAsciiDigit(d[i])
    requires |u| > 0 && !IsAsciiDigit(u[0])
    ensures DigitRun(d + u) == |d|
    decreases |d|
  {
    if |d| == 0 {
      assert d + u == u;
    } else {
      assert (d + u)[1..] == d[1..] + u;
      DigitRunPrefix(d[1..], u);
    }
  }

  /** `DOI(value=s)`: the record when `s` matches the pattern, a validation
      error otherwise. */
  function MakeDoi(s: string): (r: Result<PyVal>)
    ensures r.Ok? <==> DoiMatches(s)
    ensures r.Ok? ==> r.value.PModel? && r.value.fields == [("value", PStr(s))]
    ensures r.Err? ==> r.error.ValueError?
  {
    if DoiMatches(s) then Ok(Record([("value", PStr(s))]))
    else Err(ValueError("string does not match regex"))
  }

  /** A well-formed DOI, with and without the one final newline `$`
      tolerates. */
  lemma DoiAccepts()
    ensures DoiMatches("10.1234/ab")
  {
    assert "10.1234/ab" == "10." + "1234" + "/" + "ab" + "";
    DoiPartsMatch("10.1234/ab", "1234", "ab", "");
  }

  lemma DoiAcceptsFinalNewline()
    ensures DoiMatches("10.1234/ab\n")
  {
    assert "10.1234/ab\n" == "10." + "1234" + "/" + "ab" + "\n";
    DoiPartsMatch("10.1234/ab\n", "1234", "ab", "\n");
  }

  /** The pattern is anchored: nothing may precede `10.`. */
  lemma DoiRejectsPrefix()
    ensures !DoiMatches("x10.1234/ab")
  {
  }

  /** The pattern is anchored: nothing but one newline may follow the
      suffix. */
  lemma DoiRejectsTrailingSpace()
    ensures !DoiMatches("10.1234/ab ")
  {
    var s := "10.1234/ab ";
    var rest := "1234/ab ";
    assert Body(s) == s;
    assert s[3..] == rest;
    assert rest == "1234" + "/ab ";
    DigitRunPrefix("1234", "/ab ");
    assert !IsSuffixChar(rest[7]);
  }

  /** Three digits are too few. */
  lemma DoiRejectsShortPrefix()
    ensures !DoiMatches("10.123/ab")
  {
    assert DigitRun("123/ab") == 3;
  }
}
