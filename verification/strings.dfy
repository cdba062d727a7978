/** The handful of Python `str` operations the modelled code relies on:
    case mapping, `strip`, `split`, `join`, `replace`, `in`, `%06d`
    formatting and code-point ordering. Only the ASCII repertoire is given
    its Python meaning for case mapping and whitespace. */
module Strings {

  predicate IsDigit(c: char) {
    '0' <= c <= '9'
  }

  /** ASCII characters for which Python's `str.isspace` holds. */
  predicate IsSpace(c: char) {
    c == ' ' || (9 <= c as int <= 13) || (28 <= c as int <= 31)
  }

  predicate NoSpace(s: string) {
    forall i :: 0 <= i < |s| ==> !IsSpace(s[i])
  }

  function LowerChar(c: char): char {
    if 'A' <= c <= 'Z' then (c as int + 32) as char else c
  }

  function UpperChar(c: char): char {
    if 'a' <= c <= 'z' then (c as int - 32) as char else c
  }

  /** `s.lower()` */
  function Lower(s: string): string {
    seq(|s|, i requires 0 <= i < |s| => LowerChar(s[i]))
  }

  /** `s.upper()` */
  function Upper(s: string): string {
    seq(|s|, i requires 0 <= i < |s| => UpperChar(s[i]))
  }

  predicate StartsWith(s: string, p: string) {
    |p| <= |s| && s[..|p|] == p
  }

  lemma StartsWithConcat(a: string, b: string)
    ensures StartsWith(a + b, a)
  {
    assert (a + b)[..|a|] == a;
  }

  predicate EndsWith(s: string, p: string) {
    |p| <= |s| && s[|s| - |p|..] == p
  }

  /** `sub in s` */
  predicate Contains(s: string, sub: string)
    decreases |s|
  {
    StartsWith(s, sub) || (|s| > 0 && Contains(s[1..], sub))
  }

  /** A string without the first character of a non-empty text does not
      hold the text. */
  lemma {:induction false} NotContains(s: string, sub: string)
    requires |sub| > 0 && sub[0] !in s
    ensures !Contains(s, sub)
    decreases |s|
  {
    if |s| > 0 {
      assert s[0] != sub[0];
      NotContains(s[1..], sub);
    }
  }

  /** `s[-n:]`: the last `n` characters, or all of `s` when it is shorter. */
  function Tail(s: string, n: nat): (r: string)
    ensures |r| == if |s| < n then |s| else n
    ensures EndsWith(s, r)
  {
    if |s| <= n then s else s[|s| - n..]
  }

  /** `s[:n]` */
  function Head(s: string, n: nat): string {
    if |s| <= n then s else s[..n]
  }

  /** `s[n:]` */
  function Drop(s: string, n: nat): string {
    if |s| <= n then "" else s[n..]
  }

  function LStrip(s: string): (r: string)
    decreases |s|
  {
    if |s| > 0 && IsSpace(s[0]) then LStrip(s[1..]) else s
  }

  function RStrip(s: string): (r: string)
    decreases |s|
  {
    if |s| > 0 && IsSpace(s[|s| - 1]) then RStrip(s[..|s| - 1]) else s
  }

  /** `s.rstrip(c)`: the longest prefix of `s` not ending in `c`, all of
      whose removed characters are `c`. */
  function RStripChar(s: string, c: char): (r: string)
    ensures r <= s
    ensures |r| == 0 || r[|r| - 1] != c
    ensures forall i :: |r| <= i < |s| ==> s[i] == c
    decreases |s|
  {
    if |s| > 0 && s[|s| - 1] == c then RStripChar(s[..|s| - 1], c) else s
  }

  /** `s.strip()` */
  function Strip(s: string): string {
    RStrip(LStrip(s))
  }

  /** The words of `s` after a partial word `cur`, as `str.split()` with no
      argument finds them: maximal runs of non-space characters. */
  function Words(s: string, cur: string): (r: seq<string>)
    requires NoSpace(cur)
    ensures forall k :: 0 <= k < |r| ==> |r[k]| > 0 && NoSpace(r[k])
    decreases |s|
  {
    if |s| == 0 then
      (if cur == "" then [] else [cur])
    else if IsSpace(s[0]) then
      (if cur == "" then [] else [cur]) + Words(s[1..], "")
    else
      Words(s[1..], cur + [s[0]])
  }

  /** `s.split()` */
  function SplitWs(s: string): seq<string> {
    Words(s, "")
  }

  /** `s.split(c)` for a one-character separator: always at least one part. */
  function SplitOn(s: string, c: char): (r: seq<string>)
    ensures |r| >= 1
    ensures forall k :: 0 <= k < |r| ==> c !in r[k]
    decreases |s|
  {
    if |s| == 0 then [""]
    else if s[0] == c then [""] + SplitOn(s[1..], c)
    else
      var rest := SplitOn(s[1..], c);
      [[s[0]] + rest[0]] + rest[1..]
  }

  /** `sep.join(parts)` */
  function JoinWith(sep: string, parts: seq<string>): string
    decreases |parts|
  {
    if |parts| == 0 then ""
    else if |parts| == 1 then parts[0]
    else parts[0] + sep + JoinWith(sep, parts[1..])
  }

  /** Splitting on `c` and joining the parts back with `c` gives the string back. */
  lemma {:induction false} SplitJoinRoundTrip(s: string, c: char)
    ensures JoinWith([c], SplitOn(s, c)) == s
    decreases |s|
  {
    if |s| > 0 {
      var rest := SplitOn(s[1..], c);
      SplitJoinRoundTrip(s[1..], c);
      if s[0] == c {
        JoinCons(c, "", rest);
      } else {
        JoinPrepend(c, s[0], rest[0], rest[1..]);
        assert [rest[0]] + rest[1..] == rest;
      }
      assert [s[0]] + s[1..] == s;
    }
  }

  /** Joining an empty first part puts the separator first. */
  lemma JoinCons(c: char, p: string, rest: seq<string>)
    requires |rest| >= 1
    ensures JoinWith([c], [p] + rest) == p + [c] + JoinWith([c], rest)
  {
    assert ([p] + rest)[1..] == rest;
  }

  /** A character put in front of the first part is put in front of the
      joined text. */
  lemma JoinPrepend(c: char, x: char, p: string, rest: seq<string>)
    ensures JoinWith([c], [[x] + p] + rest) == [x] + JoinWith([c], [p] + rest)
  {
    if |rest| > 0 {
      JoinCons(c, [x] + p, rest);
      JoinCons(c, p, rest);
    }
  }

  /** A text without the separator splits into itself alone. */
  lemma {:induction false} SplitOnNone(s: string, c: char)
    requires c !in s
    ensures SplitOn(s, c) == [s]
    decreases |s|
  {
    if |s| > 0 {
      assert c !in s[1..];
      SplitOnNone(s[1..], c);
      assert [s[0]] + s[1..] == s;
    }
  }

  /** A separator-free first part followed by the separator splits off as
      the first part. */
  lemma {:induction false} SplitOnFirst(w: string, c: char, t: string)
    requires c !in w
    ensures SplitOn(w + [c] + t, c) == [w] + SplitOn(t, c)
    decreases |w|
  {
    if |w| == 0 {
      assert w + [c] + t == [c] + t;
      assert ([c] + t)[1..] == t;
    } else {
      var s := w + [c] + t;
      assert s[0] == w[0] && s[1..] == w[1..] + [c] + t;
      assert c !in w[1..];
      SplitOnFirst(w[1..], c, t);
      assert [w[0]] + w[1..] == w;
    }
  }

  /** Joining separator-free parts with `c` and splitting on `c` gives the
      parts back: the other half of the round trip. */
  lemma {:induction false} JoinSplitRoundTrip(parts: seq<string>, c: char)
    requires |parts| >= 1
    requires forall k :: 0 <= k < |parts| ==> c !in parts[k]
    ensures SplitOn(JoinWith([c], parts), c) == parts
    decreases |parts|
  {
    if |parts| == 1 {
      SplitOnNone(parts[0], c);
    } else {
      JoinSplitRoundTrip(parts[1..], c);
      SplitOnFirst(parts[0], c, JoinWith([c], parts[1..]));
      assert [parts[0]] + parts[1..] == parts;
    }
  }

  /** `s.split(c)` has a second part exactly when `c` occurs in `s`. */
  lemma SplitOnSecond(s: string, c: char)
    ensures |SplitOn(s, c)| >= 2 <==> c in s
  {
    var parts := SplitOn(s, c);
    SplitJoinRoundTrip(s, c);
    if |parts| == 1 {
      assert s == parts[0];
    } else {
      assert s == parts[0] + [c] + JoinWith([c], parts[1..]);
      assert s[|parts[0]|] == c;
    }
  }

  /** The first two parts of `s.split(c)`, with `c` between them, begin `s`. */
  lemma SplitOnStarts(s: string, c: char)
    requires |SplitOn(s, c)| >= 2
    ensures var parts := SplitOn(s, c); StartsWith(s, parts[0] + [c] + parts[1])
  {
    var parts := SplitOn(s, c);
    SplitJoinRoundTrip(s, c);
    var rest := JoinWith([c], parts[2..]);
    if |parts| == 2 {
      assert s == parts[0] + [c] + parts[1];
    } else {
      assert parts[1..][1..] == parts[2..];
      assert s == (parts[0] + [c] + parts[1]) + ([c] + rest);
    }
    StartsWithConcat(parts[0] + [c] + parts[1], s[|parts[0] + [c] + parts[1]|..]);
    assert s == (parts[0] + [c] + parts[1]) + s[|parts[0] + [c] + parts[1]|..];
  }

  /** `s` is its first two parts of `s.split(c)` joined by `c`, or begins
      with them followed by another `c`. */
  lemma SplitOnFirstTwo(s: string, c: char)
    requires |SplitOn(s, c)| >= 2
    ensures var parts := SplitOn(s, c);
      s == parts[0] + [c] + parts[1] || StartsWith(s, parts[0] + [c] + parts[1] + [c])
  {
    var parts := SplitOn(s, c);
    SplitJoinRoundTrip(s, c);
    if |parts| == 2 {
      assert s == parts[0] + [c] + parts[1];
    } else {
      var rest := JoinWith([c], parts[2..]);
      assert parts[1..][1..] == parts[2..];
      assert s == (parts[0] + [c] + parts[1] + [c]) + rest;
      StartsWithConcat(parts[0] + [c] + parts[1] + [c], rest);
    }
  }

  /** A word: what `str.split()` returns, non-empty and without whitespace. */
  predicate IsWord(w: string) {
    |w| > 0 && NoSpace(w)
  }

  /** Reading a run of non-space characters extends the partial word. */
  lemma {:induction false} WordsRun(w: string, s: string, cur: string)
    requires NoSpace(w) && NoSpace(cur)
    ensures NoSpace(cur + w)
    ensures Words(w + s, cur) == Words(s, cur + w)
    decreases |w|
  {
    if |w| > 0 {
      assert (w + s)[0] == w[0] && (w + s)[1..] == w[1..] + s;
      assert !IsSpace(w[0]);
      assert NoSpace(w[1..]);
      WordsRun(w[1..], s, cur + [w[0]]);
      assert cur + [w[0]] + w[1..] == cur + w;
    } else {
      assert w + s == s && cur + w == cur;
    }
  }

  /** Joining words with single spaces and splitting on whitespace gives the
      words back. */
  lemma {:induction false} SplitWsJoin(ws: seq<string>)
    requires forall k :: 0 <= k < |ws| ==> IsWord(ws[k])
    ensures SplitWs(JoinWith(" ", ws)) == ws
    decreases |ws|
  {
    if |ws| == 1 {
      WordsRun(ws[0], "", "");
      assert ws[0] + "" == ws[0] && "" + ws[0] == ws[0];
    } else if |ws| > 1 {
      var rest := JoinWith(" ", ws[1..]);
      assert JoinWith(" ", ws) == ws[0] + (" " + rest);
      WordsRun(ws[0], " " + rest, "");
      assert "" + ws[0] == ws[0];
      assert (" " + rest)[1..] == rest;
      assert Words(" " + rest, ws[0]) == [ws[0]] + Words(rest, "");
      SplitWsJoin(ws[1..]);
      assert [ws[0]] + ws[1..] == ws;
    }
  }

  /** `s.replace(old, new)`: non-overlapping occurrences, scanned left to right. */
  function ReplaceAll(s: string, pat: string, rep: string): string
    requires |pat| > 0
    decreases |s|
  {
    if |s| < |pat| then s
    else if s[..|pat|] == pat then rep + ReplaceAll(s[|pat|..], pat, rep)
    else [s[0]] + ReplaceAll(s[1..], pat, rep)
  }

  /** `s.replace(pat, rep)`, including Python's reading of an empty `pat`:
      `rep` is inserted before every character and at the end. */
  function Replace(s: string, pat: string, rep: string): string
    decreases |s|
  {
    if |pat| > 0 then ReplaceAll(s, pat, rep)
    else if |s| == 0 then rep
    else rep + [s[0]] + Replace(s[1..], pat, rep)
  }

  /** Replacing the empty string by the empty string changes nothing. */
  lemma {:induction false} ReplaceEmptyByEmpty(s: string)
    ensures Replace(s, "", "") == s
    decreases |s|
  {
    if |s| > 0 {
      ReplaceEmptyByEmpty(s[1..]);
      assert [s[0]] + s[1..] == s;
    }
  }

  /** An occurrence at the front is replaced and scanning resumes after it. */
  lemma ReplaceAllLeading(pat: string, t: string, rep: string)
    requires |pat| > 0
    ensures ReplaceAll(pat + t, pat, rep) == rep + ReplaceAll(t, pat, rep)
  {
    assert (pat + t)[..|pat|] == pat;
    assert (pat + t)[|pat|..] == t;
  }

  /** A string lacking some character of `pat` holds no occurrence of it, so
      `replace` leaves it alone. */
  lemma {:induction false} ReplaceAllAbsent(s: string, pat: string, rep: string, c: char)
    requires |pat| > 0 && c in pat && c !in s
    ensures ReplaceAll(s, pat, rep) == s
    decreases |s|
  {
    if |s| < |pat| {
    } else {
      assert s[..|pat|] != pat;
      assert c !in s[1..];
      ReplaceAllAbsent(s[1..], pat, rep, c);
      assert [s[0]] + s[1..] == s;
    }
  }

  /** A prefix in which no occurrence of `pat` starts is kept as it is. */
  lemma {:induction false} ReplaceAllKeepsPrefix(a: string, t: string, pat: string, rep: string)
    requires |pat| > 0
    requires forall i :: 0 <= i < |a| ==> !StartsWith((a + t)[i..], pat)
    ensures ReplaceAll(a + t, pat, rep) == a + ReplaceAll(t, pat, rep)
    decreases |a|
  {
    if |a| == 0 {
      assert a + t == t;
    } else {
      var a' := a[1..];
      NoMatchRest(a, t, pat);
      ReplaceAllKeepsPrefix(a', t, pat, rep);
      ReplaceAllSkip(a + t, pat, rep);
      assert (a + t)[1..] == a' + t;
      assert a == [a[0]] + a';
    }
  }

  lemma NoMatchRest(a: string, t: string, pat: string)
    requires |a| > 0
    requires forall i :: 0 <= i < |a| ==> !StartsWith((a + t)[i..], pat)
    ensures forall i :: 0 <= i < |a[1..]| ==> !StartsWith((a[1..] + t)[i..], pat)
    ensures !StartsWith(a + t, pat)
  {
    var s := a + t;
    assert s[0..] == s;
    forall i | 0 <= i < |a[1..]|
      ensures !StartsWith((a[1..] + t)[i..], pat)
    {
      assert (a[1..] + t)[i..] == s[i + 1..];
    }
  }

  /** Where no occurrence starts, the first character is kept. */
  lemma ReplaceAllSkip(s: string, pat: string, rep: string)
    requires |pat| > 0 && |s| > 0 && !StartsWith(s, pat)
    ensures ReplaceAll(s, pat, rep) == [s[0]] + ReplaceAll(s[1..], pat, rep)
  {
    if |s| < |pat| {
      assert ReplaceAll(s[1..], pat, rep) == s[1..];
      assert s == [s[0]] + s[1..];
    }
  }

  // ---------------------------------------------------------------- decimals

  function DigitChar(d: nat): char
    requires d < 10
  {
    ('0' as int + d) as char
  }

  function DigitValue(c: char): nat {
    if IsDigit(c) then c as int - '0' as int else 0
  }

  /** `str(n)` for a natural number. */
  function Dec(n: nat): (r: string)
    ensures |r| >= 1
    ensures forall k :: 0 <= k < |r| ==> IsDigit(r[k])
    decreases n
  {
    if n < 10 then [DigitChar(n)] else Dec(n / 10) + [DigitChar(n % 10)]
  }

  /** `str(i)` for any integer. */
  function IntText(i: int): string {
    if i < 0 then "-" + Dec(-i) else Dec(i)
  }

  function Zeros(k: nat): (r: string)
    ensures |r| == k
    ensures forall j :: 0 <= j < k ==> r[j] == '0'
  {
    if k == 0 then "" else "0" + Zeros(k - 1)
  }

  /** `"%06d" % n`: zero-padded to at least six digits. */
  function Pad6(n: nat): (r: string)
    ensures |r| >= 6
    ensures forall k :: 0 <= k < |r| ==> IsDigit(r[k])
  {
    var d := Dec(n);
    if |d| < 6 then Zeros(6 - |d|) + d else d
  }

  /** The number a string of decimal digits denotes. */
  function DecValue(s: string): nat
    decreases |s|
  {
    if |s| == 0 then 0 else DecValue(s[..|s| - 1]) * 10 + DigitValue(s[|s| - 1])
  }

  lemma {:induction false} DecValueOfDec(n: nat)
    ensures DecValue(Dec(n)) == n
    decreases n
  {
    if n >= 10 {
      DecValueOfDec(n / 10);
      var d := Dec(n / 10) + [DigitChar(n % 10)];
      assert d[..|d| - 1] == Dec(n / 10);
    }
  }

  lemma {:induction false} DecValueLeadingZeros(k: nat, s: string)
    ensures DecValue(Zeros(k) + s) == DecValue(s)
    decreases |s|
  {
    if |s| == 0 {
      assert Zeros(k) + s == Zeros(k);
      ZerosValue(k);
    } else {
      var t := Zeros(k) + s;
      assert t[..|t| - 1] == Zeros(k) + s[..|s| - 1];
      DecValueLeadingZeros(k, s[..|s| - 1]);
    }
  }

  lemma {:induction false} ZerosValue(k: nat)
    ensures DecValue(Zeros(k)) == 0
    decreases k
  {
    if k > 0 {
      var z := Zeros(k);
      assert z[..|z| - 1] == Zeros(k - 1);
      ZerosValue(k - 1);
    }
  }

  /** Reading a `%06d` rendering back gives the number: the rendering is
      injective. */
  lemma Pad6RoundTrip(n: nat)
    ensures DecValue(Pad6(n)) == n
  {
    DecValueOfDec(n);
    var d := Dec(n);
    if |d| < 6 {
      DecValueLeadingZeros(6 - |d|, d);
    }
  }

  lemma Pad6Injective(a: nat, b: nat)
    requires Pad6(a) == Pad6(b)
    ensures a == b
  {
    Pad6RoundTrip(a);
    Pad6RoundTrip(b);
  }

  // ------------------------------------------------------ code-point order

  /** Python's `a < b` on `str`: lexicographic by code point. */
  predicate LexLess(a: string, b: string)
    decreases |a|
  {
    if |a| == 0 then |b| > 0
    else if |b| == 0 then false
    else if a[0] != b[0] then a[0] < b[0]
    else LexLess(a[1..], b[1..])
  }

  lemma {:induction false} LexIrreflexive(a: string)
    ensures !LexLess(a, a)
    decreases |a|
  {
    if |a| > 0 {
      LexIrreflexive(a[1..]);
    }
  }

  lemma {:induction false} LexTransitive(a: string, b: string, c: string)
    requires LexLess(a, b) && LexLess(b, c)
    ensures LexLess(a, c)
    decreases |a|
  {
    if |a| > 0 && a[0] == b[0] && b[0] == c[0] {
      LexTransitive(a[1..], b[1..], c[1..]);
    }
  }

  lemma {:induction false} LexTotal(a: string, b: string)
    requires a != b
    ensures LexLess(a, b) || LexLess(b, a)
    decreases |a|
  {
    if |a| > 0 && |b| > 0 && a[0] == b[0] {
      assert a == [a[0]] + a[1..] && b == [b[0]] + b[1..];
      LexTotal(a[1..], b[1..]);
    }
  }

  lemma LexAsymmetric(a: string, b: string)
    requires LexLess(a, b)
    ensures !LexLess(b, a)
  {
    if LexLess(b, a) {
      LexTransitive(a, b, a);
      LexIrreflexive(a);
    }
  }

  /** A string ending in `/` followed by a name without `/` has that name as
      its base name. */
  lemma {:induction false} BasenameAppend(x: string, n: string)
    requires '/' !in n
    requires |x| == 0 || x[|x| - 1] == '/'
    ensures Basename(x + n) == n
    decreases |n|
  {
    if |n| == 0 {
      assert x + n == x;
    } else {
      var n' := n[..|n| - 1];
      var c := n[|n| - 1];
      assert n == n' + [c];
      assert '/' !in n';
      assert c != '/';
      var s := x + n;
      assert s == (x + n') + [c];
      assert s[..|s| - 1] == x + n';
      BasenameAppend(x, n');
    }
  }

  /** `os.path.basename(p)`: the part after the last `/`. */
  function Basename(p: string): (r: string)
    ensures '/' !in r
    ensures EndsWith(p, r)
    decreases |p|
  {
    if |p| == 0 then ""
    else if p[|p| - 1] == '/' then ""
    else
      var q := p[..|p| - 1];
      var b := Basename(q);
      assert q[|q| - |b|..] == b;
      assert p[|p| - 1 - |b|..] == q[|q| - |b|..] + [p[|p| - 1]];
      b + [p[|p| - 1]]
  }
}
