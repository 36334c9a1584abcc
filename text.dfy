/** The Python `str` operations the modelled code relies on, over `seq<char>`:
    `strip`, `lower`, `startswith`, `in`, `split`, `join`, `str(n)` and `int(s)`. */
module Text {
  import opened Wrappers

  /** The characters for which Python's `str.isspace()` holds; `strip()` and
      `split()` without arguments drop exactly these. */
  const Whitespace: set<char> := {
    ' ', '\t', '\n', '\r', '\U{0B}', '\U{0C}', '\U{1C}', '\U{1D}', '\U{1E}', '\U{1F}',
    '\U{85}', '\U{A0}', '\U{1680}', '\U{2000}', '\U{2001}', '\U{2002}', '\U{2003}',
    '\U{2004}', '\U{2005}', '\U{2006}', '\U{2007}', '\U{2008}', '\U{2009}', '\U{200A}',
    '\U{2028}', '\U{2029}', '\U{202F}', '\U{205F}', '\U{3000}'
  }

  /** Number of leading characters of `s` that are in `cs`. */
  function Lead(s: string, cs: set<char>): (n: nat)
    ensures n <= |s|
    ensures forall i :: 0 <= i < n ==> s[i] in cs
    ensures n < |s| ==> s[n] !in cs
  {
    if s == [] || s[0] !in cs then 0 else 1 + Lead(s[1..], cs)
  }

  /** Number of leading characters of `s` that are NOT in `cs`. */
  function LeadOutside(s: string, cs: set<char>): (n: nat)
    ensures n <= |s|
    ensures forall i :: 0 <= i < n ==> s[i] !in cs
    ensures n < |s| ==> s[n] in cs
  {
    if s == [] || s[0] in cs then 0 else 1 + LeadOutside(s[1..], cs)
  }

  /** Number of trailing characters of `s` that are in `cs`. */
  function Trail(s: string, cs: set<char>): (n: nat)
    ensures n <= |s|
    ensures forall i :: |s| - n <= i < |s| ==> s[i] in cs
    ensures n < |s| ==> s[|s| - 1 - n] !in cs
  {
    if s == [] || s[|s| - 1] !in cs then 0 else 1 + Trail(s[..|s| - 1], cs)
  }

  /** `r` is `s[i..j]`, and everything outside `i..j` is in `cs`. */
  predicate TrimmedAt(r: string, s: string, cs: set<char>, i: int, j: int) {
    && 0 <= i <= j <= |s| && r == s[i..j]
    && (forall k :: 0 <= k < i ==> s[k] in cs)
    && (forall k :: j <= k < |s| ==> s[k] in cs)
  }

  /** `r` is `s` with some characters of `cs` removed from its two ends and
      nothing else changed. */
  ghost predicate TrimmedOf(r: string, s: string, cs: set<char>) {
    exists i, j :: TrimmedAt(r, s, cs, i, j)
  }

  lemma {:induction false} TrimmedAtTrans(s: string, a: string, b: string, cs: set<char>, ds: set<char>,
                                          i1: int, j1: int, i2: int, j2: int)
    requires TrimmedAt(a, s, cs, i1, j1) && TrimmedAt(b, a, ds, i2, j2)
    ensures TrimmedAt(b, s, cs + ds, i1 + i2, i1 + j2)
  {
    assert b == s[i1 + i2 .. i1 + j2] by {
      forall k | 0 <= k < j2 - i2
        ensures b[k] == s[i1 + i2 + k]
      {
        assert b[k] == a[i2 + k];
      }
    }
    forall k | 0 <= k < i1 + i2
      ensures s[k] in cs + ds
    {
      if k >= i1 {
        assert s[k] == a[k - i1];
      }
    }
    forall k | i1 + j2 <= k < |s|
      ensures s[k] in cs + ds
    {
      if k < j1 {
        assert s[k] == a[k - i1];
      }
    }
  }

  /** Trimming twice is trimming once by both sets. */
  lemma TrimmedOfTrans(s: string, a: string, b: string, cs: set<char>, ds: set<char>)
    requires TrimmedOf(a, s, cs) && TrimmedOf(b, a, ds)
    ensures TrimmedOf(b, s, cs + ds)
  {
    var i1, j1 :| TrimmedAt(a, s, cs, i1, j1);
    var i2, j2 :| TrimmedAt(b, a, ds, i2, j2);
    TrimmedAtTrans(s, a, b, cs, ds, i1, j1, i2, j2);
  }

  /** Python's `s.strip(chars)`: drop every leading and trailing character in `cs`. */
  function StripChars(s: string, cs: set<char>): (r: string)
    ensures |r| <= |s|
    ensures TrimmedOf(r, s, cs)
    ensures r != [] ==> r[0] !in cs && r[|r| - 1] !in cs
    ensures r == [] <==> forall i :: 0 <= i < |s| ==> s[i] in cs
    ensures s != [] && s[0] !in cs && s[|s| - 1] !in cs ==> r == s
  {
    var a := Lead(s, cs);
    if a == |s| then
      assert TrimmedAt([], s, cs, |s|, |s|);
      []
    else
      var r := s[a .. |s| - Trail(s, cs)];
      assert TrimmedAt(r, s, cs, a, |s| - Trail(s, cs));
      r
  }

  /** Python's `s.strip()`. */
  function Strip(s: string): string {
    StripChars(s, Whitespace)
  }

  predicate IsBlank(s: string) {
    forall i :: 0 <= i < |s| ==> s[i] in Whitespace
  }

  function LowerChar(c: char): char {
    if 'A' <= c <= 'Z' then (c as int - 'A' as int + 'a' as int) as char else c
  }

  /** Python's `s.lower()`, restricted to the ASCII letters. */
  function Lower(s: string): (r: string)
    ensures |r| == |s|
    ensures forall i :: 0 <= i < |s| ==> r[i] == LowerChar(s[i])
  {
    if s == [] then [] else [LowerChar(s[0])] + Lower(s[1..])
  }

  predicate StartsWith(s: string, prefix: string) {
    |prefix| <= |s| && s[..|prefix|] == prefix
  }

  /** Python's `sub in s` for two strings. */
  predicate Contains(s: string, sub: string)
    decreases |s|
  {
    StartsWith(s, sub) || (s != [] && Contains(s[1..], sub))
  }

  /** Index of the first occurrence of `c` in `s`. */
  function IndexOf(s: string, c: char): (r: Option<nat>)
    ensures r.None? <==> c !in s
    ensures r.Some? ==> r.value < |s| && s[r.value] == c && c !in s[..r.value]
  {
    if s == [] then None
    else if s[0] == c then Some(0)
    else match IndexOf(s[1..], c)
      case None => None
      case Some(k) =>
        assert s[1..][..k] == s[1..k + 1];
        Some(k + 1)
  }

  /** Python's `s.split()` without arguments: the maximal runs of non-whitespace. */
  function Words(s: string): (ws: seq<string>)
    ensures forall k :: 0 <= k < |ws| ==> ws[k] != [] && forall i :: 0 <= i < |ws[k]| ==> ws[k][i] !in Whitespace
    ensures IsBlank(s) <==> ws == []
    decreases |s|
  {
    var a := Lead(s, Whitespace);
    if a == |s| then []
    else
      var t := s[a..];
      assert t[0] == s[a] && t[0] !in Whitespace;
      var n := LeadOutside(t, Whitespace);
      assert 1 <= n <= |t| && !IsBlank(s);
      [t[..n]] + Words(t[n..])
  }

  /** Python's `sep.join(parts)`. */
  function Join(parts: seq<string>, sep: string): string {
    if parts == [] then []
    else if |parts| == 1 then parts[0]
    else parts[0] + sep + Join(parts[1..], sep)
  }

  /** Joining two non-empty lists is joining each and putting one
      separator between them. */
  lemma {:induction false} JoinAppend(a: seq<string>, b: seq<string>, sep: string)
    requires a != [] && b != []
    ensures Join(a + b, sep) == Join(a, sep) + sep + Join(b, sep)
  {
    assert (a + b)[0] == a[0];
    if |a| == 1 {
      assert (a + b)[1..] == b;
    } else {
      assert (a + b)[1..] == a[1..] + b;
      JoinAppend(a[1..], b, sep);
    }
  }

  predicate IsDigit(c: char) {
    '0' <= c <= '9'
  }

  function DigitChar(d: nat): (c: char)
    requires d < 10
    ensures IsDigit(c)
  {
    ('0' as int + d) as char
  }

  /** Python's `str(n)` for a non-negative integer. */
  function Decimal(n: nat): (r: string)
    ensures r != [] && forall i :: 0 <= i < |r| ==> IsDigit(r[i])
  {
    if n < 10 then [DigitChar(n)] else Decimal(n / 10) + [DigitChar(n % 10)]
  }

  /** The value of a run of digits, ignoring `_` separators. */
  function DigitsValue(s: string): nat {
    if s == [] then 0
    else if IsDigit(s[|s| - 1]) then DigitsValue(s[..|s| - 1]) * 10 + (s[|s| - 1] as int - '0' as int)
    else DigitsValue(s[..|s| - 1])
  }

  /** The digit part accepted by Python's `int(s)`: digits, with single
      underscores allowed between two digits. */
  predicate WellFormedDigits(b: string) {
    && b != []
    && IsDigit(b[0])
    && IsDigit(b[|b| - 1])
    && forall i :: 0 <= i < |b| ==> DigitOrSeparator(b, i)
  }

  /** Position `i` holds a digit, or a `_` followed by a digit. */
  predicate DigitOrSeparator(b: string, i: nat)
    requires i < |b|
  {
    IsDigit(b[i]) || (b[i] == '_' && i + 1 < |b| && IsDigit(b[i + 1]))
  }

  /** A digit ending what `strip()` leaves is a digit of the input. */
  lemma StrippedDigitInside(s: string)
    requires Strip(s) != [] && IsDigit(Strip(s)[|Strip(s)| - 1])
    ensures exists i :: 0 <= i < |s| && IsDigit(s[i])
  {
    var t := Strip(s);
    if t != [] {
      var i, j :| TrimmedAt(t, s, Whitespace, i, j);
      assert IsDigit(s[j - 1]);
    }
  }

  /** Python's `int(s)` for a decimal string (ASCII digits): surrounding
      whitespace, an optional sign, digits with `_` separators; `None` where
      Python raises `ValueError`. */
  function ParseInt(s: string): (r: Option<int>)
    ensures r.Some? ==> exists i :: 0 <= i < |s| && IsDigit(s[i])
  {
    var t := Strip(s);
    var r := SignedDigits(t);
    if r.Some? then StrippedDigitInside(s); r else r
  }

  /** `int()` on text that has already been stripped. */
  function SignedDigits(t: string): (r: Option<int>)
    ensures r.Some? ==> t != [] && IsDigit(t[|t| - 1])
  {
    if t == [] then None
    else
      var body := if t[0] == '-' || t[0] == '+' then t[1..] else t;
      if !WellFormedDigits(body) then None
      else
        assert body[|body| - 1] == t[|t| - 1];
        var v: int := DigitsValue(body);
        Some(if t[0] == '-' then -v else v)
  }


  /** What `int(s)` returns, case by case on the stripped text: nothing for
      blank text; the digits' value for unsigned or `+`-signed digits; its
      negation after `-`; nothing for anything else. */
  lemma ParseIntValue(s: string, t: string)
    requires t == Strip(s)
    ensures t == [] ==> ParseInt(s) == None
    ensures WellFormedDigits(t) ==> ParseInt(s) == Some(DigitsValue(t))
    ensures t != [] && t[0] == '+' ==> ParseInt(s) == if WellFormedDigits(t[1..]) then Some(DigitsValue(t[1..])) else None
    ensures t != [] && t[0] == '-' ==> ParseInt(s) == if WellFormedDigits(t[1..]) then Some(-(DigitsValue(t[1..]) as int)) else None
    ensures t != [] && t[0] != '+' && t[0] != '-' && !WellFormedDigits(t) ==> ParseInt(s) == None
  {
    assert ParseInt(s) == SignedDigits(t);
    SignedDigitsCases(t);
  }

  lemma SignedDigitsCases(t: string)
    ensures t == [] ==> SignedDigits(t) == None
    ensures WellFormedDigits(t) ==> SignedDigits(t) == Some(DigitsValue(t))
    ensures t != [] && t[0] == '+' ==> SignedDigits(t) == if WellFormedDigits(t[1..]) then Some(DigitsValue(t[1..])) else None
    ensures t != [] && t[0] == '-' ==> SignedDigits(t) == if WellFormedDigits(t[1..]) then Some(-(DigitsValue(t[1..]) as int)) else None
    ensures t != [] && t[0] != '+' && t[0] != '-' && !WellFormedDigits(t) ==> SignedDigits(t) == None
  {
    if t != [] && (t[0] == '-' || t[0] == '+') {
      assert !IsDigit(t[0]);
    }
  }

  lemma {:induction false} DecimalValue(n: nat)
    ensures DigitsValue(Decimal(n)) == n
  {
    if n >= 10 {
      var d := Decimal(n / 10) + [DigitChar(n % 10)];
      assert d[..|d| - 1] == Decimal(n / 10);
      DecimalValue(n / 10);
    }
  }

  /** Text that starts with a non-space and ends with a digit is left alone by `strip()`. */
  lemma StripKeepsDigitEnd(s: string)
    requires s != [] && s[0] !in Whitespace && IsDigit(s[|s| - 1])
    ensures Strip(s) == s
  {
    assert s[|s| - 1] !in Whitespace;
  }

  lemma DecimalWellFormed(n: nat)
    ensures WellFormedDigits(Decimal(n))
  {
    var d := Decimal(n);
    assert IsDigit(d[0]) && IsDigit(d[|d| - 1]);
  }

  /** A minus sign before well-formed digits parses to the negated value. */
  lemma ParseNegated(d: string, v: int)
    requires WellFormedDigits(d) && DigitsValue(d) == v
    ensures ParseInt("-" + d) == Some(-v)
  {
    StripKeepsSignedDigits(d);
    SignedNegative(d, v);
  }

  lemma StripKeepsSignedDigits(d: string)
    requires WellFormedDigits(d)
    ensures Strip("-" + d) == "-" + d
  {
    var r := "-" + d;
    assert r[0] == '-' && r[|r| - 1] == d[|d| - 1];
    MinusIsNotSpace();
    StripKeepsDigitEnd(r);
  }

  lemma SignedNegative(d: string, v: int)
    requires WellFormedDigits(d) && DigitsValue(d) == v
    ensures SignedDigits("-" + d) == Some(-v)
  {
    var r := "-" + d;
    assert r[0] == '-' && r[1..] == d;
  }


  lemma MinusIsNotSpace()
    ensures '-' !in Whitespace
  {
  }

  /** `int("-" + str(n)) == -n`: a minus sign before a decimal rendering negates it. */
  lemma ParseNegativeDecimal(n: nat)
    ensures ParseInt("-" + Decimal(n)) == Some(-(n as int))
  {
    DecimalWellFormed(n);
    DecimalValue(n);
    ParseNegated(Decimal(n), n);
  }



  /** `int(str(n)) == n`: the decimal rendering of a natural number parses back to it. */
  lemma ParseDecimal(n: nat)
    ensures ParseInt(Decimal(n)) == Some(n)
  {
    var r := Decimal(n);
    assert r[0] != '-' && r[0] != '+' && !(r[0] in Whitespace);
    assert StripChars(r, Whitespace) == r;
    DecimalValue(n);
  }
}
