/** String helpers with Python's meaning: `str.isspace`, `str.strip`, `str(int)`,
    parsing a run of ASCII digits, and the ordering `sorted` uses on names. */
module Text {

  /** Python's `str.isspace`: the characters `str.strip()` removes. */
  const Whitespace: set<char> := {
    '\t', '\n', '\U{000B}', '\U{000C}', '\r',
    '\U{001C}', '\U{001D}', '\U{001E}', '\U{001F}', ' ',
    '\U{0085}', '\U{00A0}', '\U{1680}',
    '\U{2000}', '\U{2001}', '\U{2002}', '\U{2003}', '\U{2004}', '\U{2005}',
    '\U{2006}', '\U{2007}', '\U{2008}', '\U{2009}', '\U{200A}',
    '\U{2028}', '\U{2029}', '\U{202F}', '\U{205F}', '\U{3000}'
  }

  predicate IsWhitespace(c: char) {
    c in Whitespace
  }

  /** Every character of `s` from index `lo` up to `hi` is whitespace. */
  predicate BlankBetween(s: string, lo: int, hi: int)
    requires 0 <= lo <= hi <= |s|
  {
    forall k :: lo <= k < hi ==> IsWhitespace(s[k])
  }

  predicate IsBlank(s: string) {
    BlankBetween(s, 0, |s|)
  }

  /** The index of the first character at or after `i` that is not
      whitespace, or `|s|` when there is none. */
  function SkipBlanks(s: string, i: nat): (n: nat)
    requires i <= |s|
    ensures i <= n <= |s| && BlankBetween(s, i, n)
    ensures n == |s| || !IsWhitespace(s[n])
    decreases |s| - i
  {
    if i < |s| && IsWhitespace(s[i]) then SkipBlanks(s, i + 1) else i
  }

  /** The index just past the last character before `j` and at or after `lo`
      that is not whitespace, or `lo` when there is none. */
  function SkipBlanksBack(s: string, lo: nat, j: nat): (m: nat)
    requires lo <= j <= |s|
    ensures lo <= m <= j && BlankBetween(s, m, j)
    ensures m == lo || !IsWhitespace(s[m - 1])
    decreases j
  {
    if j > lo && IsWhitespace(s[j - 1]) then SkipBlanksBack(s, lo, j - 1) else j
  }

  /** `r` is `s` with a blank prefix of length `i` and a blank suffix cut. */
  predicate CutBlanks(s: string, r: string, i: int) {
    && 0 <= i <= i + |r| <= |s| && r == s[i..i + |r|]
    && BlankBetween(s, 0, i) && BlankBetween(s, i + |r|, |s|)
  }

  /** Neither end of `s` is whitespace (vacuously so for the empty string). */
  predicate NoOuterBlanks(s: string) {
    s == [] || (!IsWhitespace(s[0]) && !IsWhitespace(s[|s| - 1]))
  }

  /** How many leading characters `str.strip()` removes. */
  function StripStart(s: string): (i: nat)
    ensures i <= |s|
  {
    SkipBlanks(s, 0)
  }

  /** Python's `str.strip()` with no argument: `s` with whitespace cut from
      both ends and nothing else, so that neither end of the result is
      whitespace; the result is empty exactly when `s` is blank. */
  function Strip(s: string): (r: string)
    ensures CutBlanks(s, r, StripStart(s))
    ensures NoOuterBlanks(r)
    ensures r == [] <==> IsBlank(s)
  {
    var n := SkipBlanks(s, 0);
    var m := SkipBlanksBack(s, n, |s|);
    s[n..m]
  }

  lemma {:induction false} StripIdempotent(s: string)
    ensures Strip(Strip(s)) == Strip(s)
  {
    var r := Strip(s);
    assert SkipBlanks(r, 0) == 0;
    assert SkipBlanksBack(r, 0, |r|) == |r|;
    assert r[0..|r|] == r;
  }

  // ---- decimal digits

  predicate IsDigit(c: char) {
    '0' <= c <= '9'
  }

  predicate AllDigits(s: string) {
    forall k :: 0 <= k < |s| ==> IsDigit(s[k])
  }

  function DigitChar(d: nat): (c: char)
    requires d < 10
    ensures IsDigit(c) && c as int - '0' as int == d
  {
    ('0' as int + d) as char
  }

  function DigitValue(c: char): nat
    requires IsDigit(c)
  {
    c as int - '0' as int
  }

  /** Python's `str(n)` for a natural number: no sign, no leading zero. */
  function NatToDecimal(n: nat): (r: string)
    ensures |r| >= 1 && AllDigits(r)
    ensures |r| > 1 ==> r[0] != '0'
  {
    if n < 10 then [DigitChar(n)] else NatToDecimal(n / 10) + [DigitChar(n % 10)]
  }

  /** Python's `str(i)` for any integer. */
  function IntToDecimal(i: int): (r: string)
    ensures |r| >= 1
    ensures r[0] == '-' <==> i < 0
  {
    if i < 0 then "-" + NatToDecimal(-i) else NatToDecimal(i)
  }

  /** The number a run of ASCII digits denotes. */
  function DecimalValue(s: string): nat
    requires AllDigits(s)
  {
    if s == [] then 0 else DecimalValue(s[..|s| - 1]) * 10 + DigitValue(s[|s| - 1])
  }

  lemma {:induction false} DecimalRoundTrip(n: nat)
    ensures DecimalValue(NatToDecimal(n)) == n
  {
    if n >= 10 {
      DecimalRoundTrip(n / 10);
      var s := NatToDecimal(n);
      assert s[..|s| - 1] == NatToDecimal(n / 10);
    }
  }

  // ---- Python's ordering of strings (code point by code point)

  predicate StrLess(a: string, b: string)
    decreases |a|
  {
    if a == [] then b != []
    else if b == [] then false
    else if a[0] == b[0] then StrLess(a[1..], b[1..])
    else a[0] < b[0]
  }

  lemma {:induction false} StrLessIrreflexive(a: string)
    ensures !StrLess(a, a)
    decreases |a|
  {
    if a != [] { StrLessIrreflexive(a[1..]); }
  }

  lemma {:induction false} StrLessTransitive(a: string, b: string, c: string)
    requires StrLess(a, b) && StrLess(b, c)
    ensures StrLess(a, c)
    decreases |a|
  {
    if a != [] && b != [] && c != [] && a[0] == b[0] == c[0] {
      StrLessTransitive(a[1..], b[1..], c[1..]);
    }
  }

  lemma {:induction false} StrLessTotal(a: string, b: string)
    ensures a == b || StrLess(a, b) || StrLess(b, a)
    decreases |a|
  {
    if a != [] && b != [] && a[0] == b[0] {
      StrLessTotal(a[1..], b[1..]);
      if a[1..] == b[1..] {
        assert a == [a[0]] + a[1..] && b == [b[0]] + b[1..];
      }
    }
  }

  /** `m` is the least element of `s` in Python's string order. */
  predicate IsLeastName(m: string, s: set<string>) {
    m in s && forall e :: e in s && e != m ==> StrLess(m, e)
  }

  /** Every finite, non-empty set of names has a least one, so `sorted` can
      always pick the next name. */
  lemma {:induction false} LeastNameExists(s: set<string>) returns (m: string)
    requires s != {}
    ensures IsLeastName(m, s)
    decreases |s|
  {
    var x :| x in s;
    if s == {x} {
      m := x;
    } else {
      var rest := s - {x};
      var mr := LeastNameExists(rest);
      StrLessTotal(x, mr);
      if StrLess(x, mr) {
        forall e | e in s && e != x ensures StrLess(x, e) {
          if e != mr { StrLessTransitive(x, mr, e); }
        }
        m := x;
      } else {
        m := mr;
      }
    }
  }
}
