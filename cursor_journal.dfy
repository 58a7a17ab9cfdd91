/** Reading the calibrated cursor position out of the journal text: the
    leftmost match of `AEYIAN_CURSOR:(\d+),(\d+)`, with greedy digit runs,
    and the two captures as numbers. */
module CursorJournal {
  import opened Common
  import opened Text

  const Marker := "AEYIAN_CURSOR:"

  predicate MarkerAt(s: string, i: int) {
    0 <= i && i + |Marker| <= |s| && s[i..i + |Marker|] == Marker
  }

  /** Where the run of digits starting at `j` ends: `\d+` is greedy. */
  function DigitRunEnd(s: string, j: int): (k: int)
    requires 0 <= j <= |s|
    ensures j <= k <= |s| && AllDigits(s[j..k])
    ensures k == |s| || !IsDigit(s[k])
    decreases |s| - j
  {
    if j < |s| && IsDigit(s[j]) then
      var k := DigitRunEnd(s, j + 1);
      assert s[j..k] == [s[j]] + s[j + 1..k];
      k
    else j
  }

  /** The match starting at `i`, if there is one: the marker, at least one
      digit, a comma, at least one digit. A shorter first run cannot help,
      since a digit is never a comma, so the greedy run decides the match. */
  function MatchAt(s: string, i: int): (r: Option<(nat, nat)>)
    requires 0 <= i <= |s|
    ensures r.Some? ==> MarkerAt(s, i)
    ensures r.Some? ==>
      exists k, l :: i + |Marker| < k < l <= |s| && IsMatchAt(s, i, k, l) &&
        r.value == (DecimalValue(s[i + |Marker|..k]), DecimalValue(s[k + 1..l]))
  {
    if !MarkerAt(s, i) then None
    else
      var j := i + |Marker|;
      var k := DigitRunEnd(s, j);
      if k == j || k == |s| || s[k] != ',' then None
      else
        var l := DigitRunEnd(s, k + 1);
        if l == k + 1 then None
        else
          assert IsMatchAt(s, i, k, l);
          Some((DecimalValue(s[j..k]), DecimalValue(s[k + 1..l])))
  }

  /** `s[i..l]` matches `AEYIAN_CURSOR:(\d+),(\d+)` with the comma at `k`
      and digit runs that nothing extends. */
  predicate IsMatchAt(s: string, i: int, k: int, l: int)
    requires 0 <= i && i + |Marker| < k < l <= |s|
  {
    && MarkerAt(s, i) && AllDigits(s[i + |Marker|..k]) && s[k] == ','
    && k + 1 < l && AllDigits(s[k + 1..l]) && (l == |s| || !IsDigit(s[l]))
  }

  /** The leftmost match at or after `from`. */
  function SearchFrom(s: string, from: int): (r: Option<(nat, nat)>)
    requires 0 <= from
    ensures r.Some? ==> exists i :: from <= i <= |s| && MatchAt(s, i) == r &&
                                    (forall j :: from <= j < i ==> MatchAt(s, j).None?)
    ensures r.None? ==> forall j :: from <= j <= |s| ==> MatchAt(s, j).None?
    decreases |s| - from
  {
    if from > |s| then None
    else if MatchAt(s, from).Some? then MatchAt(s, from)
    else SearchFrom(s, from + 1)
  }

  /** `re.match(output)` and the two captures' `toDouble()`: the leftmost
      match of the pattern, or none when no position matches. */
  function ParseCursorLine(output: string): Option<(nat, nat)> {
    SearchFrom(output, 0)
  }

  /** A line as the calibration script logs it, with integer coordinates,
      parses back to the same two numbers whatever follows, provided it does
      not continue the second number. */
  lemma {:induction false} ParseLogged(x: nat, y: nat, rest: string)
    requires rest == [] || !IsDigit(rest[0])
    ensures ParseCursorLine(Marker + NatToDecimal(x) + "," + NatToDecimal(y) + rest) == Some((x, y))
  {
    var dx, dy := NatToDecimal(x), NatToDecimal(y);
    var s := Marker + dx + "," + dy + rest;
    var k := |Marker| + |dx|;
    var l := k + 1 + |dy|;
    assert s[..|Marker|] == Marker;
    assert s[|Marker|..k] == dx;
    assert s[k] == ',';
    assert s[k + 1..l] == dy;
    assert l < |s| ==> s[l] == rest[0];
    assert IsMatchAt(s, 0, k, l);
    MatchAtComplete(s, 0, k, l);
    DecimalRoundTrip(x);
    DecimalRoundTrip(y);
  }

  /** Conversely, wherever the pattern matches with its comma at `k` and
      its second run ending at `l`, `MatchAt` finds exactly that match. */
  lemma MatchAtComplete(s: string, i: int, k: int, l: int)
    requires 0 <= i && i + |Marker| < k < l <= |s| && IsMatchAt(s, i, k, l)
    ensures MatchAt(s, i) == Some((DecimalValue(s[i + |Marker|..k]), DecimalValue(s[k + 1..l])))
  {
    DigitRunStops(s, i + |Marker|, k);
    DigitRunStops(s, k + 1, l);
  }

  /** A digit run that stops at `k` ends at `k`. */
  lemma {:induction false} DigitRunStops(s: string, j: int, k: int)
    requires 0 <= j <= k <= |s| && AllDigits(s[j..k]) && (k == |s| || !IsDigit(s[k]))
    ensures DigitRunEnd(s, j) == k
    decreases k - j
  {
    if j < k {
      assert IsDigit(s[j..k][0]);
      assert s[j + 1..k] == s[j..k][1..];
      DigitRunStops(s, j + 1, k);
    }
  }

  /** Text without the marker never parses. */
  lemma NoMarkerNoPosition(s: string)
    requires forall i :: 0 <= i <= |s| ==> !MarkerAt(s, i)
    ensures ParseCursorLine(s).None?
  {
    assert forall i :: 0 <= i <= |s| ==> MatchAt(s, i).None?;
  }

  /** A fractional first coordinate is not read at its marker: the digits
      must be followed directly by the comma. */
  lemma {:induction false} FractionalNotReadAtMarker(x: nat, rest: string)
    ensures MatchAt(Marker + NatToDecimal(x) + "." + rest, 0).None?
  {
    var dx := NatToDecimal(x);
    var s := Marker + dx + "." + rest;
    var k := |Marker| + |dx|;
    assert s[..|Marker|] == Marker;
    assert s[|Marker|..k] == dx;
    assert s[k] == '.';
    DigitRunStops(s, |Marker|, k);
  }
}
