/** The few PHP built-ins the resolver relies on and whose behaviour is fixed by the
    language: `trim` with its default character list, `is_numeric` together with the
    numeric value of a numeric string (integer literals only), `round` of a width
    divided by the default aspect ratio, and the decimal text PHP prints for a number. */
module Php {
  import opened Wrappers

  /** The characters `trim` strips when it is given no character list:
      space, tab, line feed, carriage return, NUL and vertical tab. */
  predicate IsTrimChar(c: char) {
    c == ' ' || c == '\t' || c == '\n' || c == '\r' || c == '\0' || c == '\U{0B}'
  }

  /** The index of the first character of `s` at or after `i` that is not a trim
      character (`|s|` when there is none). */
  function SkipTrimChars(s: string, i: nat): (j: nat)
    requires i <= |s|
    ensures i <= j <= |s|
    ensures forall k :: i <= k < j ==> IsTrimChar(s[k])
    ensures j == |s| || !IsTrimChar(s[j])
    decreases |s| - i
  {
    if i < |s| && IsTrimChar(s[i]) then SkipTrimChars(s, i + 1) else i
  }

  /** The index just after the last character of `s[lo..j]` that is not a trim
      character (`lo` when there is none). */
  function BackOverTrimChars(s: string, lo: nat, j: nat): (e: nat)
    requires lo <= j <= |s|
    ensures lo <= e <= j
    ensures forall k :: e <= k < j ==> IsTrimChar(s[k])
    ensures e == lo || !IsTrimChar(s[e - 1])
    decreases j
  {
    if lo < j && IsTrimChar(s[j - 1]) then BackOverTrimChars(s, lo, j - 1) else j
  }

  /** `trim`: strips trim characters from both ends. The result is the slice of `s`
      that starts after the leading trim characters and is followed only by trim
      characters, and it neither starts nor ends with one. */
  function Trim(s: string): (r: string)
    ensures var i := SkipTrimChars(s, 0);
      i + |r| <= |s| && r == s[i..i + |r|] &&
      (forall k :: 0 <= k < i ==> IsTrimChar(s[k])) &&
      (forall k :: i + |r| <= k < |s| ==> IsTrimChar(s[k]))
    ensures r == [] || (!IsTrimChar(r[0]) && !IsTrimChar(r[|r| - 1]))
  {
    var i := SkipTrimChars(s, 0);
    s[i..BackOverTrimChars(s, i, |s|)]
  }

  /** `ltrim`: drops the longest prefix made of trim characters. */
  function TrimLeft(s: string): (r: string)
    ensures |r| <= |s| && r == s[|s| - |r|..]
    ensures forall k :: 0 <= k < |s| - |r| ==> IsTrimChar(s[k])
    ensures r == [] || !IsTrimChar(r[0])
  {
    s[SkipTrimChars(s, 0)..]
  }

  /** `rtrim`: drops the longest suffix made of trim characters. */
  function TrimRight(s: string): (r: string)
    ensures |r| <= |s| && r == s[..|r|]
    ensures forall k :: |r| <= k < |s| ==> IsTrimChar(s[k])
    ensures r == [] || !IsTrimChar(r[|r| - 1])
  {
    s[..BackOverTrimChars(s, 0, |s|)]
  }

  /** Walking back over trim characters in a suffix of `s` stops at the same place
      as walking back in `s` itself. */
  lemma {:induction false} BackOverSuffix(s: string, i: nat, j: nat)
    requires i <= j <= |s|
    ensures BackOverTrimChars(s[i..], 0, j - i) + i == BackOverTrimChars(s, i, j)
    decreases j
  {
    if i < j {
      assert s[i..][j - 1 - i] == s[j - 1];
      if IsTrimChar(s[j - 1]) {
        BackOverSuffix(s, i, j - 1);
      }
    }
  }

  /** `trim` is `rtrim` after `ltrim`. */
  lemma TrimIsRightOfLeft(s: string)
    ensures Trim(s) == TrimRight(TrimLeft(s))
  {
    var i := SkipTrimChars(s, 0);
    BackOverSuffix(s, i, |s|);
  }

  /** A string with no trim character at either end is left unchanged by `trim`. */
  lemma TrimOfTrimmed(s: string)
    requires s == [] || (!IsTrimChar(s[0]) && !IsTrimChar(s[|s| - 1]))
    ensures Trim(s) == s
  {
    assert SkipTrimChars(s, 0) == 0;
    assert BackOverTrimChars(s, 0, |s|) == |s|;
    assert s[0..|s|] == s;
  }

  /** Trimming is idempotent: trimming an argument twice is the same as once. */
  lemma TrimIdempotent(s: string)
    ensures Trim(Trim(s)) == Trim(s)
  {
    TrimOfTrimmed(Trim(s));
  }

  predicate IsDigit(c: char) {
    '0' <= c <= '9'
  }

  function DigitValue(c: char): (d: nat)
    requires IsDigit(c)
    ensures d < 10
  {
    (c as int - '0' as int) as nat
  }

  function DigitChar(d: nat): (c: char)
    requires d < 10
    ensures IsDigit(c) && DigitValue(c) == d
  {
    ('0' as int + d) as char
  }

  predicate AllDigits(s: string) {
    |s| > 0 && forall k :: 0 <= k < |s| ==> IsDigit(s[k])
  }

  /** The value of a run of decimal digits, most significant first. */
  function DigitsValue(s: string): nat
    requires forall k :: 0 <= k < |s| ==> IsDigit(s[k])
    decreases |s|
  {
    if s == [] then 0 else DigitsValue(s[..|s| - 1]) * 10 + DigitValue(s[|s| - 1])
  }

  /** The whitespace `is_numeric` allows in front of a number:
      space, tab, line feed, carriage return, vertical tab and form feed. */
  predicate IsLeadingSpace(c: char) {
    c == ' ' || c == '\t' || c == '\n' || c == '\r' || c == '\U{0B}' || c == '\U{0C}'
  }

  /** The index of the first character of `s` at or after `i` that is not leading
      whitespace (`|s|` when there is none). */
  function SkipLeadingSpace(s: string, i: nat): (j: nat)
    requires i <= |s|
    ensures i <= j <= |s|
    ensures forall k :: i <= k < j ==> IsLeadingSpace(s[k])
    ensures j == |s| || !IsLeadingSpace(s[j])
    decreases |s| - i
  {
    if i < |s| && IsLeadingSpace(s[i]) then SkipLeadingSpace(s, i + 1) else i
  }

  /** `s` is an integer literal whose sign, if any, is at `i` and whose digits start
      at `j`: `s[..i]` is leading whitespace, `s[i..j]` is empty or one sign, and
      `s[j..]` is one or more digits. */
  predicate IntegerLiteralAt(s: string, i: nat, j: nat) {
    i <= j <= |s| && (j == i || (j == i + 1 && (s[i] == '+' || s[i] == '-'))) &&
    (forall k :: 0 <= k < i ==> IsLeadingSpace(s[k])) &&
    AllDigits(s[j..])
  }

  /** The number an integer literal denotes: its digits, negated after a minus sign. */
  function LiteralValue(s: string, i: nat, j: nat): int
    requires IntegerLiteralAt(s, i, j)
  {
    var v: int := DigitsValue(s[j..]);
    if j == i + 1 && s[i] == '-' then -v else v
  }

  /** An integer literal starts right after the leading whitespace that
      `SkipLeadingSpace` skips. */
  lemma IntegerLiteralStart(s: string)
    ensures forall i, j :: IntegerLiteralAt(s, i, j) ==> i == SkipLeadingSpace(s, 0)
  {
    var p := SkipLeadingSpace(s, 0);
    forall i: nat, j: nat | IntegerLiteralAt(s, i, j) ensures i == p {
      assert s[j..][0] == s[j];
      assert !IsLeadingSpace(s[i]);
    }
  }

  /** Once the literal's start is known, the digits start there or one sign later. */
  lemma IntegerLiteralAfterSpace(s: string, p: nat)
    requires p <= |s| && forall k :: 0 <= k < p ==> IsLeadingSpace(s[k])
    ensures IntegerLiteralAt(s, p, p) <==> AllDigits(s[p..])
    ensures IntegerLiteralAt(s, p, p + 1) <==>
      p < |s| && (s[p] == '+' || s[p] == '-') && AllDigits(s[p + 1..])
  {
  }

  /** `is_numeric(s)` together with the number PHP compares `s` as, for integer
      literals: optional leading whitespace, an optional sign, then one or more
      digits. `None` means not numeric. */
  function IntegerValue(s: string): (r: Option<int>)
    ensures r.Some? <==> exists i, j :: IntegerLiteralAt(s, i, j)
    ensures forall i, j :: IntegerLiteralAt(s, i, j) ==> r == Some(LiteralValue(s, i, j))
  {
    var p := SkipLeadingSpace(s, 0);
    IntegerLiteralStart(s);
    IntegerLiteralAfterSpace(s, p);
    if p < |s| && (s[p] == '+' || s[p] == '-') && AllDigits(s[p + 1..]) then
      assert IntegerLiteralAt(s, p, p + 1);
      var v: int := DigitsValue(s[p + 1..]);
      Some(if s[p] == '-' then -v else v)
    else if AllDigits(s[p..]) then
      assert IntegerLiteralAt(s, p, p);
      Some(DigitsValue(s[p..]))
    else
      assert !IntegerLiteralAt(s, p, p) && !IntegerLiteralAt(s, p, p + 1);
      None
  }

  /** The decimal text PHP prints for a non-negative integer (no sign, no leading zero). */
  function NatToString(n: nat): (r: string)
    ensures AllDigits(r)
    ensures r[0] == '0' ==> n == 0
    decreases n
  {
    if n < 10 then [DigitChar(n)] else NatToString(n / 10) + [DigitChar(n % 10)]
  }

  /** The decimal text PHP prints for an integer-valued number. */
  function IntToString(i: int): (r: string)
    ensures |r| > 0 && (r[0] == '-' <==> i < 0)
    ensures AllDigits(if i < 0 then r[1..] else r)
    ensures (if i < 0 then r[1..] else r)[0] == '0' ==> i == 0
  {
    if i < 0 then "-" + NatToString(-i) else NatToString(i)
  }

  lemma {:induction false} DigitsValueOfNatToString(n: nat)
    ensures DigitsValue(NatToString(n)) == n
    decreases n
  {
    if n >= 10 {
      var s := NatToString(n);
      assert s[..|s| - 1] == NatToString(n / 10);
      DigitsValueOfNatToString(n / 10);
    }
  }

  /** A run of digits is numeric, with the value of the digits. */
  lemma IntegerValueOfDigits(d: string)
    requires AllDigits(d)
    ensures IntegerValue(d) == Some(DigitsValue(d))
  {
    assert !IsLeadingSpace(d[0]) && d[0] != '+' && d[0] != '-';
    NoLeadingSpace(d);
  }

  /** A minus sign followed by a run of digits is numeric, with the negated value. */
  lemma IntegerValueOfNegatedDigits(t: string)
    requires |t| > 0 && t[0] == '-' && AllDigits(t[1..])
    ensures IntegerValue(t) == Some(0 - DigitsValue(t[1..]))
  {
    NoLeadingSpace(t);
  }

  /** A string that does not start with whitespace has none to skip. */
  lemma NoLeadingSpace(t: string)
    requires t == [] || !IsLeadingSpace(t[0])
    ensures SkipLeadingSpace(t, 0) == 0 && t[0..] == t
  {
  }

  /** Printing a number and reading the text back as a numeric string gives the number. */
  lemma IntegerValueOfIntToString(i: int)
    ensures IntegerValue(IntToString(i)) == Some(i)
  {
    var n := if i < 0 then -i else i;
    DigitsValueOfNatToString(n);
    if i < 0 {
      assert IntToString(i)[1..] == NatToString(n);
      IntegerValueOfNegatedDigits(IntToString(i));
    } else {
      IntegerValueOfDigits(NatToString(n));
    }
  }

  /** Rounding 14x / 17 half up, for x >= 0; the quotient is never exactly a half
      because 28x + 17 is odd. */
  lemma RoundHalfUp(x: int)
    requires x >= 0
    ensures -17 < 34 * ((28 * x + 17) / 34) - 28 * x < 17
  {
    var q, r := (28 * x + 17) / 34, (28 * x + 17) % 34;
    assert 28 * x + 17 == 34 * q + r && 0 <= r < 34;
    // r is odd, so it is neither 0 nor 34
    assert r == 2 * (14 * x - 17 * q) + 17;
  }

  /** `round($w / (425 / 350))`: the integer nearest to w * 350 / 425 = 14w / 17.
      Halves round away from zero, though 14w / 17 is never exactly a half. */
  function RoundedHeight(w: int): (h: int)
    ensures -17 < 34 * h - 28 * w < 17
    ensures w >= 0 ==> h >= 0
  {
    if w >= 0 then
      RoundHalfUp(w);
      (28 * w + 17) / 34
    else
      RoundHalfUp(-w);
      -((28 * -w + 17) / 34)
  }

  /** The nearest-integer property determines the height uniquely. */
  lemma RoundedHeightUnique(w: int, h: int)
    requires -17 < 34 * h - 28 * w < 17
    ensures h == RoundedHeight(w)
  {
    var g := RoundedHeight(w);
    assert -34 < 34 * (h - g) < 34;
  }

  /** The height grows with the width. */
  lemma RoundedHeightMonotonic(w1: int, w2: int)
    requires w1 <= w2
    ensures RoundedHeight(w1) <= RoundedHeight(w2)
  {
    var h1, h2 := RoundedHeight(w1), RoundedHeight(w2);
    assert 34 * (h1 - h2) < 34 + 28 * (w1 - w2);
  }
}
