/**
  ASCII decimal digits and the decimal text of integers.

  JavaScript renders an integral number below 10^21 as its plain decimal
  digits (with a leading '-' when negative); the snap interpolates stored
  values into notification text this way, and array-index property keys are
  exactly the canonical decimal texts of naturals.
 */
module Decimal {

  /** The characters matched by the regular-expression class `\d` (no `u` flag): ASCII '0'..'9'. */
  predicate IsDigit(c: char) {
    '0' <= c <= '9'
  }

  predicate AllDigits(s: string) {
    forall i :: 0 <= i < |s| ==> IsDigit(s[i])
  }

  /** Non-empty digits without a superfluous leading zero: the only text `NatText` produces. */
  predicate Canonical(s: string) {
    && |s| > 0
    && AllDigits(s)
    && (s[0] == '0' ==> |s| == 1)
  }

  function DigitChar(d: nat): (c: char)
    requires d < 10
    ensures IsDigit(c)
    ensures c == '0' <==> d == 0
  {
    (('0' as int) + d) as char
  }

  function DigitValue(c: char): (d: nat)
    requires IsDigit(c)
    ensures d < 10
    ensures DigitChar(d) == c
  {
    (c as int) - ('0' as int)
  }

  /** Decimal text of a natural number, most significant digit first. */
  function NatText(n: nat): (r: string)
    ensures Canonical(r)
    ensures r[0] == '0' <==> n == 0
  {
    if n < 10 then [DigitChar(n)] else NatText(n / 10) + [DigitChar(n % 10)]
  }

  /** Decimal text of an integer, as JavaScript's `String(n)` gives it for |n| < 10^21. */
  function IntText(i: int): string {
    if i < 0 then "-" + NatText(-i) else NatText(i)
  }

  /** The value a string of decimal digits denotes. */
  function ParseNat(s: string): nat
    requires AllDigits(s)
    decreases |s|
  {
    if |s| == 0 then 0 else 10 * ParseNat(s[..|s| - 1]) + DigitValue(s[|s| - 1])
  }

  /** Reading a canonical text and rendering the value gives the same text back. */
  lemma {:induction false} NatTextParse(s: string)
    requires Canonical(s)
    ensures NatText(ParseNat(s)) == s
    decreases |s|
  {
    if |s| > 1 {
      var p := s[..|s| - 1];
      assert p[0] == s[0];
      NatTextParse(p);
      var n := ParseNat(s);
      assert n == 10 * ParseNat(p) + DigitValue(s[|s| - 1]);
      assert ParseNat(p) != 0;
      assert n / 10 == ParseNat(p) && n % 10 == DigitValue(s[|s| - 1]);
      assert s == p + [s[|s| - 1]];
    }
  }
}
