/** Decimal numerals as JavaScript writes integers into template literals:
    no padding, no leading zeros, a leading '-' for negative values. The
    parsing direction is the independent reference each rendering is proved
    against. */
module Decimal {

  predicate IsDigit(c: char) {
    '0' <= c <= '9'
  }

  predicate AllDigits(s: string) {
    forall i :: 0 <= i < |s| ==> IsDigit(s[i])
  }

  /** At least one digit and no leading zero, except for the numeral "0". */
  predicate Canonical(s: string) {
    |s| >= 1 && AllDigits(s) && (s[0] == '0' ==> |s| == 1)
  }

  function DigitValue(c: char): (d: nat)
    requires IsDigit(c)
    ensures d < 10
  {
    c as int - '0' as int
  }

  function DigitChar(d: nat): (c: char)
    requires d < 10
    ensures IsDigit(c) && DigitValue(c) == d
  {
    ('0' as int + d) as char
  }

  /** The number a string of digits denotes, most significant digit first. */
  function Value(s: string): nat
    requires AllDigits(s)
    decreases |s|
  {
    if |s| == 0 then 0 else 10 * Value(s[..|s| - 1]) + DigitValue(s[|s| - 1])
  }

  /** The text of a non-negative integer: its canonical decimal numeral. */
  function NatText(n: nat): (s: string)
    ensures Canonical(s)
    ensures Value(s) == n
    ensures |s| == 1 <==> n < 10
    ensures |s| <= 2 <==> n < 100
    decreases n
  {
    if n < 10 then [DigitChar(n)]
    else
      var s := NatText(n / 10) + [DigitChar(n % 10)];
      assert s[..|s| - 1] == NatText(n / 10);
      s
  }

  /** The text of any integer: a '-' before the numeral of its magnitude when
      it is negative. */
  function IntText(i: int): (s: string)
    ensures |s| >= 1
    ensures s[0] == '-' <==> i < 0
    ensures i < 0 ==> Canonical(s[1..]) && s[1..] != "0" && Value(s[1..]) == -i
    ensures i >= 0 ==> Canonical(s) && Value(s) == i
  {
    if i < 0 then
      var s := "-" + NatText(-i);
      assert s[1..] == NatText(-i);
      s
    else NatText(i)
  }

  lemma {:induction false} LeadingDigitPositive(s: string)
    requires |s| >= 1 && AllDigits(s) && s[0] != '0'
    ensures Value(s) >= 1
    decreases |s|
  {
    if |s| > 1 {
      var p := s[..|s| - 1];
      assert p[0] == s[0];
      LeadingDigitPositive(p);
    }
  }

  /** Every canonical numeral is the text of the number it denotes, so
      NatText and Value are mutually inverse on canonical numerals. */
  lemma {:induction false} NatTextOfValue(s: string)
    requires Canonical(s)
    ensures NatText(Value(s)) == s
    decreases |s|
  {
    if |s| == 1 {
      assert Value(s) == DigitValue(s[0]);
      assert NatText(Value(s)) == [DigitChar(DigitValue(s[0]))];
    } else {
      var p := s[..|s| - 1];
      assert p[0] == s[0];
      LeadingDigitPositive(p);
      NatTextOfValue(p);
      var n := Value(s);
      assert n == 10 * Value(p) + DigitValue(s[|s| - 1]);
      assert n / 10 == Value(p) && n % 10 == DigitValue(s[|s| - 1]);
      assert DigitChar(n % 10) == s[|s| - 1];
      assert s == p + [s[|s| - 1]];
    }
  }

  lemma DigitsHaveNo(s: string, c: char)
    requires AllDigits(s) && !IsDigit(c)
    ensures c !in s
  {
  }
}
