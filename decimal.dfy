/**
 * Decimal text of integers, as Java's Integer.toString and Long.toString
 * produce it: digits without leading zeros, a leading '-' for negatives.
 * The integer id provider uses it for its ids, the attribute encoder for
 * int and long values.
 */
module Decimal {

  predicate IsDigit(c: char) { '0' <= c <= '9' }

  predicate IsDigits(s: string) { forall i :: 0 <= i < |s| ==> IsDigit(s[i]) }

  function DigitChar(d: nat): (c: char)
    requires d < 10
    ensures IsDigit(c) && c as int - '0' as int == d
  {
    ('0' as int + d) as char
  }

  function DigitValue(c: char): nat
    requires IsDigit(c)
  {
    c as int - '0' as int
  }

  /** The decimal text of n: digits only, never empty, no leading zero. */
  function NatToString(n: nat): (s: string)
    ensures |s| > 0 && IsDigits(s)
    ensures s[0] == '0' ==> n == 0
    ensures n < 10 <==> |s| == 1
    decreases n
  {
    if n < 10 then [DigitChar(n)] else NatToString(n / 10) + [DigitChar(n % 10)]
  }

  /** Reads a digit string back as the number it denotes. */
  function DigitsValue(s: string): nat
    requires IsDigits(s)
  {
    if s == [] then 0 else DigitsValue(s[..|s| - 1]) * 10 + DigitValue(s[|s| - 1])
  }

  lemma {:induction false} NatToStringRoundTrip(n: nat)
    ensures DigitsValue(NatToString(n)) == n
    decreases n
  {
    if n >= 10 {
      var s := NatToString(n);
      assert s[..|s| - 1] == NatToString(n / 10);
      NatToStringRoundTrip(n / 10);
    }
  }

  /** Distinct numbers have distinct decimal texts, so distinct ids stay distinct. */
  lemma NatToStringInjective(m: nat, n: nat)
    ensures NatToString(m) == NatToString(n) <==> m == n
  {
    NatToStringRoundTrip(m);
    NatToStringRoundTrip(n);
  }

  /** The decimal text of i, with a '-' in front exactly when i is negative. */
  function IntToString(i: int): (s: string)
    ensures |s| > 0 && (s[0] == '-' <==> i < 0)
    ensures IsDigits(if i < 0 then s[1..] else s)
  {
    if i < 0 then "-" + NatToString(-i) else NatToString(i)
  }

  /** Reads an optionally signed decimal text back as an integer. */
  function IntValue(s: string): int
    requires |s| > 0
    requires IsDigits(if s[0] == '-' then s[1..] else s)
  {
    var magnitude: int := DigitsValue(if s[0] == '-' then s[1..] else s);
    if s[0] == '-' then -magnitude else magnitude
  }

  lemma IntToStringRoundTrip(i: int)
    ensures IntValue(IntToString(i)) == i
  {
    if i < 0 {
      NegativeValue(NatToString(-i));
      NatToStringRoundTrip(-i);
    } else {
      NonNegativeValue(NatToString(i));
      NatToStringRoundTrip(i);
    }
  }

  lemma NegativeValue(digits: string)
    requires |digits| > 0 && IsDigits(digits)
    ensures IntValue("-" + digits) == -(DigitsValue(digits) as int)
  {
    Signed(digits);
  }

  lemma NonNegativeValue(digits: string)
    requires |digits| > 0 && IsDigits(digits)
    ensures IntValue(digits) == DigitsValue(digits)
  {
    assert IsDigit(digits[0]);
  }

  lemma Signed(digits: string)
    ensures ("-" + digits)[0] == '-' && ("-" + digits)[1..] == digits
  {
  }
}
