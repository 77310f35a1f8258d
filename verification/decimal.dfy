/** Decimal text of integers, as produced by Ruby's `%d` and `Integer#to_s`:
    an optional minus sign followed by digits, without padding. */
module Decimal {

  predicate IsDigit(c: char) {
    '0' <= c <= '9'
  }

  /** Every character of `s` is a decimal digit. */
  predicate AllDigits(s: string) {
    forall i :: 0 <= i < |s| ==> IsDigit(s[i])
  }

  function DigitChar(d: nat): (c: char)
    requires d < 10
  {
    ('0' as int + d) as char
  }

  function DigitValue(c: char): (d: nat)
    requires IsDigit(c)
  {
    c as int - '0' as int
  }

  /** Decimal digits of `n`, most significant first. */
  function FromNat(n: nat): (s: string)
    ensures |s| >= 1 && AllDigits(s)
    ensures s[0] == '0' <==> n == 0
    ensures n == 0 ==> s == "0"
    ensures |s| > 1 ==> s[0] != '0'
    decreases n
  {
    if n < 10 then [DigitChar(n)] else FromNat(n / 10) + [DigitChar(n % 10)]
  }

  /** Decimal text of `n`: a minus sign only for negative numbers. */
  function FromInt(n: int): (s: string)
    ensures |s| >= 1 && (s[0] == '-' <==> n < 0)
    ensures AllDigits(if n < 0 then s[1..] else s)
  {
    if n < 0 then "-" + FromNat(-n) else FromNat(n)
  }

  /** Well-formed decimal integer text: optional '-', then digits with no
      leading zero, and no "-0". */
  predicate IsCanonical(s: string) {
    if |s| > 0 && s[0] == '-' then
      |s| > 1 && AllDigits(s[1..]) && s[1] != '0'
    else
      |s| > 0 && AllDigits(s) && (|s| > 1 ==> s[0] != '0')
  }

  /** Value of a digit string read most significant first. */
  function NatValue(s: string): nat
    requires AllDigits(s)
    decreases |s|
  {
    if |s| == 0 then 0 else NatValue(s[..|s| - 1]) * 10 + DigitValue(s[|s| - 1])
  }

  /** Value of a canonical decimal text: the reading partner of `FromInt`. */
  function IntValue(s: string): int
    requires IsCanonical(s)
  {
    if s[0] == '-' then -(NatValue(s[1..]) as int) else NatValue(s)
  }

  lemma {:induction false} NatRoundTrip(n: nat)
    ensures NatValue(FromNat(n)) == n
    decreases n
  {
    var s := FromNat(n);
    if n >= 10 {
      NatRoundTrip(n / 10);
      assert s[..|s| - 1] == FromNat(n / 10);
    }
  }

  /** The text of every integer is canonical and reads back as that integer. */
  lemma IntRoundTrip(n: int)
    ensures IsCanonical(FromInt(n))
    ensures IntValue(FromInt(n)) == n
  {
    NatRoundTrip(if n < 0 then -n else n);
    if n < 0 {
      assert FromInt(n)[1..] == FromNat(-n);
    }
  }

  /** Different integers have different texts. */
  lemma FromIntInjective(a: int, b: int)
    ensures FromInt(a) == FromInt(b) <==> a == b
  {
    IntRoundTrip(a);
    IntRoundTrip(b);
  }
}
