/** Decimal rendering of integers, as Python's `str(int)` and `format(int, "02d")` produce it. */
module Decimal {

  predicate IsDigit(c: char) {
    '0' <= c <= '9'
  }

  predicate AllDigits(s: string) {
    forall i :: 0 <= i < |s| ==> IsDigit(s[i])
  }

  function DigitChar(d: nat): (c: char)
    requires d < 10
    ensures IsDigit(c)
  {
    ('0' as int + d) as char
  }

  function DigitValue(c: char): (d: nat)
    requires IsDigit(c)
    ensures d < 10
  {
    c as int - '0' as int
  }

  /** The base-10 numeral of `n`, most significant digit first, without leading zeros. */
  function NatToDigits(n: nat): string
    decreases n
  {
    if n < 10 then [DigitChar(n)] else NatToDigits(n / 10) + [DigitChar(n % 10)]
  }

  /** The numeral is a non-empty string of digits, one digit long exactly below 10, at most two
      exactly below 100, and it starts with '0' only for 0 itself. */
  lemma {:induction false} NatToDigitsShape(n: nat)
    ensures var s := NatToDigits(n);
      |s| >= 1 && AllDigits(s) && (n < 10 <==> |s| == 1) && (n < 100 <==> |s| <= 2) &&
      (s[0] == '0' ==> n == 0)
    decreases n
  {
    if n >= 10 {
      NatToDigitsShape(n / 10);
      var s := NatToDigits(n);
      assert s[0] == NatToDigits(n / 10)[0];
    }
  }

  /** The value of a string of decimal digits (the inverse of NatToDigits). */
  function DigitsValue(s: string): nat
    requires AllDigits(s)
  {
    if |s| == 0 then 0 else 10 * DigitsValue(s[..|s| - 1]) + DigitValue(s[|s| - 1])
  }

  lemma {:induction false} DigitsRoundTrip(n: nat)
    ensures AllDigits(NatToDigits(n)) && DigitsValue(NatToDigits(n)) == n
    decreases n
  {
    NatToDigitsShape(n);
    if n >= 10 {
      var s := NatToDigits(n);
      NatToDigitsShape(n / 10);
      assert s[..|s| - 1] == NatToDigits(n / 10);
      DigitsRoundTrip(n / 10);
    }
  }

  /** Python's `str(i)`. */
  function IntToString(i: int): string {
    if i < 0 then "-" + NatToDigits(-i) else NatToDigits(i)
  }

  /** Distinct integers have distinct renderings. */
  lemma IntToStringInjective(i: int, j: int)
    ensures IntToString(i) == IntToString(j) ==> i == j
  {
    if IntToString(i) == IntToString(j) {
      NatToDigitsShape(if i < 0 then -i else i);
      NatToDigitsShape(if j < 0 then -j else j);
      if i < 0 && j < 0 {
        assert IntToString(i)[1..] == NatToDigits(-i);
        assert IntToString(j)[1..] == NatToDigits(-j);
        DigitsRoundTrip(-i);
        DigitsRoundTrip(-j);
      } else if i >= 0 && j >= 0 {
        DigitsRoundTrip(i);
        DigitsRoundTrip(j);
      }
    }
  }

  /** Python's `format(i, "02d")`: zero-padded to width 2; a sign counts towards the width. */
  function PadTwo(i: int): string {
    if 0 <= i < 10 then "0" + NatToDigits(i) else IntToString(i)
  }

  /** For a non-negative argument the padding gives at least two digits and keeps the value; a
      leading '0' is only ever the pad of a two-character result. */
  lemma PadTwoNonNegative(i: int)
    requires i >= 0
    ensures AllDigits(PadTwo(i)) && |PadTwo(i)| >= 2 && DigitsValue(PadTwo(i)) == i
    ensures i < 100 <==> |PadTwo(i)| == 2
    ensures |PadTwo(i)| == 2 || PadTwo(i)[0] != '0'
  {
    var p := PadTwo(i);
    NatToDigitsShape(i);
    if i < 10 {
      assert p[..1] == "0";
      assert DigitsValue(p[..1]) == 10 * DigitsValue([]) + 0;
    } else {
      assert p == NatToDigits(i);
      DigitsRoundTrip(i);
    }
  }
}
