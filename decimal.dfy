/**
 * Decimal rendering of counts, as Python's `str` of a non-negative `int` gives
 * it inside an f-string: digits only, no sign, no leading zero. `ParseDecimal`
 * reads such a string back and is the partner that shows nothing is lost.
 */
module Decimal {

  predicate IsDigit(c: char) {
    '0' <= c <= '9'
  }

  predicate AllDigits(s: string) {
    forall i :: 0 <= i < |s| ==> IsDigit(s[i])
  }

  function DigitChar(d: nat): (c: char)
    requires d < 10
    ensures IsDigit(c) && (c as int) - ('0' as int) == d
  {
    (('0' as int) + d) as char
  }

  function DigitValue(c: char): (d: nat)
    requires IsDigit(c)
    ensures d < 10
  {
    (c as int) - ('0' as int)
  }

  /** The decimal numeral of `n`. */
  function NatToString(n: nat): (s: string)
    ensures |s| >= 1 && AllDigits(s)
    ensures |s| > 1 ==> s[0] != '0'
    ensures n < 10 <==> |s| == 1
  {
    if n < 10 then [DigitChar(n)]
    else NatToString(n / 10) + [DigitChar(n % 10)]
  }

  /** The value of a string of digits, most significant first. */
  function ParseDecimal(s: string): nat
    requires AllDigits(s)
  {
    if s == [] then 0
    else ParseDecimal(s[..|s| - 1]) * 10 + DigitValue(s[|s| - 1])
  }

  /** Rendering a count and reading it back gives the count. */
  lemma {:induction false} ParseNatToString(n: nat)
    ensures ParseDecimal(NatToString(n)) == n
  {
    var s := NatToString(n);
    if n >= 10 {
      ParseNatToString(n / 10);
      assert s[..|s| - 1] == NatToString(n / 10);
    }
  }

  /** Distinct counts render as distinct numerals. */
  lemma NatToStringInjective(m: nat, n: nat)
    requires NatToString(m) == NatToString(n)
    ensures m == n
  {
    ParseNatToString(m);
    ParseNatToString(n);
  }

  /** The longest run of digits that ends `s`: how a reader picks a number off the end of a line. */
  function TrailingDigits(s: string): (d: string)
    ensures AllDigits(d) && |d| <= |s|
  {
    if s == [] || !IsDigit(s[|s| - 1]) then []
    else TrailingDigits(s[..|s| - 1]) + [s[|s| - 1]]
  }

  /** Digits written right after a non-digit are exactly the trailing digits. */
  lemma {:induction false} TrailingDigitsAfter(a: string, d: string)
    requires AllDigits(d)
    requires a == [] || !IsDigit(a[|a| - 1])
    ensures TrailingDigits(a + d) == d
  {
    if d == [] {
      assert a + d == a;
    } else {
      var n := |d| - 1;
      var ad := a + d;
      assert ad[..|ad| - 1] == a + d[..n] && ad[|ad| - 1] == d[n];
      TrailingDigitsAfter(a, d[..n]);
      calc {
        TrailingDigits(ad);
        TrailingDigits(a + d[..n]) + [d[n]];
        d[..n] + [d[n]];
        d;
      }
    }
  }
}
