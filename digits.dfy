/** Decimal digits as the page sees them: the ASCII digit class `\d` of a
    JavaScript regular expression, and the plain decimal rendering that
    `Number.prototype.toString()` gives a non-negative safe integer (up to
    2^53; the page renders only five-digit values). */
module Digits {

  /** The character class `\d` (without the `u` flag): exactly '0'..'9'. */
  predicate IsDigit(c: char) {
    '0' <= c <= '9'
  }

  /** The regular expression `^\d+$`: one or more digits and nothing else;
      the empty string does not match. */
  predicate AllDigits(s: string)
    ensures AllDigits(s) ==> |s| > 0 && IsDigit(s[0]) && IsDigit(s[|s| - 1])
  {
    |s| > 0 && forall i :: 0 <= i < |s| ==> IsDigit(s[i])
  }

  /** The character that renders the decimal digit `d`. */
  function DigitChar(d: nat): (c: char)
    requires d < 10
    ensures IsDigit(c)
    ensures DigitValue(c) == d
  {
    (('0' as int) + d) as char
  }

  /** The value of a digit character. */
  function DigitValue(c: char): (d: nat)
    requires IsDigit(c)
    ensures d < 10
  {
    (c as int) - ('0' as int)
  }

  /** The decimal rendering of `n`: most significant digit first, no leading
      zeros, "0" for zero. It agrees with `n.toString()` for `n <= 2^53`;
      beyond that JavaScript prints the shortest digits that read back as the
      same double, padded with zeros (and exponent notation from 10^21), which
      is not modelled. */
  function DecimalString(n: nat): (s: string)
    ensures AllDigits(s)
    ensures n >= 10 ==> s[0] != '0'
    decreases n
  {
    if n < 10 then [DigitChar(n)] else DecimalString(n / 10) + [DigitChar(n % 10)]
  }

  /** The number a digit string denotes, read most significant digit first. */
  function DecimalValue(s: string): nat
    requires forall i :: 0 <= i < |s| ==> IsDigit(s[i])
  {
    if s == [] then 0 else DecimalValue(s[..|s| - 1]) * 10 + DigitValue(s[|s| - 1])
  }

  /** Rendering and reading back give the number again. */
  lemma {:induction false} DecimalRoundTrip(n: nat)
    ensures DecimalValue(DecimalString(n)) == n
    decreases n
  {
    var s := DecimalString(n);
    if n >= 10 {
      DecimalRoundTrip(n / 10);
      assert s[..|s| - 1] == DecimalString(n / 10);
    }
  }

  /** Distinct numbers render as distinct strings. */
  lemma DecimalStringInjective(m: nat, n: nat)
    ensures DecimalString(m) == DecimalString(n) <==> m == n
  {
    if DecimalString(m) == DecimalString(n) {
      DecimalRoundTrip(m);
      DecimalRoundTrip(n);
    }
  }

  /** A number with five decimal digits renders as exactly those five digits,
      most significant first. */
  lemma FiveDigitRendering(n: nat)
    requires 10000 <= n <= 99999
    ensures DecimalString(n) == [DigitChar(n / 10000), DigitChar(n / 1000 % 10),
                                 DigitChar(n / 100 % 10), DigitChar(n / 10 % 10),
                                 DigitChar(n % 10)]
  {
    assert n / 10 / 10 == n / 100;
    assert n / 100 / 10 == n / 1000;
    assert n / 1000 / 10 == n / 10000;
    assert 1 <= n / 10000 < 10;
    calc {
      DecimalString(n);
      DecimalString(n / 10) + [DigitChar(n % 10)];
      DecimalString(n / 100) + [DigitChar(n / 10 % 10)] + [DigitChar(n % 10)];
      DecimalString(n / 1000) + [DigitChar(n / 100 % 10)] + [DigitChar(n / 10 % 10)]
        + [DigitChar(n % 10)];
      [DigitChar(n / 10000)] + [DigitChar(n / 1000 % 10)] + [DigitChar(n / 100 % 10)]
        + [DigitChar(n / 10 % 10)] + [DigitChar(n % 10)];
    }
  }
}
