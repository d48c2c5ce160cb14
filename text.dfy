/**
 * The decimal text Java's string concatenation gives a long or an int (Long.toString), and
 * the text a Boolean becomes; the HTTP client builds its refresh-interval settings as the
 * decimal milliseconds followed by "ms".
 */
module Text {

  ghost predicate IsDigit(c: char)
  {
    '0' <= c <= '9'
  }

  function DigitChar(d: nat): (c: char)
    requires d < 10
    ensures IsDigit(c)
  {
    ['0', '1', '2', '3', '4', '5', '6', '7', '8', '9'][d]
  }

  function DigitValue(c: char): nat
  {
    if '0' <= c <= '9' then (c as int) - ('0' as int) else 0
  }

  /** The digits of a non-negative number, most significant first, with no leading zero. */
  function Digits(n: nat): (r: string)
    ensures 1 <= |r| && (forall k :: 0 <= k < |r| ==> IsDigit(r[k]))
    ensures |r| > 1 ==> r[0] != '0'
    decreases n
  {
    if n < 10 then [DigitChar(n)] else Digits(n / 10) + [DigitChar(n % 10)]
  }

  /** Long.toString: a minus sign in front of the digits of a negative number. */
  function DecimalString(n: int): string
  {
    if n < 0 then "-" + Digits(-n) else Digits(n)
  }

  /** What `millis + "ms"` gives for a long. */
  function Millis(ms: int): string
  {
    DecimalString(ms) + "ms"
  }

  /** String.valueOf of a boolean. */
  function BooleanString(b: bool): string
  {
    if b then "true" else "false"
  }

  /** Reads decimal digits, most significant first. */
  function ParseDigits(s: string): nat
    decreases |s|
  {
    if s == [] then 0 else 10 * ParseDigits(s[..|s| - 1]) + DigitValue(s[|s| - 1])
  }

  /** Long.parseLong of a well-formed decimal: an optional minus sign, then digits. */
  function ParseDecimal(s: string): int
  {
    if |s| > 0 && s[0] == '-' then -(ParseDigits(s[1..]) as int) else ParseDigits(s)
  }

  lemma DigitRoundTrip(d: nat)
    requires d < 10
    ensures DigitValue(DigitChar(d)) == d
  {
    var table := ['0', '1', '2', '3', '4', '5', '6', '7', '8', '9'];
    assert DigitChar(d) == table[d];
  }

  lemma {:induction false} DigitsRoundTrip(n: nat)
    ensures ParseDigits(Digits(n)) == n
    decreases n
  {
    if n < 10 {
      DigitRoundTrip(n);
    } else {
      var ds := Digits(n / 10) + [DigitChar(n % 10)];
      assert ds[..|ds| - 1] == Digits(n / 10);
      DigitsRoundTrip(n / 10);
      DigitRoundTrip(n % 10);
    }
  }

  /** Reading back the decimal text of any long gives that long. */
  lemma DecimalRoundTrip(n: int)
    ensures ParseDecimal(DecimalString(n)) == n
  {
    if n < 0 {
      var ds := Digits(-n);
      assert ("-" + ds)[1..] == ds;
      DigitsRoundTrip(-n);
    } else {
      DigitsRoundTrip(n);
    }
  }

  /** Distinct intervals give distinct settings. */
  lemma MillisInjective(a: int, b: int)
    requires Millis(a) == Millis(b)
    ensures a == b
  {
    var sa := DecimalString(a);
    var sb := DecimalString(b);
    assert sa == Millis(a)[..|Millis(a)| - 2];
    assert sb == Millis(b)[..|Millis(b)| - 2];
    DecimalRoundTrip(a);
    DecimalRoundTrip(b);
  }
}
