// Decimal text of a Java `int`, as produced when an int is concatenated to
// a String ("..." + n): an optional '-' followed by decimal digits with no
// leading zero. A parser for the same format shows that the text denotes the
// integer it was made from, so distinct offsets and indices print distinctly.
module Decimal {

  predicate IsDigit(c: char) {
    '0' <= c <= '9'
  }

  predicate AllDigits(s: string) {
    forall k :: 0 <= k < |s| ==> IsDigit(s[k])
  }

  function DigitChar(d: nat): (c: char)
    requires d < 10
    ensures IsDigit(c) && DigitValue(c) == d
  {
    ('0' as int + d) as char
  }

  function DigitValue(c: char): (d: nat)
    requires IsDigit(c)
    ensures d < 10
  {
    c as int - '0' as int
  }

  /** Unsigned decimal digits of `n`, most significant first. */
  function NatToString(n: nat): (s: string)
    ensures |s| >= 1 && AllDigits(s)
    ensures s[0] == '0' ==> n == 0
    decreases n
  {
    if n < 10 then [DigitChar(n)] else NatToString(n / 10) + [DigitChar(n % 10)]
  }

  /** Java's `Integer.toString`: a leading '-' exactly for negative values. */
  function IntToString(x: int): (s: string)
    ensures WellFormed(s)
    ensures s[0] == '-' <==> x < 0
  {
    if x < 0 then "-" + NatToString(-x) else NatToString(x)
  }

  /** Digits without a superfluous leading zero. */
  predicate Canonical(digits: string) {
    |digits| >= 1 && AllDigits(digits) && (digits[0] == '0' ==> |digits| == 1)
  }

  /** The text shape `IntToString` produces: canonical digits, or '-' and non-zero canonical digits. */
  predicate WellFormed(s: string) {
    || Canonical(s)
    || (|s| >= 2 && s[0] == '-' && Canonical(s[1..]) && s[1] != '0')
  }

  function ParseDigits(s: string): (n: nat)
    requires |s| >= 1 && AllDigits(s)
    decreases |s|
  {
    if |s| == 1 then DigitValue(s[0])
    else 10 * ParseDigits(s[..|s| - 1]) + DigitValue(s[|s| - 1])
  }

  function ParseInt(s: string): (x: int)
    requires WellFormed(s)
  {
    if s[0] == '-' then 0 - ParseDigits(s[1..]) else ParseDigits(s)
  }

  lemma {:induction false} ParseNatToString(n: nat)
    ensures ParseDigits(NatToString(n)) == n
    decreases n
  {
    if n >= 10 {
      ParseNatToString(n / 10);
      var s := NatToString(n);
      assert s[..|s| - 1] == NatToString(n / 10);
    }
  }

  /** Parsing the printed text of an int gives the int back. */
  lemma {:induction false} DecimalRoundTrip(x: int)
    ensures ParseInt(IntToString(x)) == x
  {
    if x < 0 {
      ParseNatToString(-x);
      assert IntToString(x)[1..] == NatToString(-x);
    } else {
      ParseNatToString(x);
    }
  }

  /** Two ints print the same text only if they are equal. */
  lemma {:induction false} IntToStringInjective(x: int, y: int)
    requires IntToString(x) == IntToString(y)
    ensures x == y
  {
    DecimalRoundTrip(x);
    DecimalRoundTrip(y);
  }
}
