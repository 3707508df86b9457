// The decimal text the render callback draws: "%d" formatting of the
// count, written by snprintf into an 8-byte buffer.
module Decimal {

  /** Size of the render callback's text buffer, terminating NUL included. */
  const SCOUNT_SIZE: nat := 8

  predicate IsDigit(c: char)
  {
    '0' <= c <= '9'
  }

  predicate AllDigits(s: string)
  {
    forall i :: 0 <= i < |s| ==> IsDigit(s[i])
  }

  function DigitChar(d: nat): (c: char)
    requires d < 10
    ensures IsDigit(c)
    ensures (c == '0') == (d == 0)
  {
    ('0' as int + d) as char
  }

  function DigitValue(c: char): (d: nat)
    requires IsDigit(c)
    ensures d < 10 && DigitChar(d) == c
  {
    c as int - '0' as int
  }

  /** The digits of a natural number, most significant first. */
  function Digits(n: nat): (s: string)
    ensures |s| >= 1 && AllDigits(s)
    ensures (s[0] == '0') == (n == 0)
    ensures n == 0 ==> |s| == 1
  {
    if n < 10 then [DigitChar(n)] else Digits(n / 10) + [DigitChar(n % 10)]
  }

  /** The number a string of digits denotes (the reference reading of the
    * rendered text). */
  function Value(s: string): nat
    requires AllDigits(s)
  {
    if s == [] then 0 else Value(s[..|s| - 1]) * 10 + DigitValue(s[|s| - 1])
  }

  function Pow10(k: nat): (p: nat)
    ensures p >= 1
  {
    if k == 0 then 1 else 10 * Pow10(k - 1)
  }

  /** "%d": an optional minus sign followed by the digits of the magnitude. */
  function FormatDecimal(x: int): (s: string)
    ensures x >= 0 ==> AllDigits(s)
    ensures x < 0 ==> |s| >= 2 && s[0] == '-' && AllDigits(s[1..])
  {
    if x < 0 then ['-'] + Digits(-x) else Digits(x)
  }

  /** The characters snprintf stores before the terminating NUL: at most
    * `size - 1` of them, and nothing at all for a zero-sized buffer. */
  function Snprintf(size: nat, s: string): (r: string)
    ensures r <= s
    ensures size > 0 ==> |r| < size
    ensures size > 0 && |s| < size ==> r == s
    ensures size > 0 && |s| >= size ==> |r| == size - 1
    ensures size == 0 ==> r == []
  {
    if size == 0 then [] else if |s| < size then s else s[..size - 1]
  }

  /** The text render_callback draws for a given count. */
  function RenderText(count: int): string
  {
    Snprintf(SCOUNT_SIZE, FormatDecimal(count))
  }

  /** Reading the digits back gives the number: the rendering loses nothing. */
  lemma {:induction false} ValueOfDigits(n: nat)
    ensures Value(Digits(n)) == n
  {
    if n >= 10 {
      var s := Digits(n);
      assert s[..|s| - 1] == Digits(n / 10);
      ValueOfDigits(n / 10);
    }
  }

  /** "%d" denotes its argument: a non-negative value is its digits with no
    * leading zero; a negative one is a minus sign followed by the digits of
    * its magnitude, again with no leading zero. */
  lemma FormatDecimalValue(x: int)
    ensures x >= 0 ==> Value(FormatDecimal(x)) == x
    ensures x >= 0 ==> FormatDecimal(x)[0] != '0' || FormatDecimal(x) == "0"
    ensures x < 0 ==> Value(FormatDecimal(x)[1..]) == -x && FormatDecimal(x)[1] != '0'
  {
    if x >= 0 {
      ValueOfDigits(x);
    } else {
      assert FormatDecimal(x)[1..] == Digits(-x);
      ValueOfDigits(-x);
    }
  }

  /** Distinct numbers render as distinct digit strings. */
  lemma DigitsInjective(m: nat, n: nat)
    requires Digits(m) == Digits(n)
    ensures m == n
  {
    ValueOfDigits(m);
    ValueOfDigits(n);
  }

  /** A number below 10^k has at most k digits. */
  lemma {:induction false} DigitsFit(n: nat, k: nat)
    requires k >= 1 && n < Pow10(k)
    ensures |Digits(n)| <= k
  {
    if n >= 10 {
      assert k >= 2;
      assert n / 10 < Pow10(k - 1);
      DigitsFit(n / 10, k - 1);
    }
  }

  /** Every count in [0, 9999] fits the 8-byte buffer with its NUL, so the
    * drawn text is exactly its decimal digits, with no leading zero, and
    * reads back as the count. */
  lemma RenderExact(count: int)
    requires 0 <= count <= 9999
    ensures |Digits(count)| <= 4 && |Digits(count)| + 1 <= SCOUNT_SIZE
    ensures RenderText(count) == Digits(count)
    ensures Value(RenderText(count)) == count
    ensures RenderText(count)[0] != '0' || RenderText(count) == "0"
  {
    assert Pow10(4) == 10000;
    DigitsFit(count, 4);
    ValueOfDigits(count);
  }
}
