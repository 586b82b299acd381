/**
 * Base-10 rendering of integers, as Go's `strconv.Itoa` and the `%d` verb of
 * `fmt.Sprintf` produce it, and the inverse parse (`strconv.Atoi` without its
 * 64-bit range check).
 */
module Decimal {
  import opened Wrappers

  predicate IsDigit(ch: char) { '0' <= ch <= '9' }

  predicate AllDigits(s: string) { forall i :: 0 <= i < |s| ==> IsDigit(s[i]) }

  function DigitChar(d: nat): (ch: char)
    requires d < 10
    ensures IsDigit(ch) && ch as int - '0' as int == d
  {
    ('0' as int + d) as char
  }

  function DigitValue(ch: char): (d: nat)
    requires IsDigit(ch)
    ensures d < 10 && DigitChar(d) == ch
  {
    ch as int - '0' as int
  }

  /** The digits of `n`, most significant first, without leading zeros. */
  function NatToDecimal(n: nat): (s: string)
    ensures |s| > 0 && AllDigits(s)
    ensures n == 0 ==> s == "0"
    ensures |s| > 1 ==> s[0] != '0'
  {
    if n < 10 then [DigitChar(n)] else NatToDecimal(n / 10) + [DigitChar(n % 10)]
  }

  /** `strconv.Itoa(n)`, equally `fmt.Sprintf("%d", n)`: a minus sign for negatives, then the digits. */
  function IntToDecimal(n: int): (s: string)
    ensures n >= 0 ==> |s| > 0 && AllDigits(s)
    ensures n < 0 ==> |s| > 1 && s[0] == '-' && AllDigits(s[1..])
    ensures n == 0 ==> s == "0"
    ensures n != 0 ==> s[if n < 0 then 1 else 0] != '0'
  {
    if n < 0 then "-" + NatToDecimal(-n) else NatToDecimal(n)
  }

  /** The value of a string of digits read in base 10. */
  function DigitsValue(s: string): nat
    requires AllDigits(s)
  {
    if s == [] then 0 else DigitsValue(s[..|s| - 1]) * 10 + DigitValue(s[|s| - 1])
  }

  /** `strconv.Atoi`: an optional sign followed by at least one digit. */
  function ParseInt(s: string): (r: Option<int>)
    ensures r.Some? <==> (|s| > 0 && AllDigits(s)) || (|s| > 1 && (s[0] == '-' || s[0] == '+') && AllDigits(s[1..]))
    ensures r.Some? && s[0] != '-' ==> r.value >= 0
  {
    if |s| > 0 && (s[0] == '-' || s[0] == '+') then
      var digits := s[1..];
      if |digits| > 0 && AllDigits(digits) then
        var v: int := DigitsValue(digits);
        Some(if s[0] == '-' then -v else v)
      else None
    else if |s| > 0 && AllDigits(s) then Some(DigitsValue(s))
    else None
  }

  lemma {:induction false} NatToDecimalValue(n: nat)
    ensures DigitsValue(NatToDecimal(n)) == n
  {
    var s := NatToDecimal(n);
    if n >= 10 {
      NatToDecimalValue(n / 10);
      assert s[..|s| - 1] == NatToDecimal(n / 10);
    }
  }

  /** Reading back the rendering of `n` gives `n`. */
  lemma IntToDecimalRoundTrip(n: int)
    ensures ParseInt(IntToDecimal(n)) == Some(n)
  {
    var s := IntToDecimal(n);
    if n < 0 {
      var digits := NatToDecimal(-n);
      assert s == "-" + digits;
      assert s[1..] == digits;
      NatToDecimalValue(-n);
    } else {
      assert IsDigit(s[0]);
      NatToDecimalValue(n);
    }
  }

  /** Distinct integers have distinct renderings. */
  lemma IntToDecimalInjective(a: int, b: int)
    ensures IntToDecimal(a) == IntToDecimal(b) <==> a == b
  {
    IntToDecimalRoundTrip(a);
    IntToDecimalRoundTrip(b);
  }
}
