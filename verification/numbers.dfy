/** Decimal numerals: the host's `parseFloat` on a number token, and the
    host's rendering of a number as text when it is concatenated to a string.

    Numbers are exact rationals (`real`); a value the host would print with
    an exponent or a fraction is reported as unsupported rather than
    approximated.
 */
module Numbers {
  import opened Wrappers
  import Lexer

  function DigitValue(c: char): (d: nat)
    requires Lexer.IsDigit(c)
    ensures d < 10
  {
    (c as int) - ('0' as int)
  }

  function DigitChar(d: nat): (c: char)
    requires d < 10
    ensures Lexer.IsDigit(c) && DigitValue(c) == d
  {
    (('0' as int) + d) as char
  }

  predicate AllDigits(s: string) {
    forall i :: 0 <= i < |s| ==> Lexer.IsDigit(s[i])
  }

  /** The value of a run of decimal digits, most significant first. */
  function DigitsValue(s: string): (v: nat)
    requires AllDigits(s)
    ensures |s| == 0 ==> v == 0
    decreases |s|
  {
    if |s| == 0 then 0 else DigitsValue(s[..|s| - 1]) * 10 + DigitValue(s[|s| - 1])
  }

  function Pow10(k: nat): (p: nat)
    ensures p >= 1
  {
    if k == 0 then 1 else 10 * Pow10(k - 1)
  }

  /** `parseFloat` on text made of digits and dots: the longest prefix of
      the form `digits[.digits]` is read and the rest ignored, so `1.2.3`
      reads as 1.2 and `7.` as 7. Text that does not start with a digit
      would read as NaN, which the model does not cover. */
  function ParseFloat(s: string): (r: Result<real>)
    ensures r.Ok? <==> |s| > 0 && Lexer.IsDigit(s[0])
    ensures r.Ok? ==> r.value >= 0.0
  {
    var k := Lexer.Span(s, Lexer.IsDigit);
    if k == 0 then Err(Unsupported("parseFloat yielding NaN"))
    else
      var whole := DigitsValue(s[..k]);
      if k < |s| && s[k] == '.' then
        var tail := s[k + 1..];
        var m := Lexer.Span(tail, Lexer.IsDigit);
        Ok(whole as real + (DigitsValue(tail[..m]) as real) / (Pow10(m) as real))
      else Ok(whole as real)
  }

  /** The decimal numeral of a natural number, without leading zeros. */
  function DecimalText(n: nat): (s: string)
    ensures |s| > 0 && AllDigits(s)
    ensures |s| > 1 ==> s[0] != '0'
    decreases n
  {
    if n < 10 then [DigitChar(n)] else DecimalText(n / 10) + [DigitChar(n % 10)]
  }

  /** Reading back the numeral of `n` gives `n`. */
  lemma {:induction false} DecimalValue(n: nat)
    ensures DigitsValue(DecimalText(n)) == n
    decreases n
  {
    var s := DecimalText(n);
    if n >= 10 {
      DecimalValue(n / 10);
      assert s[..|s| - 1] == DecimalText(n / 10);
    }
  }

  /** `parseFloat` inverts the rendering of whole numbers. */
  lemma ParseDecimal(n: nat)
    ensures ParseFloat(DecimalText(n)) == Ok(n as real)
  {
    var s := DecimalText(n);
    var k := Lexer.Span(s, Lexer.IsDigit);
    assert AllDigits(s);
    assert s[..k] == s;
    DecimalValue(n);
  }

  predicate IsWhole(x: real) {
    x == x.Floor as real
  }

  /** The largest magnitude below which the host prints a whole number
      digit by digit rather than with an exponent (10^21). */
  const EXPONENT_THRESHOLD: int := 1_000_000_000_000_000_000_000

  /** The host's text of a number: whole numbers below 10^21 in magnitude as
      plain decimals with a leading `-` when negative. */
  function NumberText(x: real): (r: Result<string>)
    ensures r.Ok? <==> IsWhole(x) && -EXPONENT_THRESHOLD < x.Floor < EXPONENT_THRESHOLD
    ensures r.Ok? && x >= 0.0 ==> ParseFloat(r.value) == Ok(x)
    ensures r.Ok? && x < 0.0 ==> |r.value| > 1 && r.value[0] == '-' && ParseFloat(r.value[1..]) == Ok(-x)
  {
    if !IsWhole(x) || x.Floor <= -EXPONENT_THRESHOLD || x.Floor >= EXPONENT_THRESHOLD then
      Err(Unsupported("fractional or exponent number text"))
    else if x >= 0.0 then
      ParseDecimal(x.Floor);
      Ok(DecimalText(x.Floor))
    else
      ParseDecimal(-x.Floor);
      assert (['-'] + DecimalText(-x.Floor))[1..] == DecimalText(-x.Floor);
      Ok(['-'] + DecimalText(-x.Floor))
  }
}
