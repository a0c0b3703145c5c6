/**
 * The quantity fields of the add and edit dialogs show the quantity with
 * `Int.toString()` and turn whatever the user types back into a number with
 * `String.toIntOrNull() ?: 0`. This module models both conversions for
 * radix 10, including the 32-bit range of Kotlin's `Int`.
 */
module QuantityText {
  import opened Wrappers

  const IntMin: int := -0x8000_0000
  const IntMax: int := 0x7FFF_FFFF

  /** Kotlin's `Int`. */
  type Int32 = n: int | IntMin <= n <= IntMax

  predicate IsDigit(c: char) {
    '0' <= c <= '9'
  }

  predicate AllDigits(s: string) {
    forall i :: 0 <= i < |s| ==> IsDigit(s[i])
  }

  function DigitValue(c: char): nat
    requires IsDigit(c)
  {
    c as int - '0' as int
  }

  function DigitChar(d: nat): char
    requires d < 10
  {
    ('0' as int + d) as char
  }

  /** The value of a run of decimal digits, most significant digit first. */
  function DigitsValue(s: string): nat
    requires AllDigits(s)
  {
    if s == [] then 0 else DigitsValue(s[..|s| - 1]) * 10 + DigitValue(s[|s| - 1])
  }

  /**
   * Reference description of the texts `toIntOrNull` accepts as numerals:
   * an optional `+` or `-` followed by at least one digit.
   */
  function Unsigned(text: string): string {
    if |text| > 0 && (text[0] == '+' || text[0] == '-') then text[1..] else text
  }

  predicate IsNumeral(text: string) {
    |Unsigned(text)| > 0 && AllDigits(Unsigned(text))
  }

  /** The mathematical value of a numeral, before any range check. */
  function NumeralValue(text: string): int
    requires IsNumeral(text)
  {
    if text[0] == '-' then -(DigitsValue(Unsigned(text)) as int) else DigitsValue(Unsigned(text))
  }

  /** The digits after the sign (if any) read as a number of the given sign. */
  function ParseDigits(digits: string, negative: bool): Option<Int32> {
    if !AllDigits(digits) then None
    else
      var v: int := if negative then -(DigitsValue(digits) as int) else DigitsValue(digits);
      if IntMin <= v <= IntMax then Some(v) else None
  }

  /**
   * `String.toIntOrNull()`: a leading character below '0' may only be a sign
   * and must be followed by something; every other character must be a digit;
   * a value outside `Int` gives null. The result is a number exactly when the
   * text is a numeral whose value fits in an `Int`, and then it is that value.
   */
  function ToIntOrNull(text: string): (r: Option<Int32>)
    ensures r.Some? <==> IsNumeral(text) && IntMin <= NumeralValue(text) <= IntMax
    ensures r.Some? ==> r.value == NumeralValue(text)
  {
    if |text| == 0 then None
    else if text[0] < '0' then
      if |text| == 1 then None
      else if text[0] == '-' then ParseDigits(text[1..], true)
      else if text[0] == '+' then ParseDigits(text[1..], false)
      else None
    else ParseDigits(text, false)
  }

  /** `it.toIntOrNull() ?: 0`, the value a quantity field takes from its text. */
  function QuantityOf(text: string): (q: Int32)
    ensures !IsNumeral(text) ==> q == 0
    ensures IsNumeral(text) && !(IntMin <= NumeralValue(text) <= IntMax) ==> q == 0
    ensures IsNumeral(text) && IntMin <= NumeralValue(text) <= IntMax ==> q == NumeralValue(text)
  {
    match ToIntOrNull(text)
    case Some(n) => n
    case None => 0
  }

  /** The decimal digits of a natural number, without leading zeros. */
  function NatToDigits(n: nat): (s: string)
    ensures |s| > 0 && AllDigits(s)
    ensures DigitsValue(s) == n
    ensures s[0] == '0' ==> s == "0"
    decreases n
  {
    if n < 10 then [DigitChar(n)]
    else
      var prefix := NatToDigits(n / 10);
      var s := prefix + [DigitChar(n % 10)];
      assert s[..|s| - 1] == prefix;
      s
  }

  /** `Int.toString()`: a minus sign for negative numbers, then the digits. */
  function IntToString(n: int): (s: string)
    ensures IsNumeral(s) && NumeralValue(s) == n
    ensures s[0] == '-' <==> n < 0
    ensures s[0] != '+'
    ensures Unsigned(s)[0] == '0' ==> s == "0"
  {
    if n < 0 then "-" + NatToDigits(-n) else NatToDigits(n)
  }

  /**
   * A quantity field shows `quantity.toString()`; handing that text back to
   * `toIntOrNull() ?: 0` gives the same quantity, so a field the user leaves
   * as it is keeps its value.
   */
  lemma QuantityTextRoundTrip(q: Int32)
    ensures QuantityOf(IntToString(q)) == q
  {
    var s := IntToString(q);
    if q < 0 {
      assert s[0] == '-' && s[1..] == NatToDigits(-(q as int));
    } else {
      assert s == NatToDigits(q);
    }
  }
}
