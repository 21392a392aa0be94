/**
 * The one-time password generator of src/utils/otp.js. The random draw
 * `Math.floor(Math.random() * (max - min + 1))` is a parameter `draw`.
 */
module Otp {
  import opened Wrappers
  import opened JsText

  const DefaultLength: nat := 6

  /** An omitted length takes the default. */
  function Length(len: Option<nat>): (l: nat)
    ensures len.None? ==> l == DefaultLength
    ensures len.Some? ==> l == len.value
  {
    len.GetOr(DefaultLength)
  }

  /** How many values the draw ranges over: `max - min + 1`, or 1 for length 0 (`floor(r * 0.9)` is 0). */
  function DrawRange(l: nat): (n: nat)
    ensures n >= 1
    ensures l == 0 ==> n == 1
    ensures l >= 1 ==> n == (Pow10(l) - 1) - Pow10(l - 1) + 1
  {
    if l == 0 then 1 else Pow10(l) - Pow10(l - 1)
  }

  /** `generate(len)`: `String(draw + 10 ** (len - 1))`; length 0 gives `0 + 0.1`, rendered "0.1". */
  function Generate(len: Option<nat>, draw: nat): (otp: string)
    requires draw < DrawRange(Length(len))
    ensures Length(len) >= 1 ==>
      |otp| == Length(len) && AllDigits(otp) && otp[0] != '0'
      && Pow10(Length(len) - 1) <= ParseDecimal(otp) < Pow10(Length(len))
    ensures Length(len) == 0 ==> otp == "0.1"
  {
    var l := Length(len);
    if l == 0 then "0.1"
    else
      var value := draw + Pow10(l - 1);
      DecimalLength(value, l);
      ParseDecimalOfDecimal(value);
      Decimal(value)
  }

  /** Different draws give different passwords. */
  lemma GenerateInjective(len: Option<nat>, d1: nat, d2: nat)
    requires Length(len) >= 1
    requires d1 < DrawRange(Length(len)) && d2 < DrawRange(Length(len))
    ensures Generate(len, d1) == Generate(len, d2) ==> d1 == d2
  {
    GeneratedValue(len, d1);
    GeneratedValue(len, d2);
    DecimalInjective(d1 + Pow10(Length(len) - 1), d2 + Pow10(Length(len) - 1));
  }

  lemma GeneratedValue(len: Option<nat>, d: nat)
    requires Length(len) >= 1 && d < DrawRange(Length(len))
    ensures Generate(len, d) == Decimal(d + Pow10(Length(len) - 1))
  {
  }
}
