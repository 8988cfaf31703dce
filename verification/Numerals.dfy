/** Numbers as text, in any base up to sixteen. */
module Numerals {

  function DigitChar(d: nat): char
    requires d < 16
  {
    if d < 10 then ('0' as int + d) as char else ('a' as int + d - 10) as char
  }

  function Numeral(n: nat, base: nat): (text: string)
    requires 2 <= base <= 16
    ensures text != ""
  {
    if n < base then [DigitChar(n)] else Numeral(n / base, base) + [DigitChar(n % base)]
  }
}
