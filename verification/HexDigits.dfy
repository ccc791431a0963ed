/**
Hexadecimal digits: VTM_HEX_CHARS, and the values that the parsers give to the digits of either case.
*/
module HexDigits {
  import opened Wrappers
  import opened Bytes

  function HexChar(d: nat): (c: byte)
    requires d < 16
    ensures c != 0
  {
    if d < 10 then 48 + d else 55 + d
  }

  function HexValue(c: byte): (v: Option<nat>)
    ensures v.Some? ==> v.value < 16
  {
    if 48 <= c <= 57 then Some(c - 48)
    else if 65 <= c <= 70 then Some(c - 55)
    else if 97 <= c <= 102 then Some(c - 87)
    else None
  }
}
