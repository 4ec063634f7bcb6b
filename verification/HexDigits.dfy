/** The digits of hex_chars. */
module HexDigits {
  import opened Octets

  const HEX_DIGITS := "0123456789abcdef"

  predicate LowHex(b: Byte) {
    b as char in HEX_DIGITS
  }

  /** What a digit is worth. */
  function Worth(b: Byte): (n: nat)
    requires LowHex(b)
    ensures n < 16 && HEX_DIGITS[n] == b as char
  {
    if b as char <= '9' then b - 48 else b - 87
  }

  lemma HexCharIs(n: nat)
    requires n < 16
    ensures HexChar(n) as char == HEX_DIGITS[n] && LowHex(HexChar(n)) && Worth(HexChar(n)) == n
  {
    assert HEX_DIGITS[n] in HEX_DIGITS;
  }
}
