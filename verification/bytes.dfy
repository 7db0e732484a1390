/** Bytes, network byte order and nibble packing. */
module Bytes {

  /** One octet of a packet buffer. */
  newtype byte = b: int | 0 <= b < 0x100

  const ByteModulus: nat := 0x100
  const U16Modulus: nat := 0x1_0000

  /** The host-order value of a big-endian 16-bit field (bpf_ntohs of two bytes). */
  function Be16(hi: byte, lo: byte): (v: nat)
    ensures v < U16Modulus
    ensures v / ByteModulus == hi as nat && v % ByteModulus == lo as nat
  {
    hi as nat * ByteModulus + lo as nat
  }

  /** The first (most significant) byte of a 16-bit value in network byte order. */
  function HiByte(v: nat): byte
    requires v < U16Modulus
  {
    (v / ByteModulus) as byte
  }

  /** The second (least significant) byte of a 16-bit value in network byte order. */
  function LoByte(v: nat): byte
  {
    (v % ByteModulus) as byte
  }

  /** Writing a 16-bit value in network byte order and reading it back gives the value. */
  lemma Be16OfBytes(v: nat)
    requires v < U16Modulus
    ensures Be16(HiByte(v), LoByte(v)) == v
  {
  }

  /** Reading two bytes as a 16-bit value and writing it back gives the same bytes. */
  lemma BytesOfBe16(hi: byte, lo: byte)
    ensures HiByte(Be16(hi, lo)) == hi && LoByte(Be16(hi, lo)) == lo
  {
  }

  /** The low four bits of a byte: where a little-endian compiler puts the
      first-declared 4-bit bitfield. */
  function LowNibble(b: byte): (n: nat)
    ensures n < 16
  {
    b as nat % 16
  }

  /** The high four bits of a byte. */
  function HighNibble(b: byte): (n: nat)
    ensures n < 16
  {
    b as nat / 16
  }

  /** The byte whose high nibble is `high` and low nibble is `low`. */
  function PackNibbles(high: nat, low: nat): (b: byte)
    requires high < 16 && low < 16
    ensures HighNibble(b) == high && LowNibble(b) == low
  {
    (high * 16 + low) as byte
  }

  /** Splitting a byte into nibbles and packing them again gives the byte back. */
  lemma PackNibblesOfByte(b: byte)
    ensures PackNibbles(HighNibble(b), LowNibble(b)) == b
  {
  }
}
