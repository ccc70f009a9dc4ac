/** Fixed-width unsigned integers and the two byte orders the transports use.
    A uint16_t is written to a stream as its in-memory bytes; every host in this
    model is little-endian, so "native order" means little-endian. */
module Bytes {

  type u8 = x: int | 0 <= x < 0x100
  type u16 = x: int | 0 <= x < 0x1_0000

  /** UINT16_MAX: the largest payload a 16-bit length field can describe. */
  const U16_MAX: int := 0xFFFF

  function Lo(v: u16): u8 { v % 0x100 }
  function Hi(v: u16): u8 { v / 0x100 }

  /** The two bytes of a uint16_t as written by `write(&v, 2)` on a little-endian host. */
  function LE16(v: u16): (r: seq<u8>)
    ensures |r| == 2
  {
    [Lo(v), Hi(v)]
  }

  /** The uint16_t read back by `read(&v, 2)` on a little-endian host. */
  function FromLE16(b0: u8, b1: u8): u16
  {
    b0 + 0x100 * b1
  }

  /** Reading back the two bytes written gives the value written. */
  lemma LE16RoundTrip(v: u16)
    ensures FromLE16(LE16(v)[0], LE16(v)[1]) == v
  {
  }

  /** Every two bytes are the encoding of exactly the value they decode to. */
  lemma FromLE16RoundTrip(b0: u8, b1: u8)
    ensures LE16(FromLE16(b0, b1)) == [b0, b1]
  {
  }

  /** Network (big-endian) order: high byte first. */
  function BE16(v: u16): (r: seq<u8>)
    ensures |r| == 2
  {
    [Hi(v), Lo(v)]
  }

  function FromBE16(b0: u8, b1: u8): u16
  {
    0x100 * b0 + b1
  }

  lemma BE16RoundTrip(v: u16)
    ensures FromBE16(BE16(v)[0], BE16(v)[1]) == v
  {
  }

  /** `(uint16_t)((v << 8) | (v >> 8))`: exchange the two bytes of v. */
  function Swap16(v: u16): u16
  {
    Lo(v) * 0x100 + Hi(v)
  }

  /** The low byte of the swapped value is the high byte of the original and
      the other way round. */
  lemma Swap16Bytes(v: u16)
    ensures Lo(Swap16(v)) == Hi(v) && Hi(Swap16(v)) == Lo(v)
  {
  }

  /** Swapping twice gives back the original value. */
  lemma Swap16Involution(v: u16)
    ensures Swap16(Swap16(v)) == v
  {
    Swap16Bytes(v);
  }

  /** Reading two bytes into a uint16_t on a little-endian host and swapping
      them decodes the bytes in big-endian order. */
  lemma SwappedFromLEIsBE(b0: u8, b1: u8)
    ensures Swap16(FromLE16(b0, b1)) == FromBE16(b0, b1)
  {
  }

  /** Copying a swapped value into memory on a little-endian host lays the
      original value out in big-endian order. */
  lemma SwappedLEIsBE(v: u16)
    ensures LE16(Swap16(v)) == BE16(v)
  {
  }

  function Min(a: int, b: int): int { if a <= b then a else b }
}
