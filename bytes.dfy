/** Bytes, the bit masks the record codec applies to them, and the big-endian
    16-bit conversions of the endianness helpers (`Endian::be_to_host`,
    `Endian::host_to_be`). A byte is its unsigned value; each mask is written
    as the arithmetic it performs on that value. */
module Bytes {

  type byte = b: int | 0 <= b < 256

  /** `b & 0xc0` shifted down: the two top bits of `b` as a number 0..3. */
  function TopBits(b: byte): (t: nat)
    ensures t < 4 && b == t * 64 + LowBits(b)
  {
    b / 64
  }

  /** `b & 0x3f`: the six low bits of `b`. */
  function LowBits(b: byte): (l: nat)
    ensures l < 64
  {
    b % 64
  }

  /** `b | 0xc0`: `b` with both top bits set. */
  function SetTopBits(b: byte): (r: byte)
    ensures TopBits(r) == 3 && LowBits(r) == LowBits(b)
    ensures r == b <==> TopBits(b) == 3
  {
    0xC0 + b % 64
  }

  /** The host value of a 16-bit field whose wire bytes are `hi`, `lo`. */
  function BeUint16(hi: byte, lo: byte): (v: nat)
    ensures v < 0x1_0000
  {
    hi * 256 + lo
  }

  /** The two wire bytes of the 16-bit host value `v`, most significant first. */
  function BeBytes16(v: nat): (w: seq<byte>)
    requires v < 0x1_0000
    ensures |w| == 2 && BeUint16(w[0], w[1]) == v
  {
    [v / 256, v % 256]
  }

  /** Reading two bytes and writing the value back gives the same bytes. */
  lemma BytesOfBeUint16(hi: byte, lo: byte)
    ensures BeBytes16(BeUint16(hi, lo)) == [hi, lo]
  {
    var v := hi * 256 + lo;
    assert v / 256 == hi && v % 256 == lo;
  }
}
