/** Byte-level helpers shared by the header codecs: the byte type, Java's
    big-endian `ByteBuffer` reads (`get`, `getShort`, `getInt`) and writes
    (`put`, `putShort`, `putInt`), and the nibble extraction used for the
    version, IHL and TCP data-offset fields. */
module Wire {

  datatype Option<+T> = None | Some(value: T)

  /** One octet, as an unsigned value. Java's `byte` is signed; where the
      sign matters the functions below say so. */
  type byte = b: int | 0 <= b < 256

  const TWO_16: int := 65536
  const TWO_32: int := 4294967296

  /** `getShort() & 0xFFFF`: the unsigned big-endian value of two octets. */
  function U16(hi: byte, lo: byte): (r: int)
    ensures 0 <= r < TWO_16
    ensures r / 256 == hi && r % 256 == lo
  {
    hi * 256 + lo
  }

  /** `getShort()`: the same two octets read as a signed (two's complement) short. */
  function S16(hi: byte, lo: byte): (r: int)
    ensures -32768 <= r < 32768
    ensures (r - U16(hi, lo)) % TWO_16 == 0
    ensures r >= 0 <==> hi < 128
  {
    var u := U16(hi, lo);
    if u < 32768 then u else u - TWO_16
  }

  /** Four octets read big-endian as an unsigned 32-bit value. */
  function U32(b0: byte, b1: byte, b2: byte, b3: byte): (r: int)
    ensures 0 <= r < TWO_32
    ensures r / TWO_16 == U16(b0, b1) && r % TWO_16 == U16(b2, b3)
  {
    U16(b0, b1) * TWO_16 + U16(b2, b3)
  }

  /** `getInt()`: four octets read big-endian as a signed 32-bit int. */
  function S32(b0: byte, b1: byte, b2: byte, b3: byte): (r: int)
    ensures -2147483648 <= r < 2147483648
    ensures r >= 0 <==> b0 < 128
    ensures (r - U32(b0, b1, b2, b3)) % TWO_32 == 0
  {
    var u := U32(b0, b1, b2, b3);
    if u < 2147483648 then u else u - TWO_32
  }

  /** `putShort((short) n)`: the low 16 bits of `n`, high octet first. */
  function BE16(n: int): (r: seq<byte>)
    ensures |r| == 2
    ensures U16(r[0], r[1]) == n % TWO_16
  {
    var u := n % TWO_16;
    [u / 256, u % 256]
  }

  /** Writing a 16-bit value and reading it back with `getShort` gives the
      value again whenever it fits in a signed short. */
  lemma S16OfBE16(n: int)
    requires -32768 <= n < 32768
    ensures S16(BE16(n)[0], BE16(n)[1]) == n
  {
    var r := BE16(n);
    if n < 0 {
      assert n % TWO_16 == n + TWO_16;
    }
  }

  /** Reading two octets and writing them back with `putShort` reproduces them. */
  lemma BE16OfU16(hi: byte, lo: byte)
    ensures BE16(U16(hi, lo)) == [hi, lo]
  {
  }

  /** `(b >> 4) & 0x0F` on a Java byte. The byte is sign-extended to an
      `int` before the shift, but the mask keeps only bits 4..7, which sign
      extension leaves alone: the result is the unsigned high nibble, the
      number of whole sixteens in `b`. */
  function HighNibble(b: byte): (n: int)
    ensures 0 <= n < 16
    ensures 16 * n <= b < 16 * n + 16
  {
    if b < 16 then 0 else 1 + HighNibble(b - 16)
  }

  /** `b & 0x0F` on a Java byte: the low nibble, what is left of `b` after
      its high nibble. */
  function LowNibble(b: byte): (n: int)
    ensures 0 <= n < 16
    ensures b == 16 * HighNibble(b) + n
  {
    b - 16 * HighNibble(b)
  }

  /** `(b & mask) != 0` on a Java byte, for a mask below 0x80. */
  predicate BitSet(b: byte, mask: bv8)
  {
    (b as bv8) & mask != 0
  }
}
