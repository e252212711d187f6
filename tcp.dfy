/** The TCP header as `handleTcpPacket` reads it (field offsets of
    section 3.1 of RFC 793). */
module Tcp {
  import opened Wire

  /** An unsigned 16-bit port number. */
  type Port = n: int | 0 <= n < 65536

  const FIN: bv8 := 0x01
  const SYN: bv8 := 0x02
  const RST: bv8 := 0x04
  const ACK: bv8 := 0x10

  /** `handleTcpPacket` reads through the window field (octets 0..15);
      checksum and urgent pointer are never read. */
  const FIXED_BYTES_READ: int := 16

  datatype Flags = Flags(fin: bool, syn: bool, rst: bool, ack: bool)

  datatype Header = Header(
    srcPort: Port,
    dstPort: Port,
    seqNum: int,          // signed, as `getInt` reads it
    ackNum: int,          // signed, as `getInt` reads it
    headerLength: int,    // data offset * 4, in bytes
    flags: Flags,
    window: int)          // signed, as `getShort` reads it

  /** The four flags tested on octet 13. */
  function DecodeFlags(b: byte): (f: Flags)
    ensures f.fin <==> b % 2 == 1
    ensures f.syn <==> (b / 2) % 2 == 1
    ensures f.rst <==> (b / 4) % 2 == 1
    ensures f.ack <==> (b / 16) % 2 == 1
  {
    Flags(BitSet(b, FIN), BitSet(b, SYN), BitSet(b, RST), BitSet(b, ACK))
  }

  /** Decodes a segment. Fewer than 16 octets make the reads throw: `None`. */
  function Decode(seg: seq<byte>): (r: Option<Header>)
    ensures r.Some? <==> |seg| >= FIXED_BYTES_READ
    ensures r.Some? ==> r.value.srcPort == U16(seg[0], seg[1])
    ensures r.Some? ==> r.value.dstPort == U16(seg[2], seg[3])
    ensures r.Some? ==> 0 <= r.value.headerLength <= 60 && r.value.headerLength % 4 == 0
    ensures r.Some? ==> r.value.headerLength == 4 * HighNibble(seg[12])
    ensures r.Some? ==> r.value.seqNum == S32(seg[4], seg[5], seg[6], seg[7])
    ensures r.Some? ==> r.value.ackNum == S32(seg[8], seg[9], seg[10], seg[11])
    ensures r.Some? ==> r.value.flags == DecodeFlags(seg[13])
    ensures r.Some? ==> r.value.window == S16(seg[14], seg[15])
  {
    if |seg| < FIXED_BYTES_READ then None
    else Some(Header(
      U16(seg[0], seg[1]),
      U16(seg[2], seg[3]),
      S32(seg[4], seg[5], seg[6], seg[7]),
      S32(seg[8], seg[9], seg[10], seg[11]),
      HighNibble(seg[12]) * 4,
      DecodeFlags(seg[13]),
      S16(seg[14], seg[15])))
  }
}
