/** The fixed part of the IPv4 header as `handlePacket` and
    `handleIPv4Packet` read it (field offsets of section 3.1 of RFC 791). */
module Ipv4 {
  import opened Wire

  /** A four-octet IPv4 address, as `InetAddress.getAddress()` returns it. */
  type Address = s: seq<byte> | |s| == 4 witness [0, 0, 0, 0]

  /** The protocol number of TCP in the IPv4 protocol field. */
  const PROTOCOL_TCP: byte := 6

  /** `handleIPv4Packet` reads up to the end of the destination address
      before it looks at anything it decoded. */
  const FIXED_BYTES_READ: int := 20

  /** What `handleIPv4Packet` decodes. Options are skipped, never parsed. */
  datatype Header = Header(
    headerLength: int,   // IHL * 4, in bytes
    totalLength: int,    // a signed short, as `getShort` reads it
    ttl: byte,
    protocol: byte,
    src: Address,
    dst: Address)

  /** The IP version: the high nibble of octet 0. */
  function Version(p: seq<byte>): (v: int)
    requires |p| > 0
    ensures 0 <= v < 16
    ensures v * 16 <= p[0] < v * 16 + 16
  {
    HighNibble(p[0])
  }

  /** Decodes the fixed header. A buffer too short for the 20 octets read
      makes the `ByteBuffer` reads throw; that is `None` here. */
  function Decode(p: seq<byte>): (r: Option<Header>)
    ensures r.Some? <==> |p| >= FIXED_BYTES_READ
    ensures r.Some? ==> 0 <= r.value.headerLength <= 60 && r.value.headerLength % 4 == 0
    ensures r.Some? ==> r.value.headerLength == 4 * LowNibble(p[0])
    ensures r.Some? ==> -32768 <= r.value.totalLength < 32768
    ensures r.Some? ==> (r.value.totalLength - U16(p[2], p[3])) % TWO_16 == 0
    ensures r.Some? ==> r.value.ttl == p[8] && r.value.protocol == p[9]
    ensures r.Some? ==> r.value.src == p[12..16] && r.value.dst == p[16..20]
  {
    if |p| < FIXED_BYTES_READ then None
    else Some(Header(
      LowNibble(p[0]) * 4,
      S16(p[2], p[3]),
      p[8],
      p[9],
      p[12..16],
      p[16..20]))
  }
}
