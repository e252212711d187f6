/** `buildIpPacket`: the packet written back to the tunnel for response
    bytes, a 20-octet IPv4 header and a 20-octet TCP header (no options,
    checksums left at zero) followed by the data. */
module ResponseBuilder {
  import opened Wire
  import Ipv4
  import Tcp

  const HEADERS_LENGTH: int := 40
  const VERSION_AND_IHL: byte := 0x45   // version 4, five 32-bit words
  const TTL: byte := 64
  const RESPONSE_SOURCE_PORT: int := 443
  const DATA_OFFSET: byte := 0x50       // five 32-bit words, no options
  const FLAGS_PSH_ACK: byte := 0x18
  const WINDOW: int := 8192

  /** The IPv4 half of the headers `buildIpPacket` writes (lines 321-333). */
  function IpHeader(src: Ipv4.Address, dst: Ipv4.Address, totalLength: int): (h: seq<byte>)
    ensures |h| == 20
    ensures h[0] == VERSION_AND_IHL && h[1] == 0
    ensures U16(h[2], h[3]) == totalLength % TWO_16
    ensures h[4..8] == [0, 0, 0, 0]
    ensures h[8] == TTL && h[9] == Ipv4.PROTOCOL_TCP
    ensures h[10] == 0 && h[11] == 0
    ensures h[12..16] == src && h[16..20] == dst
  {
    var length := BE16(totalLength);
    [VERSION_AND_IHL, 0, length[0], length[1],   // version/IHL, TOS, total length
     0, 0, 0, 0,                                 // identification, flags/fragment offset
     TTL, Ipv4.PROTOCOL_TCP, 0, 0,               // TTL, protocol, checksum
     src[0], src[1], src[2], src[3],
     dst[0], dst[1], dst[2], dst[3]]
  }

  /** The TCP half of the headers `buildIpPacket` writes (lines 335-344). */
  function TcpHeader(dstPort: int): (h: seq<byte>)
    ensures |h| == 20
    ensures U16(h[0], h[1]) == RESPONSE_SOURCE_PORT
    ensures U16(h[2], h[3]) == dstPort % TWO_16
    ensures h[4..12] == [0, 0, 0, 0, 0, 0, 0, 0]
    ensures h[12] == DATA_OFFSET && h[13] == FLAGS_PSH_ACK
    ensures U16(h[14], h[15]) == WINDOW
    ensures h[16..20] == [0, 0, 0, 0]
  {
    var source := BE16(RESPONSE_SOURCE_PORT);
    var dest := BE16(dstPort % TWO_16);
    var window := BE16(WINDOW);
    [source[0], source[1], dest[0], dest[1],
     0, 0, 0, 0,                                 // putInt(0): sequence number
     0, 0, 0, 0,                                 // putInt(0): acknowledgement number
     DATA_OFFSET, FLAGS_PSH_ACK, window[0], window[1],
     0, 0, 0, 0]                                 // checksum, urgent pointer
  }

  /** The octets `buildIpPacket(src, dst, srcPort, data)` puts into its
      buffer, in order. `(short)` casts keep the low 16 bits. */
  function BuildIpPacket(src: Ipv4.Address, dst: Ipv4.Address, srcPort: int, data: seq<byte>): (p: seq<byte>)
    ensures |p| == |data| + HEADERS_LENGTH
    ensures p[HEADERS_LENGTH..] == data
    ensures p[0] == VERSION_AND_IHL && p[1] == 0
    ensures U16(p[2], p[3]) == (|data| + HEADERS_LENGTH) % TWO_16
    ensures p[4..8] == [0, 0, 0, 0]
    ensures p[8] == TTL && p[9] == Ipv4.PROTOCOL_TCP
    ensures p[10] == 0 && p[11] == 0
    ensures p[12..16] == src && p[16..20] == dst
    ensures U16(p[20], p[21]) == RESPONSE_SOURCE_PORT
    ensures U16(p[22], p[23]) == srcPort % TWO_16
    ensures p[24..32] == [0, 0, 0, 0, 0, 0, 0, 0]
    ensures p[32] == DATA_OFFSET && p[33] == FLAGS_PSH_ACK
    ensures U16(p[34], p[35]) == WINDOW
    ensures p[36..40] == [0, 0, 0, 0]
  {
    var ip := IpHeader(src, dst, |data| + HEADERS_LENGTH);
    var tcp := TcpHeader(srcPort);
    var p := ip + tcp + data;
    assert p[..20] == ip && p[20..40] == tcp && p[40..] == data;
    assert p[4..8] == ip[4..8] && p[12..16] == ip[12..16] && p[16..20] == ip[16..20];
    assert p[24..32] == tcp[4..12] && p[36..40] == tcp[16..20];
    p
  }

  /** The headers of a built packet read back, by the same decoders the
      engine applies to tunnel traffic, as exactly the values written:
      version 4, a 20-octet IPv4 header, TTL 64, TCP, the two addresses,
      port 443 to `srcPort`, zero sequence and acknowledgement numbers, a
      20-octet TCP header, only ACK among the decoded flags, window 8192.
      The total length reads back as written while it fits a signed short. */
  lemma DecodeBuiltHeaders(src: Ipv4.Address, dst: Ipv4.Address, srcPort: int, data: seq<byte>)
    ensures var p := BuildIpPacket(src, dst, srcPort, data);
      && Ipv4.Version(p) == 4
      && Ipv4.Decode(p).Some?
      && Ipv4.Decode(p).value.headerLength == 20
      && Ipv4.Decode(p).value.ttl == TTL
      && Ipv4.Decode(p).value.protocol == Ipv4.PROTOCOL_TCP
      && Ipv4.Decode(p).value.src == src
      && Ipv4.Decode(p).value.dst == dst
      && (|data| + HEADERS_LENGTH < 32768 ==> Ipv4.Decode(p).value.totalLength == |data| + HEADERS_LENGTH)
      && Tcp.Decode(p[20..]) == Some(Tcp.Header(
           RESPONSE_SOURCE_PORT, srcPort % TWO_16, 0, 0, 20,
           Tcp.Flags(false, false, false, true), WINDOW))
  {
    var p := BuildIpPacket(src, dst, srcPort, data);
    if |data| + HEADERS_LENGTH < 32768 {
      BE16OfU16(p[2], p[3]);
      S16OfBE16(|data| + HEADERS_LENGTH);
    }
    DecodeBuiltTcpHeader(p, srcPort);
  }

  /** The TCP half of `DecodeBuiltHeaders`, stated on the octets
      `BuildIpPacket` guarantees at offsets 20..39. */
  lemma DecodeBuiltTcpHeader(p: seq<byte>, srcPort: int)
    requires |p| >= HEADERS_LENGTH
    requires U16(p[20], p[21]) == RESPONSE_SOURCE_PORT
    requires U16(p[22], p[23]) == srcPort % TWO_16
    requires p[24..32] == [0, 0, 0, 0, 0, 0, 0, 0]
    requires p[32] == DATA_OFFSET && p[33] == FLAGS_PSH_ACK
    requires U16(p[34], p[35]) == WINDOW
    ensures Tcp.Decode(p[20..]) == Some(Tcp.Header(
      RESPONSE_SOURCE_PORT, srcPort % TWO_16, 0, 0, 20,
      Tcp.Flags(false, false, false, true), WINDOW))
  {
    var seg := p[20..];
    assert seg[..16] == p[20..36];
    assert p[24] == 0 && p[25] == 0 && p[26] == 0 && p[27] == 0;
    assert p[28] == 0 && p[29] == 0 && p[30] == 0 && p[31] == 0;
  }
}
