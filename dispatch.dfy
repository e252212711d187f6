/** The per-packet decision of `handlePacket`, `handleIPv4Packet`,
    `handleTcpPacket` and `handleHttpsConnection`: which packets reach the
    relay table, under which flow key, and which octets are forwarded. */
module Dispatch {
  import opened Wire
  import Ipv4
  import Tcp
  import ResponseBuilder

  /** The one destination port whose traffic is relayed. */
  const HTTPS_PORT: int := 443

  /** The connection key `%s:%d-%s:%d` of source address and port,
      destination address and port, kept as the tuple it renders. */
  datatype FlowKey = FlowKey(srcAddr: Ipv4.Address, srcPort: Tcp.Port, dstAddr: Ipv4.Address, dstPort: Tcp.Port)

  /** Why a packet has no effect: it is logged (IPv6), ignored, or its
      decoding threw and the exception was caught in `handlePacket`. */
  datatype DropReason = Ipv6NotImplemented | UnknownVersion | Truncated | NotTcp | NotHttps

  /** `Relay` reaches `computeIfAbsent` for `key`; its `payload` is what is
      then copied out and handed to `forwardData`, if anything. */
  datatype Verdict =
    | Drop(reason: DropReason)
    | Relay(key: FlowKey, tcp: Tcp.Header, payloadStart: int, payload: Option<seq<byte>>)

  /** The data of a TCP segment: `dataLength = tcpLength - tcpHeaderLength`
      octets after the TCP header. Nothing is forwarded when `dataLength` is
      not positive, and `position`/`get` throw when the segment is shorter
      than the header or than the data it claims. */
  function Payload(segment: seq<byte>, tcpLength: int, tcpHeaderLength: int): (r: Option<seq<byte>>)
    requires 0 <= tcpHeaderLength
    ensures r.Some? <==> tcpHeaderLength < tcpLength <= |segment|
    ensures r.Some? ==> |r.value| == tcpLength - tcpHeaderLength
    ensures r.Some? ==> forall i | 0 <= i < |r.value| :: r.value[i] == segment[tcpHeaderLength + i]
  {
    var dataLength := tcpLength - tcpHeaderLength;
    if tcpHeaderLength > |segment| then None
    else if dataLength <= 0 then None
    else if dataLength > |segment| - tcpHeaderLength then None
    else Some(segment[tcpHeaderLength..tcpHeaderLength + dataLength])
  }

  /** The 4-tuple of a packet that decodes as IPv4 carrying TCP, whatever
      its ports: the addresses of octets 12..19 and the ports at the start
      of the segment, which begins IHL * 4 octets in. */
  function Flow(p: seq<byte>): (r: Option<FlowKey>)
    ensures r.Some? ==> |p| >= Ipv4.FIXED_BYTES_READ && Ipv4.Version(p) == 4 && p[9] == Ipv4.PROTOCOL_TCP
    ensures r.Some? ==> r.value.srcAddr == p[12..16] && r.value.dstAddr == p[16..20]
    ensures r.Some? ==> var ihl := 4 * LowNibble(p[0]);
      && ihl + Tcp.FIXED_BYTES_READ <= |p|
      && r.value.srcPort == U16(p[ihl], p[ihl + 1])
      && r.value.dstPort == U16(p[ihl + 2], p[ihl + 3])
    ensures
      && |p| >= Ipv4.FIXED_BYTES_READ && Ipv4.Version(p) == 4 && p[9] == Ipv4.PROTOCOL_TCP
      && 4 * LowNibble(p[0]) + Tcp.FIXED_BYTES_READ <= |p|
      ==> r.Some?
  {
    if |p| == 0 || Ipv4.Version(p) != 4 then None
    else match Ipv4.Decode(p)
      case None => None
      case Some(ip) =>
        if ip.protocol != Ipv4.PROTOCOL_TCP || ip.headerLength > |p| then None
        else match Tcp.Decode(p[ip.headerLength..])
          case None => None
          case Some(tcp) => Some(FlowKey(ip.src, tcp.srcPort, ip.dst, tcp.dstPort))
  }

  /** What the engine does with one packet read from the tunnel. The read
      loop only calls this for a read of at least one octet. */
  function Classify(p: seq<byte>): (v: Verdict)
    requires |p| > 0
    ensures v == Drop(Ipv6NotImplemented) <==> Ipv4.Version(p) == 6
    ensures v == Drop(UnknownVersion) <==> Ipv4.Version(p) != 4 && Ipv4.Version(p) != 6
    ensures v.Relay? <==> Flow(p).Some? && Flow(p).value.dstPort == HTTPS_PORT
    ensures v.Relay? ==> v.key == Flow(p).value
    ensures v.Relay? ==> var ihl := 4 * LowNibble(p[0]);
      && Tcp.Decode(p[ihl..]) == Some(v.tcp)
      && v.payloadStart == ihl + v.tcp.headerLength
      && v.payload == Payload(p[ihl..], Ipv4.Decode(p).value.totalLength - ihl, v.tcp.headerLength)
    ensures v.Relay? && v.payload.Some? ==>
      && 0 <= v.payloadStart
      && v.payloadStart + |v.payload.value| <= |p|
      && v.payload.value == p[v.payloadStart..v.payloadStart + |v.payload.value|]
  {
    var version := Ipv4.Version(p);
    if version == 6 then Drop(Ipv6NotImplemented)
    else if version != 4 then Drop(UnknownVersion)
    else match Ipv4.Decode(p)
      case None => Drop(Truncated)
      case Some(ip) =>
        if ip.protocol != Ipv4.PROTOCOL_TCP then Drop(NotTcp)
        else if ip.headerLength > |p| then Drop(Truncated)
        else
          var segment := p[ip.headerLength..];
          match Tcp.Decode(segment)
          case None => Drop(Truncated)
          case Some(tcp) =>
            if tcp.dstPort != HTTPS_PORT then Drop(NotHttps)
            else Relay(
              FlowKey(ip.src, tcp.srcPort, ip.dst, tcp.dstPort),
              tcp,
              ip.headerLength + tcp.headerLength,
              Payload(segment, ip.totalLength - ip.headerLength, tcp.headerLength))
  }

  /** The same flow seen from the other end. */
  function Reversed(k: FlowKey): FlowKey
  {
    FlowKey(k.dstAddr, k.dstPort, k.srcAddr, k.srcPort)
  }

  /** `sendResponseToVpn`: the peer's address becomes the source, the
      original source address the destination, and the original source
      port the destination port. */
  function ReplyPacket(k: FlowKey, data: seq<byte>): (p: seq<byte>)
    ensures |p| == |data| + ResponseBuilder.HEADERS_LENGTH
  {
    ResponseBuilder.BuildIpPacket(k.dstAddr, k.srcAddr, k.srcPort, data)
  }

  /** A reply for a relayed flow decodes as that flow reversed: from the
      peer, port 443, back to the original source address and port. */
  lemma ReplyTravelsReversedFlow(k: FlowKey, data: seq<byte>)
    requires k.dstPort == HTTPS_PORT
    ensures Flow(ReplyPacket(k, data)) == Some(Reversed(k))
  {
    assert k.srcPort % TWO_16 == k.srcPort;
    var p := ReplyPacket(k, data);
    ResponseBuilder.DecodeBuiltHeaders(k.dstAddr, k.srcAddr, k.srcPort, data);
    var ip := Ipv4.Decode(p).value;
    assert ip.headerLength == 20 && ip.protocol == Ipv4.PROTOCOL_TCP;
    var tcp := Tcp.Decode(p[20..]).value;
    assert tcp.srcPort == HTTPS_PORT && tcp.dstPort == k.srcPort;
    assert Flow(p) == Some(FlowKey(ip.src, tcp.srcPort, ip.dst, tcp.dstPort));
  }

  /** The data of a reply reads back exactly, as long as the total length
      fits the signed short that `getShort` returns; a reply whose total
      length is 32768 or more reads back a negative total length, so no
      data. Replies are built from reads of at most 32767 octets, so the
      total length never wraps past 16 bits. */
  lemma ReplyCarriesData(k: FlowKey, data: seq<byte>)
    requires |data| + ResponseBuilder.HEADERS_LENGTH < TWO_16
    ensures var r := ReplyPacket(k, data);
      && Ipv4.Decode(r).Some?
      && Payload(r[20..], Ipv4.Decode(r).value.totalLength - 20, 20)
         == if 0 < |data| && |data| + ResponseBuilder.HEADERS_LENGTH < 32768 then Some(data) else None
  {
    var n := |data| + ResponseBuilder.HEADERS_LENGTH;
    assert n % TWO_16 == n;
    var r := ReplyPacket(k, data);
    ResponseBuilder.DecodeBuiltHeaders(k.dstAddr, k.srcAddr, k.srcPort, data);
    if n < 32768 {
      assert r[20..][20..20 + |data|] == data;
    } else {
      assert U16(r[2], r[3]) == n;
      assert Ipv4.Decode(r).value.totalLength < 0;
    }
  }
}
