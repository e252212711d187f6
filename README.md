# VpnRunnable packet relay, modelled in Dafny

`VpnRunnable` is the packet pump behind the app's VPN service. It reads raw
IP packets from the tunnel device into one reused 32767-octet buffer. It
decodes each packet's IPv4 header and TCP header. It passes TCP segments
bound for port 443 to a per-flow `TcpConnection` kept in a table keyed by
the flow's 4-tuple. It writes responses back to the tunnel as freshly built
IPv4/TCP packets, with the flow's direction reversed. On shutdown it closes
every connection and clears the table.

The model has six modules:

- `Wire` (`wire.dfy`) covers octets and Java's big-endian `ByteBuffer` reads
  and writes, signed and unsigned. It also holds the nibble arithmetic of
  `(b >> 4) & 0x0F` and `b & 0x0F`.
- `Ipv4` (`ipv4.dfy`) and `Tcp` (`tcp.dfy`) decode headers the way
  `handleIPv4Packet` and `handleTcpPacket` read them. The field offsets are
  those of section 3.1 of RFC 791 and section 3.1 of RFC 793. A read past
  the end of the buffer throws in Java; here it returns `None`.
- `Dispatch` (`dispatch.dfy`) holds the per-packet decision: drop, with a
  reason, or relay under a flow key, with the payload to forward if there is
  one. It also builds the reply packet for a flow.
- `ResponseBuilder` (`response_builder.dfy`) holds `buildIpPacket`: every
  octet it writes, and what the decoders read back from it.
- `Engine` (`engine.dfy`) holds the classes `VpnRunnable` and
  `TcpConnection`. They cover:
  - the table as a `map` field;
  - `computeIfAbsent`, `close` and `cleanup`;
  - the read loop over the reused buffer;
  - the copy of each payload out of that buffer.

  Each task handed to the executor is recorded, in order, in the
  `dispatched` queue.

In three places a reader might expect more checking than the code does.
The model follows the code:

- **Truncation.** One might expect a buffer shorter than the header length
  it claims to be rejected as truncated. The code checks no lengths. It
  fails only when a read throws:
  - the IPv4 decode reads 20 octets;
  - the TCP decode reads 16 octets, through the window field;
  - `position(headerLength)` throws past the end of the buffer;
  - copying a payload longer than what remains throws.

  So a packet to port 443 whose TCP data offset reaches past the end of
  the segment still gets its table entry: `computeIfAbsent` at line 171
  runs before `position(tcpHeaderLength)` throws at line 178. Nothing is
  forwarded for it. An IHL below 5 is accepted too, and then the segment
  starts inside the IPv4 header.
- **Table before payload.** One might expect the flow to be resolved and
  the payload forwarded as one step. The code creates the table entry
  first. A packet whose payload copy then throws still leaves a connection
  in the table. So does a packet with no payload, such as a SYN.
- **Signed lengths.** The total length is read with a signed `getShort`. A
  total length of 32768 or more reads back negative, and such a packet
  forwards nothing.

## Model

All source paths are under `app/src/main/java/com/github/uiautomator/`.

| member | source | states |
|---|---|---|
| Wire.U16 | app/src/main/java/com/github/uiautomator/VpnRunnable.java:131-132 | `getShort() & 0xFFFF` is an unsigned port in 0..65535 whose high octet is the first octet read and whose low octet is the second |
| Wire.S16 | app/src/main/java/com/github/uiautomator/VpnRunnable.java:91 | `getShort()` lies in -32768..32767, agrees with the unsigned value modulo 2^16, and is negative exactly when the high octet's top bit is set |
| Wire.S32 | app/src/main/java/com/github/uiautomator/VpnRunnable.java:135-138 | `getInt()` lies in the signed 32-bit range, agrees with the unsigned value modulo 2^32, and is negative exactly when the first octet's top bit is set |
| Wire.U32 | app/src/main/java/com/github/uiautomator/VpnRunnable.java:135-138 | four octets read big-endian: the high 16 bits are the first two octets and the low 16 bits the last two |
| Wire.BE16 | app/src/main/java/com/github/uiautomator/VpnRunnable.java:324-329 | `putShort((short) n)` writes two octets that read back, unsigned, as `n` modulo 2^16 |
| Wire.S16OfBE16 | app/src/main/java/com/github/uiautomator/VpnRunnable.java:324 | a value written with `putShort` and read with `getShort` comes back unchanged whenever it fits a signed short |
| Wire.BE16OfU16 | app/src/main/java/com/github/uiautomator/VpnRunnable.java:336-337 | two octets read as an unsigned short and written back with `putShort` are reproduced |
| Wire.HighNibble | app/src/main/java/com/github/uiautomator/VpnRunnable.java:142 | `(b >> 4) & 0x0F` on a sign-extended byte is the unsigned high nibble: the `n` in 0..15 with `16n <= b < 16n + 16` |
| Wire.LowNibble | app/src/main/java/com/github/uiautomator/VpnRunnable.java:85 | `b & 0x0F` is the `n` in 0..15 with `b == 16 * HighNibble(b) + n` |
| Ipv4.Version | app/src/main/java/com/github/uiautomator/VpnRunnable.java:66-67 | the version is the high nibble of octet 0: a value in 0..15 whose sixteen-fold bounds octet 0 |
| Ipv4.Decode | app/src/main/java/com/github/uiautomator/VpnRunnable.java:79-113 | decoding succeeds exactly when 20 octets can be read. The header length is 4 times the low nibble of octet 0, a multiple of 4 in 0..60. The total length is octets 2-3 read as a signed short. TTL is octet 8 and protocol octet 9. The addresses are octets 12-15 and 16-19 |
| Tcp.DecodeFlags | app/src/main/java/com/github/uiautomator/VpnRunnable.java:144-148 | FIN, SYN, RST and ACK are exactly bits 0x01, 0x02, 0x04 and 0x10 of the flags octet |
| Tcp.Decode | app/src/main/java/com/github/uiautomator/VpnRunnable.java:128-151 | decoding succeeds exactly when the 16 octets through the window can be read. The ports are octets 0-1 and 2-3 read unsigned. The sequence and acknowledgement numbers are octets 4-7 and 8-11 read as signed ints. The header length is 4 times the high nibble of octet 12, a multiple of 4 in 0..60. The flags come from octet 13. The window is octets 14-15 read as a signed short |
| Dispatch.Payload | app/src/main/java/com/github/uiautomator/VpnRunnable.java:177-183 | a payload exists exactly when `tcpHeaderLength < tcpLength <= |segment|`, so `dataLength > 0` and the copy does not underflow. It then has `tcpLength - tcpHeaderLength` octets, and each is the segment octet at the same offset past the header |
| Dispatch.Flow | app/src/main/java/com/github/uiautomator/VpnRunnable.java:79-132 | a flow key exists exactly when the packet has version 4, protocol 6, at least 20 octets, and 16 TCP octets after the first 4 * IHL. Its addresses are octets 12-15 and 16-19. Its ports are read from the segment that starts 4 * IHL octets in |
| Dispatch.Classify | app/src/main/java/com/github/uiautomator/VpnRunnable.java:63-183 | version 6 is dropped as not implemented, and versions other than 4 or 6 are dropped as unknown. A packet is relayed exactly when it has a flow key whose destination port is 443. A relayed packet's key is that flow. Its TCP header is the decode of the segment. Its payload is the data slice with `tcpLength = totalLength - headerLength`, and it lies in the packet at `payloadStart` |
| Dispatch.ReplyPacket | app/src/main/java/com/github/uiautomator/VpnRunnable.java:256-259 | the reply for a flow is 40 octets of headers plus the data |
| Dispatch.ReplyTravelsReversedFlow | app/src/main/java/com/github/uiautomator/VpnRunnable.java:317-337 | the reply built at line 259 for a relayed flow decodes, with the engine's own decoders, as that flow reversed: from the peer at port 443 back to the original source address and port |
| Dispatch.ReplyCarriesData | app/src/main/java/com/github/uiautomator/VpnRunnable.java:319-347 | the engine's payload extraction applied to a reply gives back exactly the data written, whenever the data is non-empty and the total length fits a signed short. Otherwise it gives nothing |
| ResponseBuilder.IpHeader | app/src/main/java/com/github/uiautomator/VpnRunnable.java:321-333 | the IPv4 header is 20 octets: 0x45, 0, the total length modulo 2^16, a zero ID and fragment field, TTL 64, protocol 6, a zero checksum, then the source and destination addresses |
| ResponseBuilder.TcpHeader | app/src/main/java/com/github/uiautomator/VpnRunnable.java:335-344 | the TCP header is 20 octets: source port 443, the destination port modulo 2^16, zero sequence and acknowledgement numbers, 0x50, 0x18, window 8192, a zero checksum and urgent pointer |
| ResponseBuilder.BuildIpPacket | app/src/main/java/com/github/uiautomator/VpnRunnable.java:317-351 | the packet is `|data| + 40` octets: 0x45, 0, the total length modulo 2^16, a zero ID and fragment field, TTL 64, protocol 6, a zero checksum, the two addresses, source port 443, destination port `srcPort & 0xFFFF`, zero sequence and acknowledgement numbers, 0x50, 0x18, window 8192, a zero checksum and urgent pointer, then the data unchanged |
| ResponseBuilder.DecodeBuiltHeaders | app/src/main/java/com/github/uiautomator/VpnRunnable.java:319-344 | the built headers decode back to the values written. The fields are version 4, header length 20, TTL, protocol, both addresses, both ports, zero sequence and acknowledgement numbers, a 20-octet TCP header, only ACK among the decoded flags, and window 8192. The total length reads back while it fits a signed short |
| Engine.PacketForwards | app/src/main/java/com/github/uiautomator/VpnRunnable.java:49-54 | one read forwards at most one payload. It forwards one exactly when the read is non-empty, relayed and carries a payload. What it forwards is that payload, which is non-empty, for the packet's flow |
| Engine.Forwarded | app/src/main/java/com/github/uiautomator/VpnRunnable.java:46-55 | a run of reads forwards at most one payload per read, and never an empty one |
| Engine.ForwardedConcat | app/src/main/java/com/github/uiautomator/VpnRunnable.java:46-55 | the payloads of two stretches of reads are forwarded one after the other, each to its flow, in arrival order |
| Engine.ForwardedToRelayedFlows | app/src/main/java/com/github/uiautomator/VpnRunnable.java:154-171 | every payload a run forwards goes to a flow that one of its reads relayed. The read loop's tally (`Accumulated`) puts exactly those flows into the table, so each forwarded payload goes to a flow the table holds |
| Engine.NothingRelayedNothingForwarded | app/src/main/java/com/github/uiautomator/VpnRunnable.java:154-157 | when no read is a TCP packet to port 443, nothing at all is forwarded and no flow may be added to the table |
| Engine.CreatedForRelayedFlows | app/src/main/java/com/github/uiautomator/VpnRunnable.java:154-172 | after a run of reads, every connection created during it was created for a flow one of the reads relayed. An existing key keeps its connection, so no connection is made for a dropped packet |
| Engine.Receive | app/src/main/java/com/github/uiautomator/VpnRunnable.java:48-49 | a read fills the front of the reused buffer with its octets and leaves the rest as an earlier read left it |
| Engine.CopyOut | app/src/main/java/com/github/uiautomator/VpnRunnable.java:182-183 | the payload is copied into a fresh array holding exactly the octets of the buffer slice |
| Engine.TcpConnection.constructor | app/src/main/java/com/github/uiautomator/VpnRunnable.java:205-211 | a new connection is not connected, and its key is the 4-tuple it was created with, in the same order as the key used to create it |
| Engine.OwnKeyFindsOwnEntry | app/src/main/java/com/github/uiautomator/VpnRunnable.java:307-314 | in a table whose every entry holds a connection created for its key, a connection's own key (`getConnectionKey`, the same 4-tuple as the creation key of lines 164-172) finds that connection, and removing that key, as `close` does, takes out exactly that connection and leaves every other one |
| Engine.TcpConnection.Close | app/src/main/java/com/github/uiautomator/VpnRunnable.java:298-308 | `close` marks the connection closed and removes exactly the entry under its own key, leaving every other entry |
| Engine.TcpConnection.SendResponseToVpn | app/src/main/java/com/github/uiautomator/VpnRunnable.java:256-269 | one whole reply packet per write, built for the flow reversed, is appended to the tunnel output. The data is at most one `PACKET_SIZE` read, as the response buffers allocated at lines 223 and 275 are |
| Engine.VpnRunnable.constructor | app/src/main/java/com/github/uiautomator/VpnRunnable.java:29-33 | the engine starts running, with an empty table, nothing queued or written, and no connection created yet |
| Engine.VpnRunnable.ComputeIfAbsent | app/src/main/java/com/github/uiautomator/VpnRunnable.java:170-172 | get-or-create. A present key returns its connection and leaves the table unchanged. An absent key inserts exactly one fresh, unconnected connection under that key and returns it |
| Engine.VpnRunnable.HandleHttpsConnection | app/src/main/java/com/github/uiautomator/VpnRunnable.java:160-194 | the flow's entry exists afterwards, and an existing entry is kept. A new entry is a fresh, unconnected connection, so a packet after a `close` never reaches the closed one. Every connection created is in the table. A payload, if any, is queued once, after earlier tasks, with the table's connection for the flow. Without a payload the queue is unchanged |
| Engine.VpnRunnable.HandlePacket | app/src/main/java/com/github/uiautomator/VpnRunnable.java:63-77 | a dropped packet changes neither the table nor the queue. A relayed packet adds exactly its own key. Existing entries are kept, and new ones are fresh, unconnected and among the connections created by this call. What is queued is exactly what the packet forwards, bound to the table's connection for the flow it forwards to |
| Engine.VpnRunnable.Cleanup | app/src/main/java/com/github/uiautomator/VpnRunnable.java:359-374 | every connection in the table is closed and the table ends empty |
| Engine.VpnRunnable.Step | app/src/main/java/com/github/uiautomator/VpnRunnable.java:46-54 | one turn of the loop: the read's octets are at the front of the buffer, and a non-empty read is handled (`Handled`). The queue grows at the end by the read's payload, if it forwards one, and the new task is bound to the connection the table holds for the read's flow. The table keeps every entry and gains exactly the read's flow when it is relayed. A new entry holds a connection created in this turn, so a fresh one, and every connection created is in the table |
| Engine.VpnRunnable.ReadLoop | app/src/main/java/com/github/uiautomator/VpnRunnable.java:36-55 | while running, after all reads (`Accumulated`): the queue ends with what the reads forward, in arrival order, after the tasks queued before. Every new task is bound to the connection the table holds for its flow, so all payloads of one flow go to one connection. The table keeps every entry and gains exactly the flows the reads relayed. Each new entry holds a connection created during the loop, so a fresh one, and every connection created is in the table. When not running, nothing is read and nothing changes |
| Engine.VpnRunnable.Run | app/src/main/java/com/github/uiautomator/VpnRunnable.java:36-61 | the read loop's deliveries, in arrival order and each to its flow's connection, then the sweep. Tasks queued during the run for the same flow share one connection. The table ends empty. Every connection it held before the run, every connection created during it, and every connection a task of the run was handed, is closed. Each connection created was for a relayed flow |
| Engine.VpnRunnable.Stop | app/src/main/java/com/github/uiautomator/VpnRunnable.java:353-357 | the loop flag is cleared, the table is empty and every connection it held is closed |

## Left out

- Outbound sockets are not modelled: `forwardData`, `connect` with its
  `finishConnect` poll, and the `ResponseReader` task (lines 213-296). They
  are socket I/O. As a result, `isConnected` is never set in the model; it
  is only cleared, by `close`.
- The executor and its concurrency are not modelled. Each `execute` is
  recorded as an entry of the `dispatched` queue, in order.
- Other concurrency is not modelled either: `synchronized` on
  `forwardData` and on `out`, and the thread safety of `ConcurrentHashMap`.
  `computeIfAbsent` is one atomic step.
- `stop` running on another thread during `run` is not modelled: the loop
  flag keeps its value for a whole run. `executorService.shutdownNow()` is
  not modelled.
- Thread interruption (line 46), and a read that throws and ends the loop,
  are not modelled. Instead, the input to `run` is a finite sequence of
  reads. A read of zero or fewer octets is an empty element, and it is
  skipped as at line 51.
- Tunnel device I/O is not modelled: the streams at lines 39-40 and their
  closing at lines 367-369. Writes to the tunnel are appended to the
  `tunnelOut` sequence.
- The `Build.VERSION.SDK_INT` branch that yields a null connection (lines
  170-175) is not modelled. The model assumes API level 24 or later.
- Keys are not rendered with `String.format` and `getHostAddress`. Keys are
  the 4-tuple itself. The rendering is injective for IPv4 addresses and
  ports, so the two identify the same flows.
- Checksums are not computed. The code writes zero, and the model keeps the
  zero.
- IPv6 is only logged (lines 123-126). Its verdict is a drop with its own
  reason.
- The TTL, sequence and acknowledgement numbers, window and flags are
  decoded but not used by the engine.
- Engine.VpnRunnable.HandleHttpsConnection: the copied payload is queued as
  a value, not as the array `CopyOut` returns. `CopyOut` proves that the
  copy is a fresh array with the right octets. The model does not track
  that array through the queue, so it does not restate that later reads
  into the buffer leave it alone.
- Dispatch.ReplyCarriesData: it requires the total length to fit in 16
  bits. `SendResponseToVpn` only takes data of at most `PACKET_SIZE`
  (32767) octets, one response read, so every reply the engine writes
  meets the requirement.
- `MainActivity`, `AdbBroadcastReceiver`, `MyVPNService` and
  `MockLocationProvider` are not part of this model. They hold UI,
  intents, HTTP, location and VPN service plumbing.
