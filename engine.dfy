/** `VpnRunnable` and its inner `TcpConnection`: the relay table keyed by
    flow, the read loop over the reused packet buffer, the copy of each
    payload out of that buffer, and the shutdown sweep. Sockets, threads
    and the tunnel file handles are outside the model; what the read loop
    receives from the tunnel is a parameter, and the work handed to the
    executor is recorded, in order, in `dispatched`. */
module Engine {
  import opened Wire
  import Ipv4
  import Tcp
  import Dispatch
  import ResponseBuilder

  /** Capacity of the buffer the read loop reads into. */
  const PACKET_SIZE: int := 32767

  /** One `forwardData(data)` task handed to the executor, holding the
      connection and the octets copied out of the read buffer. */
  datatype Forward = Forward(connection: TcpConnection, data: seq<byte>)

  /** One payload forwarded for a flow: the key of the connection it goes
      to and the octets it carries. */
  datatype Delivery = Delivery(key: Dispatch.FlowKey, data: seq<byte>)

  /** What a run of tasks delivers, in order: each task's payload and the
      key of the connection it was handed to. */
  function Deliveries(q: seq<Forward>): seq<Delivery>
  {
    if q == [] then []
    else Deliveries(q[..|q| - 1]) + [Delivery(q[|q| - 1].connection.Key(), q[|q| - 1].data)]
  }

  /** Sequence concatenation regroups; stated once so that the read loop
      does not prove it element by element. */
  lemma AppendAssociates(a: seq<Delivery>, b: seq<Delivery>, c: seq<Delivery>)
    ensures (a + b) + c == a + (b + c)
  {
  }

  /** A table that keeps every entry it held keeps every connection. */
  lemma ValuesGrow(m: map<Dispatch.FlowKey, TcpConnection>, m': map<Dispatch.FlowKey, TcpConnection>)
    requires m.Items <= m'.Items
    ensures m.Values <= m'.Values
  {
    forall c | c in m.Values
      ensures c in m'.Values
    {
      var key :| key in m && m[key] == c;
      assert (key, c) in m.Items;
    }
  }

  /** A table that gains exactly the flows of one more read, after gaining
      exactly those of earlier reads, has gained exactly the flows of all. */
  lemma FlowsAccumulate(start: set<Dispatch.FlowKey>, before: set<Dispatch.FlowKey>, after: set<Dispatch.FlowKey>,
                        earlier: set<Dispatch.FlowKey>, last: set<Dispatch.FlowKey>)
    requires before == start + earlier && after == before + last
    ensures after == start + (earlier + last)
  {
  }

  /** Connections created in two stretches, each held by the table at the
      end of its stretch, are all held by a table that kept the first. */
  lemma CreatedHeld(start: set<TcpConnection>, before: set<TcpConnection>, after: set<TcpConnection>,
                    held: set<TcpConnection>, held': set<TcpConnection>)
    requires before - start <= held && after - before <= held' && held <= held'
    ensures after - start <= held'
  {
  }

  /** A queue that only grows at the end keeps every earlier prefix. */
  lemma PrefixTransitive(a: seq<Forward>, b: seq<Forward>, c: seq<Forward>)
    requires a <= b && b <= c
    ensures a <= c
  {
  }

  /** Queueing one more task adds its delivery at the end. */
  lemma DeliveriesAppend(q: seq<Forward>, t: Forward)
    ensures Deliveries(q + [t]) == Deliveries(q) + [Delivery(t.connection.Key(), t.data)]
  {
    assert (q + [t])[..|q|] == q;
  }

  /** What one read loop run forwards, in the order the packets arrived:
      the payload of every relayed packet that carries one, for that
      packet's flow. */
  function Forwarded(input: seq<seq<byte>>): (r: seq<Delivery>)
    ensures |r| <= |input|
    ensures forall j | 0 <= j < |r| :: |r[j].data| > 0
  {
    if input == [] then []
    else Forwarded(input[..|input| - 1]) + PacketForwards(input[|input| - 1])
  }

  /** What one read forwards: nothing for an empty read (the loop skips
      it), otherwise the payload the classification copies out, if any. */
  function PacketForwards(chunk: seq<byte>): (r: seq<Delivery>)
    ensures |r| <= 1
    ensures r != [] <==> |chunk| > 0 && Dispatch.Classify(chunk).Relay? && Dispatch.Classify(chunk).payload.Some?
    ensures r != [] ==>
      && r[0].key == Dispatch.Classify(chunk).key
      && r[0].data == Dispatch.Classify(chunk).payload.value
      && |r[0].data| > 0
  {
    if |chunk| == 0 then []
    else match Dispatch.Classify(chunk)
      case Relay(key, _, _, Some(data)) => [Delivery(key, data)]
      case _ => []
  }

  /** The flow one read may add to the table: its key when the read is
      relayed, with or without a payload. */
  function PacketFlows(chunk: seq<byte>): set<Dispatch.FlowKey>
  {
    if |chunk| > 0 && Dispatch.Classify(chunk).Relay? then {Dispatch.Classify(chunk).key} else {}
  }

  /** The flows a run of reads may add to the table. */
  function RelayedFlows(input: seq<seq<byte>>): set<Dispatch.FlowKey>
  {
    if input == [] then {}
    else RelayedFlows(input[..|input| - 1]) + PacketFlows(input[|input| - 1])
  }

  /** Every payload a run forwards goes to a flow that run relayed, so to
      a connection the table holds for it. */
  lemma {:induction false} ForwardedToRelayedFlows(input: seq<seq<byte>>)
    ensures forall j | 0 <= j < |Forwarded(input)| :: Forwarded(input)[j].key in RelayedFlows(input)
    decreases |input|
  {
    if input != [] {
      var init, last := input[..|input| - 1], input[|input| - 1];
      ForwardedToRelayedFlows(init);
      assert Forwarded(input) == Forwarded(init) + PacketForwards(last);
      assert RelayedFlows(input) == RelayedFlows(init) + PacketFlows(last);
    }
  }

  /** The loop forwards the packets of two stretches of input one after
      the other: what arrives first is forwarded first. */
  lemma {:induction false} ForwardedConcat(a: seq<seq<byte>>, b: seq<seq<byte>>)
    ensures Forwarded(a + b) == Forwarded(a) + Forwarded(b)
    decreases |b|
  {
    if b == [] {
      assert a + b == a;
    } else {
      var b', last := b[..|b| - 1], b[|b| - 1];
      assert (a + b)[..|a + b| - 1] == a + b';
      assert (a + b)[|a + b| - 1] == last;
      ForwardedConcat(a, b');
      AppendAssociates(Forwarded(a), Forwarded(b'), PacketForwards(last));
    }
  }

  /** Drop policy over a whole run: when no read is an IPv4 TCP packet to
      port 443, nothing at all is forwarded. */
  lemma {:induction false} NothingRelayedNothingForwarded(input: seq<seq<byte>>)
    requires forall i | 0 <= i < |input| :: |input[i]| > 0 ==> !Dispatch.Classify(input[i]).Relay?
    ensures Forwarded(input) == []
    ensures RelayedFlows(input) == {}
    decreases |input|
  {
    if input != [] {
      NothingRelayedNothingForwarded(input[..|input| - 1]);
    }
  }

  /** Appending one more read extends what the loop forwards by what that
      read forwards. */
  lemma ForwardedStep(input: seq<seq<byte>>, k: int, got: seq<Delivery>)
    requires 0 <= k < |input|
    requires got == PacketForwards(input[k])
    ensures Forwarded(input[..k + 1]) == Forwarded(input[..k]) + got
    ensures RelayedFlows(input[..k + 1]) == RelayedFlows(input[..k]) + PacketFlows(input[k])
  {
    assert input[..k + 1][..k] == input[..k];
  }

  /** Every entry of `table` holds a connection among `created`, made for
      that entry's key. */
  ghost predicate Keyed(table: map<Dispatch.FlowKey, TcpConnection>, created: set<TcpConnection>)
  {
    forall k | k in table :: table[k].Key() == k && table[k] in created
  }

  /** A task is bound to the connection `table` holds for the task's own
      flow. */
  ghost predicate Bound(t: Forward, table: map<Dispatch.FlowKey, TcpConnection>)
  {
    t.connection.Key() in table && table[t.connection.Key()] == t.connection
  }

  /** A table that keeps every entry keeps every binding. */
  lemma BoundKept(t: Forward, table: map<Dispatch.FlowKey, TcpConnection>, table': map<Dispatch.FlowKey, TcpConnection>)
    requires Bound(t, table) && table.Items <= table'.Items
    ensures Bound(t, table')
  {
    assert (t.connection.Key(), t.connection) in table.Items;
  }

  /** Tasks bound to a table hand their payloads to connections it holds. */
  lemma BoundHeld(queue: seq<Forward>, from: nat, table: map<Dispatch.FlowKey, TcpConnection>)
    requires forall i | from <= i < |queue| :: Bound(queue[i], table)
    ensures forall i | from <= i < |queue| :: queue[i].connection in table.Values
  {
    forall i | from <= i < |queue|
      ensures queue[i].connection in table.Values
    {
      var key := queue[i].connection.Key();
      assert (key, table[key]) in table.Items;
    }
  }

  /** `close` removes `remove(getConnectionKey())`: in a keyed table, a
      connection's own key finds that connection, and removing that key
      takes out exactly that connection and no other. */
  lemma OwnKeyFindsOwnEntry(table: map<Dispatch.FlowKey, TcpConnection>, created: set<TcpConnection>, c: TcpConnection)
    requires Keyed(table, created) && c in table.Values
    ensures c.Key() in table && table[c.Key()] == c
    ensures (table - {c.Key()}).Values == table.Values - {c}
  {
    var k :| k in table && table[k] == c;
    forall d | d in table.Values - {c}
      ensures d in (table - {c.Key()}).Values
    {
      var j :| j in table && table[j] == d;
      assert j != c.Key();
      assert (table - {c.Key()})[j] == d;
    }
  }

  /** The part of the engine's state the read loop accumulates into. */
  datatype Snapshot = Snapshot(queue: seq<Forward>, table: map<Dispatch.FlowKey, TcpConnection>, created: set<TcpConnection>)

  /** What handling one read does, between `before` and `after`: the
      queue grows at the end by what the read forwards, for the flow it
      forwards to, and the new task is bound to the table's connection for
      that flow; the table keeps every entry and gains exactly the read's
      flow if it is relayed; a new entry holds a connection created
      meanwhile, and a connection created meanwhile is in the table. */
  ghost predicate Handled(chunk: seq<byte>, before: Snapshot, after: Snapshot)
  {
    && before.queue <= after.queue
    && Deliveries(after.queue) == Deliveries(before.queue) + PacketForwards(chunk)
    && (forall i | |before.queue| <= i < |after.queue| :: Bound(after.queue[i], after.table))
    && before.table.Items <= after.table.Items
    && after.table.Keys == before.table.Keys + PacketFlows(chunk)
    && before.created <= after.created
    && (forall key | key in after.table && key !in before.table :: after.table[key] in after.created - before.created)
    && after.created - before.created <= after.table.Values
  }

  /** What the read loop has done after its first `k` reads, between
      `start` and `now`: the queue grew at the end by what those reads
      forward, each new task bound to the table's connection for its flow;
      the table kept every entry and gained exactly the flows those reads
      relayed, each new entry holding a connection created meanwhile; and
      every connection created meanwhile is held by the table. */
  ghost predicate Accumulated(input: seq<seq<byte>>, k: int, start: Snapshot, now: Snapshot)
  {
    && 0 <= k <= |input|
    && start.queue <= now.queue
    && Deliveries(now.queue) == Deliveries(start.queue) + Forwarded(input[..k])
    && (forall i | |start.queue| <= i < |now.queue| :: Bound(now.queue[i], now.table))
    && start.table.Items <= now.table.Items
    && now.table.Keys == start.table.Keys + RelayedFlows(input[..k])
    && start.created <= now.created
    && (forall key | key in now.table && key !in start.table :: now.table[key] in now.created - start.created)
    && now.created - start.created <= now.table.Values
  }

  /** Tasks bound before a read stay bound, since the table keeps its
      entries, and the read's own task is bound by `Handled`. */
  lemma TasksStayBound(start: Snapshot, now: Snapshot, next: Snapshot)
    requires start.queue <= now.queue <= next.queue
    requires now.table.Items <= next.table.Items
    requires forall i | |start.queue| <= i < |now.queue| :: Bound(now.queue[i], now.table)
    requires forall i | |now.queue| <= i < |next.queue| :: Bound(next.queue[i], next.table)
    ensures forall i | |start.queue| <= i < |next.queue| :: Bound(next.queue[i], next.table)
  {
    forall i | |start.queue| <= i < |now.queue|
      ensures Bound(next.queue[i], next.table)
    {
      assert next.queue[i] == now.queue[i];
      BoundKept(now.queue[i], now.table, next.table);
    }
  }

  /** Entries new since `start` hold connections created since `start`,
      whether they appeared before or during the last read. */
  lemma EntriesStayCreated(start: Snapshot, now: Snapshot, next: Snapshot)
    requires start.created <= now.created <= next.created
    requires now.table.Items <= next.table.Items
    requires forall key | key in now.table && key !in start.table :: now.table[key] in now.created - start.created
    requires forall key | key in next.table && key !in now.table :: next.table[key] in next.created - now.created
    ensures forall key | key in next.table && key !in start.table :: next.table[key] in next.created - start.created
  {
    forall key | key in next.table && key !in start.table
      ensures next.table[key] in next.created - start.created
    {
      if key in now.table {
        assert (key, now.table[key]) in now.table.Items;
      }
    }
  }

  /** Before the first read nothing has accumulated. */
  lemma AccumulatedNone(input: seq<seq<byte>>, start: Snapshot)
    ensures Accumulated(input, 0, start, start)
  {
    assert Forwarded(input[..0]) == [] && RelayedFlows(input[..0]) == {};
  }

  /** One more read, handled as `Step` promises, keeps the tally. */
  lemma AccumulatedStep(input: seq<seq<byte>>, k: int, start: Snapshot, now: Snapshot, next: Snapshot)
    requires Accumulated(input, k, start, now) && k < |input|
    requires Handled(input[k], now, next)
    ensures Accumulated(input, k + 1, start, next)
  {
    var got := PacketForwards(input[k]);
    PrefixTransitive(start.queue, now.queue, next.queue);
    TasksStayBound(start, now, next);
    EntriesStayCreated(start, now, next);
    ValuesGrow(now.table, next.table);
    CreatedHeld(start.created, now.created, next.created, now.table.Values, next.table.Values);
    ForwardedStep(input, k, got);
    FlowsAccumulate(start.table.Keys, now.table.Keys, next.table.Keys, RelayedFlows(input[..k]), PacketFlows(input[k]));
    AppendAssociates(Deliveries(start.queue), Forwarded(input[..k]), got);
  }

  /** The tally after every read of the run. */
  lemma AccumulatedAll(input: seq<seq<byte>>, start: Snapshot, now: Snapshot)
    requires Accumulated(input, |input|, start, now)
    ensures start.queue <= now.queue
    ensures Deliveries(now.queue) == Deliveries(start.queue) + Forwarded(input)
    ensures forall i | |start.queue| <= i < |now.queue| :: Bound(now.queue[i], now.table)
    ensures start.table.Items <= now.table.Items
    ensures now.table.Keys == start.table.Keys + RelayedFlows(input)
    ensures start.created <= now.created
    ensures forall key | key in now.table && key !in start.table :: now.table[key] in now.created - start.created
    ensures now.created - start.created <= now.table.Values
  {
    assert input[..|input|] == input;
  }

  /** What `run` needs from the read loop's tally before the sweep: every
      connection held before or created during the loop, and every
      connection a new task was handed, is held by the table the sweep
      closes; tasks of one flow share a connection. */
  lemma RunTally(input: seq<seq<byte>>, start: Snapshot, now: Snapshot)
    requires Keyed(start.table, start.created) && Keyed(now.table, now.created)
    requires Accumulated(input, |input|, start, now)
    ensures start.queue <= now.queue
    ensures Deliveries(now.queue) == Deliveries(start.queue) + Forwarded(input)
    ensures start.table.Values + (now.created - start.created) <= now.table.Values
    ensures forall c | c in now.created - start.created :: c.Key() in RelayedFlows(input)
    ensures forall i | |start.queue| <= i < |now.queue| :: now.queue[i].connection in now.table.Values
    ensures forall i, j | |start.queue| <= i < |now.queue| && |start.queue| <= j < |now.queue| ::
      now.queue[i].connection.Key() == now.queue[j].connection.Key() ==> now.queue[i].connection == now.queue[j].connection
  {
    AccumulatedAll(input, start, now);
    CreatedForRelayedFlows(input, start, now);
    ValuesGrow(start.table, now.table);
    BoundHeld(now.queue, |start.queue|, now.table);
  }

  /** Drop policy at the table: a connection created during a run of
      reads was created for a flow one of those reads relayed. An old key
      keeps its old connection, so a new connection sits under a new key. */
  lemma CreatedForRelayedFlows(input: seq<seq<byte>>, start: Snapshot, now: Snapshot)
    requires Keyed(start.table, start.created) && Keyed(now.table, now.created)
    requires Accumulated(input, |input|, start, now)
    ensures forall c | c in now.created - start.created :: c.Key() in RelayedFlows(input)
  {
    AccumulatedAll(input, start, now);
    forall key | key in start.table
      ensures key in now.table && now.table[key] == start.table[key]
    {
      assert (key, start.table[key]) in start.table.Items;
    }
    forall c | c in now.created - start.created
      ensures c.Key() in RelayedFlows(input)
    {
      var key :| key in now.table && now.table[key] == c;
    }
  }

  /** One read from the tunnel into the front of the reused buffer; the
      octets past the read keep whatever an earlier read left there. */
  method Receive(packet: array<byte>, chunk: seq<byte>)
    requires |chunk| <= packet.Length
    modifies packet
    ensures packet[..|chunk|] == chunk
    ensures packet[|chunk|..] == old(packet[|chunk|..])
  {
    forall i | 0 <= i < |chunk| {
      packet[i] := chunk[i];
    }
  }

  /** `tcpData.get(data)` into a fresh `byte[dataLength]`: the payload is
      copied out of the read buffer before that buffer is reused. */
  method CopyOut(buffer: array<byte>, from: int, count: int) returns (data: array<byte>)
    requires 0 <= from && 0 <= count && from + count <= buffer.Length
    ensures fresh(data)
    ensures data[..] == buffer[from..from + count]
  {
    data := new byte[count];
    var i := 0;
    while i < count
      invariant 0 <= i <= count
      invariant data[..i] == buffer[from..from + i]
    {
      data[i] := buffer[from + i];
      i := i + 1;
    }
  }

  class TcpConnection {
    const srcAddr: Ipv4.Address
    const srcPort: Tcp.Port
    const dstAddr: Ipv4.Address
    const dstPort: Tcp.Port
    var isConnected: bool

    constructor (srcAddr: Ipv4.Address, srcPort: Tcp.Port, dstAddr: Ipv4.Address, dstPort: Tcp.Port)
      ensures Key() == Dispatch.FlowKey(srcAddr, srcPort, dstAddr, dstPort)
      ensures !isConnected
    {
      this.srcAddr := srcAddr;
      this.srcPort := srcPort;
      this.dstAddr := dstAddr;
      this.dstPort := dstPort;
      isConnected := false;
    }

    /** `getConnectionKey`: the same 4-tuple, in the same order, as the key
        the connection was created under. */
    function Key(): (k: Dispatch.FlowKey)
      ensures k.srcAddr == srcAddr && k.srcPort == srcPort
      ensures k.dstAddr == dstAddr && k.dstPort == dstPort
    {
      Dispatch.FlowKey(srcAddr, srcPort, dstAddr, dstPort)
    }

    /** `close`: marks the connection closed and removes the entry under its
        own key, whichever connection that entry holds. Closing the socket
        channel is not modelled. */
    method Close(owner: VpnRunnable)
      modifies this`isConnected, owner`tcpConnections
      ensures !isConnected
      ensures owner.tcpConnections == old(owner.tcpConnections) - {Key()}
    {
      isConnected := false;
      owner.tcpConnections := owner.tcpConnections - {Key()};
    }

    /** `sendResponseToVpn`: one whole packet per write, addressed from the
        peer back to the flow's source. */
    method SendResponseToVpn(owner: VpnRunnable, data: seq<byte>)
      requires |data| <= PACKET_SIZE
      modifies owner`tunnelOut
      ensures owner.tunnelOut == old(owner.tunnelOut) + [Dispatch.ReplyPacket(Key(), data)]
    {
      var ipPacket := ResponseBuilder.BuildIpPacket(dstAddr, srcAddr, srcPort, data);
      owner.tunnelOut := owner.tunnelOut + [ipPacket];
    }
  }

  class VpnRunnable {
    var tcpConnections: map<Dispatch.FlowKey, TcpConnection>
    var dispatched: seq<Forward>
    var tunnelOut: seq<seq<byte>>
    var isRunning: bool
    /** Every connection the table has ever been given. */
    ghost var created: set<TcpConnection>

    /** Every entry of the table holds a connection created for its key. */
    ghost predicate Valid()
      reads this
    {
      Keyed(tcpConnections, created)
    }

    constructor ()
      ensures Valid()
      ensures tcpConnections == map[] && dispatched == [] && tunnelOut == []
      ensures isRunning && created == {}
    {
      tcpConnections := map[];
      dispatched := [];
      tunnelOut := [];
      isRunning := true;
      created := {};
    }

    /** `computeIfAbsent(key, k -> new TcpConnection(...))`, one atomic step:
        the connection already under `key`, or a new one for that 4-tuple. */
    method ComputeIfAbsent(key: Dispatch.FlowKey) returns (c: TcpConnection)
      requires Valid()
      modifies this`tcpConnections, this`created
      ensures Valid()
      ensures key in tcpConnections && tcpConnections[key] == c
      ensures key in old(tcpConnections) ==>
        c == old(tcpConnections[key]) && tcpConnections == old(tcpConnections) && created == old(created)
      ensures key !in old(tcpConnections) ==>
        && fresh(c) && !c.isConnected
        && tcpConnections == old(tcpConnections)[key := c]
        && created == old(created) + {c}
    {
      if key in tcpConnections {
        c := tcpConnections[key];
      } else {
        c := new TcpConnection(key.srcAddr, key.srcPort, key.dstAddr, key.dstPort);
        tcpConnections := tcpConnections[key := c];
        created := created + {c};
      }
    }

    /** `handleHttpsConnection`: get or create the flow's connection, then
        copy the payload, if there is one, out of the read buffer and hand
        it to the executor. */
    method HandleHttpsConnection(key: Dispatch.FlowKey, packet: array<byte>, payloadStart: int, payload: Option<seq<byte>>)
      requires Valid()
      requires payload.Some? ==>
        && 0 <= payloadStart && payloadStart + |payload.value| <= packet.Length
        && packet[payloadStart..payloadStart + |payload.value|] == payload.value
      modifies this`tcpConnections, this`dispatched, this`created
      ensures Valid()
      ensures key in tcpConnections
      ensures key in old(tcpConnections) ==> tcpConnections == old(tcpConnections)
      ensures key !in old(tcpConnections) ==>
        && fresh(tcpConnections[key]) && !tcpConnections[key].isConnected
        && tcpConnections == old(tcpConnections)[key := tcpConnections[key]]
        && created == old(created) + {tcpConnections[key]}
      ensures old(created) <= created
      ensures fresh(created - old(created))
      ensures created - old(created) <= tcpConnections.Values
      ensures payload.None? ==> dispatched == old(dispatched)
      ensures payload.Some? ==> dispatched == old(dispatched) + [Forward(tcpConnections[key], payload.value)]
    {
      var connection := ComputeIfAbsent(key);
      if payload.Some? {
        var data := CopyOut(packet, payloadStart, |payload.value|);
        dispatched := dispatched + [Forward(connection, data[..])];
      }
    }

    /** `handlePacket` on the first `length` octets of the buffer. Only a
        relayed packet touches the table, and only a relayed packet with a
        payload is forwarded, to the connection the table holds for its
        flow. */
    method HandlePacket(packet: array<byte>, length: int) returns (ghost forwarded: seq<Delivery>)
      requires Valid()
      requires 0 < length <= packet.Length
      modifies this`tcpConnections, this`dispatched, this`created
      ensures forwarded == PacketForwards(packet[..length])
      ensures Valid()
      ensures var v := Dispatch.Classify(packet[..length]);
        v.Drop? ==> tcpConnections == old(tcpConnections) && dispatched == old(dispatched)
      ensures var v := Dispatch.Classify(packet[..length]);
        v.Relay? ==> tcpConnections.Keys == old(tcpConnections).Keys + {v.key}
      ensures forall key | key in old(tcpConnections) :: key in tcpConnections && tcpConnections[key] == old(tcpConnections)[key]
      ensures forall key | key in tcpConnections && key !in old(tcpConnections) ::
        fresh(tcpConnections[key]) && !tcpConnections[key].isConnected
      ensures old(created) <= created
      ensures forall key | key in tcpConnections && key !in old(tcpConnections) ::
        tcpConnections[key] in created - old(created)
      ensures fresh(created - old(created))
      ensures created - old(created) <= tcpConnections.Values
      ensures forwarded == [] ==> dispatched == old(dispatched)
      ensures forwarded != [] ==>
        dispatched == old(dispatched) + [Forward(tcpConnections[forwarded[0].key], forwarded[0].data)]
    {
      forwarded := PacketForwards(packet[..length]);
      var v := Dispatch.Classify(packet[..length]);
      if v.Relay? {
        HandleHttpsConnection(v.key, packet, v.payloadStart, v.payload);
      }
    }

    /** `cleanup`: close every connection in the table, then clear it. Each
        `close` removes its own entry, so the table is already empty when
        `clear` runs. Closing the tunnel streams is not modelled. */
    method Cleanup()
      requires Valid()
      modifies this`tcpConnections, tcpConnections.Values
      ensures Valid()
      ensures tcpConnections == map[]
      ensures forall c | c in old(tcpConnections.Values) :: !c.isConnected
    {
      var remaining := tcpConnections.Values;
      ghost var closed: set<TcpConnection> := {};
      while remaining != {}
        invariant remaining + closed == old(tcpConnections.Values)
        invariant forall c | c in closed :: !c.isConnected
        invariant tcpConnections == map k | k in old(tcpConnections) && old(tcpConnections)[k] in remaining :: old(tcpConnections)[k]
        decreases remaining
      {
        var c :| c in remaining;
        c.Close(this);
        remaining := remaining - {c};
        closed := closed + {c};
      }
      assert tcpConnections == map[];
      tcpConnections := map[];
    }

    /** One turn of the read loop: read `chunk` into the reused buffer and
        handle it if it is not empty. */
    method Step(packet: array<byte>, chunk: seq<byte>)
      requires Valid()
      requires |chunk| <= packet.Length
      modifies packet, this`tcpConnections, this`dispatched, this`created
      ensures packet[..|chunk|] == chunk
      ensures Valid()
      ensures Handled(chunk, old(Snapshot(dispatched, tcpConnections, created)), Snapshot(dispatched, tcpConnections, created))
      ensures fresh(created - old(created))
    {
      Receive(packet, chunk);
      if |chunk| > 0 {
        var got := HandlePacket(packet, |chunk|);
        if got != [] {
          DeliveriesAppend(old(dispatched), dispatched[|old(dispatched)|]);
        }
      }
    }

    /** One turn of the read loop, `Step` on the next read, keeps the
        loop's tally. */
    method Turn(packet: array<byte>, input: seq<seq<byte>>, k: int, ghost start: Snapshot) returns (ghost made: set<TcpConnection>)
      requires Valid()
      requires 0 <= k < |input| && |input[k]| <= packet.Length
      requires Accumulated(input, k, start, Snapshot(dispatched, tcpConnections, created))
      modifies packet, this`tcpConnections, this`dispatched, this`created
      ensures Valid()
      ensures fresh(made) && created == old(created) + made
      ensures Accumulated(input, k + 1, start, Snapshot(dispatched, tcpConnections, created))
    {
      ghost var now := Snapshot(dispatched, tcpConnections, created);
      Step(packet, input[k]);
      AccumulatedStep(input, k, start, now, Snapshot(dispatched, tcpConnections, created));
      made := created - now.created;
    }

    /** The read loop of `run`: read packets from the tunnel into one
        reused buffer while the engine is running and handle every read of
        at least one octet. Each element of `input` is what one read
        returned. */
    method ReadLoop(input: seq<seq<byte>>)
      requires Valid()
      requires forall i | 0 <= i < |input| :: |input[i]| <= PACKET_SIZE
      modifies this`tcpConnections, this`dispatched, this`created
      ensures Valid()
      ensures fresh(created - old(created))
      ensures isRunning ==>
        Accumulated(input, |input|, old(Snapshot(dispatched, tcpConnections, created)), Snapshot(dispatched, tcpConnections, created))
      ensures !isRunning ==>
        dispatched == old(dispatched) && tcpConnections == old(tcpConnections) && created == old(created)
    {
      var packet := new byte[PACKET_SIZE];
      // The loop's progress is tracked through Turn and the lemmas about
      // `Accumulated` alone; no definition needs unfolding from here on.
      hide *;
      ghost var start := Snapshot(dispatched, tcpConnections, created);
      if isRunning {
        var k := 0;
        ghost var made: set<TcpConnection> := {};
        AccumulatedNone(input, start);
        while k < |input|
          invariant 0 <= k <= |input|
          invariant Valid()
          invariant fresh(made) && created == start.created + made
          invariant Accumulated(input, k, start, Snapshot(dispatched, tcpConnections, created))
        {
          var more := Turn(packet, input, k, start);
          made := made + more;
          k := k + 1;
        }
      }
    }

    /** `run`: the read loop, then the sweep of the table on the way out.
        The executor receives the payloads the run forwards, in the order
        they arrived, after the tasks queued before. */
    method Run(input: seq<seq<byte>>)
      requires Valid()
      requires forall i | 0 <= i < |input| :: |input[i]| <= PACKET_SIZE
      modifies this`tcpConnections, this`dispatched, this`created, created
      ensures Valid()
      ensures tcpConnections == map[]
      ensures forall c | c in old(tcpConnections.Values) + (created - old(created)) :: !c.isConnected
      ensures forall c | c in created - old(created) :: c.Key() in RelayedFlows(input)
      ensures old(dispatched) <= dispatched
      ensures isRunning ==> Deliveries(dispatched) == Deliveries(old(dispatched)) + Forwarded(input)
      ensures forall i, j | |old(dispatched)| <= i < |dispatched| && |old(dispatched)| <= j < |dispatched| ::
        dispatched[i].connection.Key() == dispatched[j].connection.Key() ==> dispatched[i].connection == dispatched[j].connection
      ensures forall i | |old(dispatched)| <= i < |dispatched| :: !dispatched[i].connection.isConnected
      ensures !isRunning ==> dispatched == old(dispatched) && created == old(created)
    {
      ReadLoop(input);
      if isRunning {
        RunTally(input, old(Snapshot(dispatched, tcpConnections, created)), Snapshot(dispatched, tcpConnections, created));
      } else {
        ValuesGrow(old(tcpConnections), tcpConnections);
      }
      Cleanup();
    }

    /** `stop`: stop the loop and sweep the table. Shutting down the
        executor is not modelled. */
    method Stop()
      requires Valid()
      modifies this`isRunning, this`tcpConnections, tcpConnections.Values
      ensures Valid()
      ensures !isRunning && tcpConnections == map[]
      ensures forall c | c in old(tcpConnections.Values) :: !c.isConnected
    {
      isRunning := false;
      Cleanup();
    }
  }
}
