/** The iOS main app's server: an external listener whose ready clients form the
    connection list every packet is broadcast to, and a loopback listener whose one
    extension connection is relayed to that list byte for byte. */
module MirrorServer {
  import opened Base
  import opened Bytes
  import opened Sequences
  import opened Framing

  /** The internal listener's loopback port. */
  const INTERNAL_PORT: nat := 9998
  /** The most one receive on the extension connection returns. */
  const MAX_READ: nat := 65536

  /** Connections are compared by identity; the model names each by a number. */
  type ConnId = nat

  /** One `send` issued on a connection. */
  datatype Delivery = Delivery(conn: ConnId, data: bytes)

  /** The client connection states the server reacts to; `Other` stands for the rest. */
  datatype ClientState = Ready | Failed | Cancelled | Other

  /** `removeAll { $0 === connection }`. */
  function RemoveAll(cs: seq<ConnId>, c: ConnId): (r: seq<ConnId>)
    ensures forall i :: 0 <= i < |r| ==> r[i] != c
    ensures SubsequenceOf(r, cs)
    ensures forall x :: x != c ==> multiset(r)[x] == multiset(cs)[x]
  {
    if cs == [] then []
    else if cs[0] == c then
      var r := RemoveAll(cs[1..], c);
      SubsequenceSkip(r, cs[0], cs[1..]);
      assert [cs[0]] + cs[1..] == cs;
      r
    else
      var r := RemoveAll(cs[1..], c);
      assert ([cs[0]] + r)[1..] == r;
      assert cs == [cs[0]] + cs[1..];
      [cs[0]] + r
  }

  /** Removing a connection that is not listed changes nothing. */
  lemma {:induction false} RemoveAbsent(cs: seq<ConnId>, c: ConnId)
    requires forall i :: 0 <= i < |cs| ==> cs[i] != c
    ensures RemoveAll(cs, c) == cs
  {
    if cs != [] {
      RemoveAbsent(cs[1..], c);
    }
  }

  /** One send of `p` to each listed connection, in list order. */
  function Deliveries(cs: seq<ConnId>, p: bytes): (r: seq<Delivery>)
    ensures |r| == |cs| && forall i :: 0 <= i < |cs| ==> r[i] == Delivery(cs[i], p)
  {
    seq(|cs|, i requires 0 <= i < |cs| => Delivery(cs[i], p))
  }

  /** What the extension connection's receive callback gets each time: the data, if
      any, whether the stream is complete, and whether it failed. */
  datatype ExtensionRead = ExtensionRead(data: Option<bytes>, isComplete: bool, error: bool)

  /** The receive chain goes on after a read only when it neither completed nor failed. */
  predicate Continues(r: ExtensionRead)
  {
    !r.isComplete && !r.error
  }

  /** The chunks broadcast over a chain of reads: each non-empty chunk, up to and
      including the read that stops the chain. */
  function Relayed(chain: seq<ExtensionRead>): seq<bytes>
  {
    if chain == [] then []
    else ChunkOf(chain[0]) + (if Continues(chain[0]) then Relayed(chain[1..]) else [])
  }

  /** What one read hands to `broadcast`: its data unless there is none. */
  function ChunkOf(r: ExtensionRead): seq<bytes>
  {
    if r.data.Some? && r.data.value != [] then [r.data.value] else []
  }

  /** The bytes read over that chain, in order. */
  function ReadBytes(chain: seq<ExtensionRead>): bytes
  {
    if chain == [] then []
    else
      var r := chain[0];
      (if r.data.Some? then r.data.value else []) + (if Continues(r) then ReadBytes(chain[1..]) else [])
  }

  /** The relay does not reframe: joined, the broadcast chunks are exactly the bytes read
      from the extension. */
  lemma {:induction false} RelayVerbatim(chain: seq<ExtensionRead>)
    ensures Concat(Relayed(chain)) == ReadBytes(chain)
  {
    if chain != [] {
      var r := chain[0];
      var rest := if Continues(r) then Relayed(chain[1..]) else [];
      if Continues(r) {
        RelayVerbatim(chain[1..]);
      }
      if r.data.Some? && r.data.value != [] {
        assert ([r.data.value] + rest)[1..] == rest;
      } else {
        assert [] + rest == rest;
      }
    }
  }

  /** The sends of a run of broadcasts to a fixed list. */
  function BroadcastAll(cs: seq<ConnId>, packets: seq<bytes>): seq<Delivery>
  {
    if packets == [] then [] else Deliveries(cs, packets[0]) + BroadcastAll(cs, packets[1..])
  }

  /** `sendVideoPacket`'s packet: the timestamp, the size as a signed 32-bit number,
      both big-endian, then the data. */
  lemma VideoPacketFraming(data: bytes, pts: int)
    requires |data| < MAX_FIELD_SIZE
    ensures |Frame(pts, data)| == 12 + |data|
    ensures ParseHeader(Frame(pts, data)[..HEADER_SIZE]) == Header(pts % Pow256(8), |data|)
    ensures Frame(pts, data)[HEADER_SIZE..] == data
  {
    FrameRoundTrip(pts, data);
  }

  class Server {
    var listening: bool
    var internalListening: bool
    /** The ready client connections, in the order they became ready. */
    var connections: seq<ConnId>
    var extension: Option<ConnId>
    /** Every send issued to a client connection, in order. */
    var deliveries: seq<Delivery>

    constructor ()
      ensures !listening && !internalListening && connections == [] && extension == None && deliveries == []
    {
      listening := false;
      internalListening := false;
      connections := [];
      extension := None;
      deliveries := [];
    }

    /** `start`: `externalOk` and `internalOk` say whether each listener could be
        created on its port. */
    method Start(externalOk: bool, internalOk: bool)
      modifies this`listening, this`internalListening
      ensures listening == (old(listening) || externalOk)
      ensures internalListening == (old(internalListening) || internalOk)
    {
      if externalOk {
        listening := true;
      }
      if internalOk {
        internalListening := true;
      }
    }

    /** `stop`: both listeners and every connection cancelled, the list emptied and the
        extension connection dropped. */
    method Stop()
      modifies this`listening, this`internalListening, this`connections, this`extension
      ensures !listening && !internalListening && connections == [] && extension == None
    {
      listening := false;
      internalListening := false;
      connections := [];
      extension := None;
    }

    /** A client connection's state handler. */
    method ClientStateChanged(c: ConnId, state: ClientState)
      modifies this`connections
      ensures connections == match state
        case Ready => old(connections) + [c]
        case Failed => RemoveAll(old(connections), c)
        case Cancelled => RemoveAll(old(connections), c)
        case Other => old(connections)
    {
      match state {
        case Ready => connections := connections + [c];
        case Failed => connections := RemoveAll(connections, c);
        case Cancelled => connections := RemoveAll(connections, c);
        case Other =>
      }
    }

    /** The internal listener's new-connection handler. */
    method ExtensionConnected(c: ConnId)
      modifies this`extension
      ensures extension == Some(c)
    {
      extension := Some(c);
    }

    method HasConnections() returns (b: bool)
      ensures b <==> |connections| > 0
    {
      b := connections != [];
    }

    /** `broadcast`: the same bytes sent to every listed connection. */
    method Broadcast(packet: bytes)
      modifies this`deliveries
      ensures deliveries == old(deliveries) + Deliveries(connections, packet)
    {
      for i := 0 to |connections|
        invariant deliveries == old(deliveries) + Deliveries(connections[..i], packet)
      {
        deliveries := deliveries + [Delivery(connections[i], packet)];
        assert Deliveries(connections[..i + 1], packet) == Deliveries(connections[..i], packet) + [Delivery(connections[i], packet)];
      }
      assert connections[..|connections|] == connections;
    }

    /** `sendVideoPacket`, building the packet by appends. `Int32(data.count)` traps on
        data of 2^31 bytes or more. */
    method SendVideoPacket(data: bytes, pts: int)
      requires |data| < MAX_FIELD_SIZE
      modifies this`deliveries
      ensures deliveries == old(deliveries) + Deliveries(connections, Frame(pts, data))
    {
      var packet: bytes := [];
      packet := packet + BE(pts, 8);
      packet := packet + BE(|data|, 4);
      packet := packet + data;
      assert packet == Frame(pts, data);
      Broadcast(packet);
    }

    /** The extension connection's receive chain, while the client list stays as it is:
        each non-empty chunk is broadcast, and the chain stops at a completed or failed
        read. */
    method Relay(chain: seq<ExtensionRead>)
      modifies this`deliveries
      ensures deliveries == old(deliveries) + BroadcastAll(connections, Relayed(chain))
    {
      var k := 0;
      var going := true;
      ghost var done: seq<bytes> := [];
      ghost var cs := connections;
      while going && k < |chain|
        invariant k <= |chain|
        invariant done + Pending(chain, k, going) == Relayed(chain)
        invariant deliveries == old(deliveries) + BroadcastAll(cs, done)
        decreases |chain| - k
      {
        var r := chain[k];
        RelayedAdvance(chain, k, done);
        BroadcastAllAppend(cs, done, ChunkOf(r));
        RelayOne(r);
        done := done + ChunkOf(r);
        going := Continues(r);
        k := k + 1;
      }
      assert Pending(chain, k, going) == [];
      assert done + [] == done;
    }

    /** One receive callback's broadcast. */
    method RelayOne(r: ExtensionRead)
      modifies this`deliveries
      ensures deliveries == old(deliveries) + BroadcastAll(connections, ChunkOf(r))
    {
      if r.data.Some? && r.data.value != [] {
        assert BroadcastAll(connections, ChunkOf(r)) == Deliveries(connections, r.data.value) + BroadcastAll(connections, []);
        Broadcast(r.data.value);
      }
    }
  }

  /** What the chain still has to relay from read k on, if it has not stopped. */
  function Pending(chain: seq<ExtensionRead>, k: nat, going: bool): seq<bytes>
    requires k <= |chain|
  {
    if going then Relayed(chain[k..]) else []
  }

  /** One read further along the chain. */
  lemma RelayedAdvance(chain: seq<ExtensionRead>, k: nat, done: seq<bytes>)
    requires k < |chain|
    requires done + Pending(chain, k, true) == Relayed(chain)
    ensures done + ChunkOf(chain[k]) + Pending(chain, k + 1, Continues(chain[k])) == Relayed(chain)
  {
    assert chain[k..][0] == chain[k] && chain[k..][1..] == chain[k + 1..];
    var rest := Pending(chain, k + 1, Continues(chain[k]));
    assert Relayed(chain[k..]) == ChunkOf(chain[k]) + rest;
    assert done + (ChunkOf(chain[k]) + rest) == done + ChunkOf(chain[k]) + rest;
  }

  lemma {:induction false} BroadcastAllAppend(cs: seq<ConnId>, a: seq<bytes>, b: seq<bytes>)
    ensures BroadcastAll(cs, a + b) == BroadcastAll(cs, a) + BroadcastAll(cs, b)
  {
    if a != [] {
      assert (a + b)[0] == a[0] && (a + b)[1..] == a[1..] + b;
      BroadcastAllAppend(cs, a[1..], b);
    } else {
      assert a + b == b;
    }
  }
}
