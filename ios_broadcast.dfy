/** The iOS broadcast extension: the client that streams encoded video to the main app
    over a loopback connection, and the sample handler that (re)creates the encoder
    for the screen size and passes the encoder's output to that client. */
module Broadcast {
  import opened Base
  import opened Bytes
  import opened Sequences
  import opened H264Encoder

  /** The loopback port of the main app's internal listener. */
  const IPC_PORT: nat := 9998
  /** The bit rate of every encoder the handler creates. */
  const BITRATE: nat := 15_000_000

  /** The connection states the client reacts to; `Waiting` and `Setup` stand for the
      ones it ignores. */
  datatype ConnectionState = Ready | Failed | Cancelled | Waiting | Setup

  /** The client as seen from outside: whether it thinks it is connected, whether it
      holds a connection, how many connections it has opened, and what it has handed
      to a connection to send. */
  datatype ClientState = ClientState(connected: bool, hasConnection: bool, connectionsOpened: nat, sent: seq<bytes>)

  /** `connect`: nothing when already connected; otherwise a new connection is opened
      (replacing any pending one). */
  function AfterConnect(s: ClientState): (r: ClientState)
    ensures r.sent == s.sent && r.connected == s.connected
  {
    if s.connected then s else s.(hasConnection := true, connectionsOpened := s.connectionsOpened + 1)
  }

  /** `send`: while not connected the packet is dropped and a connection is started. */
  function AfterSend(s: ClientState, data: bytes): ClientState
  {
    if !s.connected then AfterConnect(s)
    else if s.hasConnection then s.(sent := s.sent + [data])
    else s
  }

  /** The connection's state handler. */
  function AfterStateChange(s: ClientState, state: ConnectionState): ClientState
  {
    match state
    case Ready => s.(connected := true)
    case Failed => s.(connected := false)
    case Cancelled => s.(connected := false)
    case _ => s
  }

  /** `handleError`, after a send completes with an error, and `disconnect`: the
      connection is cancelled and dropped. */
  function AfterDrop(s: ClientState): ClientState
  {
    s.(connected := false, hasConnection := false)
  }

  /** Connecting twice is connecting once, and a connected client never opens another
      connection. */
  lemma ConnectIdempotent(s: ClientState)
    ensures AfterConnect(AfterConnect(s)) == AfterConnect(s) || !s.connected
    ensures s.connected ==> AfterConnect(s) == s
  {
  }

  /** A packet offered while not connected is never sent: it only starts a connection.
      After a send error the next packet is the one that reconnects. */
  lemma DisconnectedSendDrops(s: ClientState, data: bytes, next: bytes)
    ensures !s.connected ==>
      AfterSend(s, data).sent == s.sent &&
      AfterSend(s, data).connectionsOpened == s.connectionsOpened + 1 && AfterSend(s, data).hasConnection
    ensures var t := AfterSend(AfterDrop(s), next);
      t.sent == s.sent && t.connectionsOpened == s.connectionsOpened + 1 && t.hasConnection && !t.connected
  {
  }

  /** Everything that can happen to the client. */
  datatype ClientEvent =
    | Offer(data: bytes)
    | StateChange(state: ConnectionState)
    | SendError
    | Disconnect
    | Connect

  function ClientStep(s: ClientState, e: ClientEvent): ClientState
  {
    match e
    case Offer(d) => AfterSend(s, d)
    case StateChange(st) => AfterStateChange(s, st)
    case SendError => AfterDrop(s)
    case Disconnect => AfterDrop(s)
    case Connect => AfterConnect(s)
  }

  function ClientRun(s: ClientState, events: seq<ClientEvent>): ClientState
    decreases |events|
  {
    if events == [] then s else ClientRun(ClientStep(s, events[0]), events[1..])
  }

  /** The packets offered over a run of events, in order. */
  function Offered(events: seq<ClientEvent>): seq<bytes>
  {
    if events == [] then []
    else (if events[0].Offer? then [events[0].data] else []) + Offered(events[1..])
  }

  lemma OneStepSent(s: ClientState, e: ClientEvent)
    ensures SubsequenceOf(ClientStep(s, e).sent, s.sent + Offered([e]))
  {
    var t := ClientStep(s, e);
    assert Offered([e]) == (if e.Offer? then [e.data] else []) + Offered([]);
    if e.Offer? && t.sent != s.sent {
      assert t.sent == s.sent + Offered([e]);
      SubsequenceRefl(t.sent);
    } else {
      assert t.sent == s.sent;
      SubsequenceRefl(s.sent);
      SubsequenceAppend(s.sent, s.sent, Offered([e]));
    }
  }

  /** Over any run, what reaches the connection is the offered packets with some
      dropped: nothing is sent twice, out of order, or without being offered. */
  lemma {:induction false} SentAreOffered(s: ClientState, events: seq<ClientEvent>)
    ensures SubsequenceOf(ClientRun(s, events).sent, s.sent + Offered(events))
    decreases |events|
  {
    if events == [] {
      assert s.sent + Offered(events) == s.sent;
      SubsequenceRefl(s.sent);
    } else {
      var e := events[0];
      var t := ClientStep(s, e);
      SentAreOffered(t, events[1..]);
      OneStepSent(s, e);
      var first, later := Offered([e]), Offered(events[1..]);
      SubsequenceAppendBoth(t.sent, s.sent + first, later);
      OfferedCons(events);
      assert s.sent + Offered(events) == s.sent + first + later;
      SubsequenceTrans(ClientRun(t, events[1..]).sent, t.sent + later, s.sent + Offered(events));
    }
  }

  lemma OfferedCons(events: seq<ClientEvent>)
    requires events != []
    ensures Offered(events) == Offered([events[0]]) + Offered(events[1..])
  {
    var h := if events[0].Offer? then [events[0].data] else [];
    var one := [events[0]];
    assert one[0] == events[0] && one[1..] == [];
    assert Offered(one) == h + Offered([]);
    assert h + [] == h;
  }

  class StreamClient {
    var isConnected: bool
    var hasConnection: bool
    var connectionsOpened: nat
    var sent: seq<bytes>

    ghost function State(): ClientState
      reads this
    {
      ClientState(isConnected, hasConnection, connectionsOpened, sent)
    }

    constructor ()
      ensures State() == ClientState(false, false, 0, [])
    {
      isConnected := false;
      hasConnection := false;
      connectionsOpened := 0;
      sent := [];
    }

    method Connect()
      modifies this
      ensures State() == AfterConnect(old(State()))
    {
      if isConnected {
        return;
      }
      hasConnection := true;
      connectionsOpened := connectionsOpened + 1;
    }

    method Send(data: bytes)
      modifies this
      ensures State() == AfterSend(old(State()), data)
    {
      if !isConnected {
        Connect();
        return;
      }
      if hasConnection {
        sent := sent + [data];
      }
    }

    method StateChanged(state: ConnectionState)
      modifies this
      ensures State() == AfterStateChange(old(State()), state)
    {
      match state {
        case Ready => isConnected := true;
        case Failed => isConnected := false;
        case Cancelled => isConnected := false;
        case _ =>
      }
    }

    /** `handleError`, run when a send completes with an error. */
    method SendFailed()
      modifies this
      ensures State() == AfterDrop(old(State()))
    {
      isConnected := false;
      hasConnection := false;
    }

    method Disconnect()
      modifies this
      ensures State() == AfterDrop(old(State()))
    {
      isConnected := false;
      hasConnection := false;
    }
  }

  /** What the handler hands the client for one encoder event: a packet as it is, with
      no timestamp or size header; the parameter sets one after the other, SPS first,
      each behind a start code. */
  function Outgoing(e: EncoderEvent): (r: seq<bytes>)
  {
    match e
    case Packet(data, _, _) => [data]
    case ParameterSets(sps, pps) => [START_CODE + sps, START_CODE + pps]
  }

  function OutgoingAll(events: seq<EncoderEvent>): seq<bytes>
  {
    if events == [] then [] else Outgoing(events[0]) + OutgoingAll(events[1..])
  }

  lemma OutgoingKeyframe(sps: bytes, pps: bytes, conv: bytes, pts: int)
    ensures OutgoingAll([ParameterSets(sps, pps), Packet(conv, pts, true)]) == [START_CODE + sps, START_CODE + pps, conv]
  {
    var es := [ParameterSets(sps, pps), Packet(conv, pts, true)];
    var fs := [Packet(conv, pts, true)];
    assert es[1..] == fs && fs[1..] == [];
    assert OutgoingAll(fs) == [conv];
  }

  lemma ConcatThree(x: bytes, y: bytes, z: bytes)
    ensures Concat([x, y, z]) == x + y + z
  {
    var ps: seq<bytes> := [x, y, z];
    var qs: seq<bytes> := [y, z];
    var rs: seq<bytes> := [z];
    assert ps[1..] == qs && qs[1..] == rs && rs[1..] == [];
    assert Concat(rs) == z;
    assert Concat(qs) == y + z;
  }

  lemma AnnexBTwoBefore(a: bytes, b: bytes, units: seq<bytes>)
    ensures AnnexB([a, b] + units) == START_CODE + a + (START_CODE + b) + AnnexB(units)
  {
    var us := [a, b] + units;
    assert us[0] == a && us[1..][0] == b && us[1..][1..] == units;
  }

  /** For a keyframe whose parameter sets and data could be read, the bytes the client
      is offered, joined, are one start-code stream: SPS, PPS, then the frame's NAL
      units in order. */
  lemma KeyframeStream(s: EncodedSample)
    requires SampleWellFormed(s) && IsKeyFrame(s.attachments)
    requires s.sps.Some? && s.pps.Some? && s.data.Some?
    ensures Concat(OutgoingAll(FrameEvents(s))) == AnnexB([s.sps.value, s.pps.value] + Units(s.data.value))
  {
    var sps, pps, data := s.sps.value, s.pps.value, s.data.value;
    var conv := Converted(data);
    assert FrameEvents(s) == [ParameterSets(sps, pps), Packet(conv, s.ptsUs, true)];
    OutgoingKeyframe(sps, pps, conv, s.ptsUs);
    ConcatThree(START_CODE + sps, START_CODE + pps, conv);
    ConvertedIsAnnexB(data);
    AnnexBTwoBefore(sps, pps, Units(data));
  }

  /** Offering two packets is offering one after the other. */
  lemma OfferedTwo(s: ClientState, a: bytes, b: bytes)
    ensures OfferedAll(s, [a, b]) == AfterSend(AfterSend(s, a), b)
  {
    var bs: seq<bytes> := [a, b];
    var cs: seq<bytes> := [b];
    assert bs[1..] == cs && cs[1..] == [];
    assert OfferedAll(AfterSend(s, a), cs) == AfterSend(AfterSend(s, a), b);
  }

  class SampleHandler {
    var encoder: Encoder?
    var client: StreamClient?
    var frameCount: nat

    constructor ()
      ensures encoder == null && client == null && frameCount == 0
    {
      encoder := null;
      client := null;
      frameCount := 0;
    }

    /** `broadcastStarted`: a new client, connecting at once; the encoder waits for the
        first frame. */
    method BroadcastStarted()
      modifies this
      ensures fresh(client) && client.State() == ClientState(false, true, 1, [])
      ensures encoder == old(encoder) && frameCount == old(frameCount)
    {
      client := new StreamClient();
      client.Connect();
    }

    /** `broadcastResumed`: reconnect at once, and drop the encoder so that the next
        frame creates a new one. */
    method BroadcastResumed()
      modifies this, client, encoder
      ensures encoder == null && client == old(client) && frameCount == old(frameCount)
      ensures old(encoder) != null ==> old(encoder).session == None
      ensures client != null ==> client.State() == AfterConnect(AfterDrop(old(client.State())))
    {
      if client != null {
        client.Disconnect();
        client.Connect();
      }
      if encoder != null {
        encoder.Stop();
      }
      encoder := null;
    }

    /** `broadcastFinished`: stop and drop the encoder, disconnect and drop the client. */
    method BroadcastFinished()
      modifies this, client, encoder
      ensures encoder == null && client == null && frameCount == old(frameCount)
      ensures old(encoder) != null ==> old(encoder).session == None
      ensures old(client) != null ==> old(client).State() == AfterDrop(old(client.State()))
    {
      if encoder != null {
        encoder.Stop();
      }
      encoder := null;
      if client != null {
        client.Disconnect();
      }
      client := null;
    }

    /** A video sample of `width` by `height` pixels: the encoder is replaced exactly
        when there is none or its size differs, and the frame is then encoded.
        `created` is whether a new encoder's session could be created. */
    method ProcessVideo(width: int, height: int, created: bool)
      modifies this, encoder
      ensures encoder != null && encoder.width == width && encoder.height == height
      ensures var e := old(encoder);
        (e == null || e.width != width || e.height != height) <==> encoder != e
      ensures encoder != old(encoder) ==>
        fresh(encoder) && encoder.bitrate == BITRATE &&
        encoder.session == (if created then Some(Configure(width, height, BITRATE)) else None) &&
        encoder.submitted == (if created then 1 else 0) &&
        (old(encoder) != null ==> old(encoder).session == None)
      ensures encoder == old(encoder) ==>
        encoder.session == old(encoder.session) &&
        encoder.submitted == old(encoder.submitted) + (if encoder.session.Some? then 1 else 0)
      ensures client == old(client) && frameCount == old(frameCount) + 1
    {
      if encoder == null || encoder.width != width || encoder.height != height {
        if encoder != null {
          encoder.Stop();
        }
        encoder := new Encoder(width, height, BITRATE);
        encoder.Start(created);
      }
      encoder.Encode(true);
      frameCount := frameCount + 1;
    }

    /** The delegate callbacks: each encoder event goes to the client, if there is one. */
    method Deliver(e: EncoderEvent)
      modifies client
      ensures client != null ==> client.State() == OfferedAll(old(client.State()), Outgoing(e))
    {
      if client != null {
        match e {
          case Packet(data, _, _) =>
            client.Send(data);
          case ParameterSets(sps, pps) =>
            OfferedTwo(client.State(), START_CODE + sps, START_CODE + pps);
            client.Send(START_CODE + sps);
            client.Send(START_CODE + pps);
        }
      }
    }
  }

  /** The client after being offered the packets in order. */
  function OfferedAll(s: ClientState, packets: seq<bytes>): ClientState
    decreases |packets|
  {
    if packets == [] then s else OfferedAll(AfterSend(s, packets[0]), packets[1..])
  }
}
