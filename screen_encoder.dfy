/** The device's video encoder wrapper: the encoder size rounded up to a multiple of 16,
    a single configuration attempt, and the loop that frames the codec's output buffers
    and parameter sets into packets for the packet writer. */
module ScreenEncoder {
  import opened Base
  import opened Bytes
  import opened Numbers
  import opened Framing
  import opened PacketChannel

  /** `((w + 15) / 16) * 16` on 32-bit signed integers. */
  function RoundUp16(w: int): int
    requires INT_MIN <= w <= INT_MAX
  {
    Wrap32(TruncDiv(Wrap32(w + 15), 16) * 16)
  }

  /** Without overflow the rounded size is the least multiple of 16 not below w. */
  lemma RoundUp16Bounds(w: int)
    requires 0 <= w <= INT_MAX - 15
    ensures RoundUp16(w) % 16 == 0
    ensures w <= RoundUp16(w) < w + 16
    ensures w % 16 == 0 ==> RoundUp16(w) == w
  {
    var q := (w + 15) / 16;
    assert TruncDiv(w + 15, 16) == q;
    assert q * 16 <= w + 15 < q * 16 + 16;
    assert q * 16 <= INT_MAX;
  }

  /** What one `dequeueOutputBuffer` call gave: an encoded buffer (None when
      `getOutputBuffer` returned null), a format change carrying the parameter sets that
      are present, or nothing within the timeout. An exception is swallowed and reads as
      nothing. */
  datatype CodecOutput =
    | Buffer(id: nat, pts: int, data: Option<bytes>)
    | FormatChanged(csd0: Option<bytes>, csd1: Option<bytes>)
    | TryAgain

  predicate Fits(o: Option<bytes>)
  {
    o.Some? ==> |o.value| < MAX_FIELD_SIZE
  }

  /** Every byte array the codec hands out fits a Java array, so its size fits the field. */
  predicate OutputFits(o: CodecOutput)
  {
    match o
    case Buffer(_, _, data) => Fits(data)
    case FormatChanged(csd0, csd1) => Fits(csd0) && Fits(csd1)
    case TryAgain => true
  }

  predicate WellSized(outputs: seq<CodecOutput>)
  {
    forall i :: 0 <= i < |outputs| ==> OutputFits(outputs[i])
  }

  /** The packet a parameter set travels in: timestamp 0. */
  function ConfigPacket(csd: Option<bytes>): seq<bytes>
    requires Fits(csd)
  {
    if csd.Some? then [Frame(0, csd.value)] else []
  }

  /** The packets one output yields, in queueing order. */
  function PacketsOf(o: CodecOutput): seq<bytes>
    requires OutputFits(o)
  {
    match o
    case Buffer(_, pts, data) => if data.Some? && |data.value| > 0 then [Frame(pts, data.value)] else []
    case FormatChanged(csd0, csd1) => ConfigPacket(csd0) + ConfigPacket(csd1)
    case TryAgain => []
  }

  function Offered(outputs: seq<CodecOutput>): seq<bytes>
    requires WellSized(outputs)
  {
    if outputs == [] then [] else Offered(outputs[..|outputs| - 1]) + PacketsOf(outputs[|outputs| - 1])
  }

  /** The buffers handed back to the codec: every encoded buffer, empty or not. */
  function Released(outputs: seq<CodecOutput>): seq<nat>
  {
    if outputs == [] then []
    else Released(outputs[..|outputs| - 1]) + (if outputs[|outputs| - 1].Buffer? then [outputs[|outputs| - 1].id] else [])
  }

  /** A format change queues csd-0 before csd-1, both at timestamp 0, skipping a
      missing one. */
  lemma FormatChangePackets(csd0: Option<bytes>, csd1: Option<bytes>)
    requires Fits(csd0) && Fits(csd1)
    ensures var p := PacketsOf(FormatChanged(csd0, csd1));
      |p| == (if csd0.Some? then 1 else 0) + (if csd1.Some? then 1 else 0)
      && (csd0.Some? ==> p[0] == Frame(0, csd0.value))
      && (csd1.Some? ==> p[|p| - 1] == Frame(0, csd1.value))
      && forall i :: 0 <= i < |p| ==> p[i][..8] == BE(0, 8)
  {
  }

  /** A non-empty buffer is queued as exactly one packet of 12 + size bytes whose header
      carries its timestamp and size. */
  lemma DataPacket(id: nat, pts: int, data: bytes)
    requires 0 < |data| < MAX_FIELD_SIZE
    ensures PacketsOf(Buffer(id, pts, Some(data))) == [Frame(pts, data)]
    ensures |Frame(pts, data)| == 12 + |data|
    ensures ParseHeader(Frame(pts, data)[..HEADER_SIZE]) == Header(pts % Pow256(8), |data|)
  {
    FrameRoundTrip(pts, data);
  }

  class Encoder {
    const width: int
    const height: int
    const bitrate: int
    var codecOpen: bool
    var surfaceOpen: bool
    var isRunning: bool
    /** The size the codec was configured with, once `start` got that far. */
    var configured: Option<(int, int)>

    constructor (width: int, height: int, bitrate: int)
      ensures this.width == width && this.height == height && this.bitrate == bitrate
      ensures !codecOpen && !surfaceOpen && !isRunning && configured.None?
    {
      this.width, this.height, this.bitrate := width, height, bitrate;
      codecOpen, surfaceOpen, isRunning, configured := false, false, false, None;
    }

    /** Releases the codec and surface; they are dropped even if a release throws. */
    method Stop()
      modifies this
      ensures !isRunning && !codecOpen && !surfaceOpen && configured == old(configured)
    {
      isRunning := false;
      codecOpen := false;
      surfaceOpen := false;
    }

    /** One configuration attempt at the size rounded up to 16. `succeeds` is whether
        creating the codec, its surface and the virtual display all went through; a
        failure stops the encoder and the exception propagates (false here). */
    method Start(succeeds: bool) returns (ok: bool)
      requires INT_MIN <= width <= INT_MAX && INT_MIN <= height <= INT_MAX
      modifies this
      ensures ok == succeeds
      ensures configured == Some((RoundUp16(width), RoundUp16(height)))
      ensures ok ==> isRunning && codecOpen && surfaceOpen
      ensures !ok ==> !isRunning && !codecOpen && !surfaceOpen
    {
      configured := Some((RoundUp16(width), RoundUp16(height)));
      if !succeeds {
        Stop();
        return false;
      }
      codecOpen, surfaceOpen := true, true;
      isRunning := true;
      ok := true;
    }

    /** Frames and queues the packets of one output: the writer's queue takes those of
        them it has room for while it runs, and nothing else of the writer changes. */
    method QueueOutput(o: CodecOutput, writer: PacketWriter) returns (packets: seq<bytes>)
      requires OutputFits(o) && writer.Valid()
      modifies writer
      ensures writer.Valid() && packets == PacketsOf(o)
      ensures writer.State() == AfterOffers(old(writer.State()), packets)
    {
      match o {
        case Buffer(_, pts, data) =>
          packets := [];
          if data.Some? && |data.value| > 0 {
            packets := [Frame(pts, data.value)];
            var _ := writer.QueuePacket(packets[0]);
          }
        case FormatChanged(csd0, csd1) =>
          packets := QueueFormatChange(csd0, csd1, writer);
        case TryAgain =>
          packets := [];
      }
    }

    /** A format change: csd-0 and then csd-1, each framed at timestamp 0 when present. */
    method QueueFormatChange(csd0: Option<bytes>, csd1: Option<bytes>, writer: PacketWriter) returns (packets: seq<bytes>)
      requires Fits(csd0) && Fits(csd1) && writer.Valid()
      modifies writer
      ensures writer.Valid() && packets == ConfigPacket(csd0) + ConfigPacket(csd1)
      ensures writer.State() == AfterOffers(old(writer.State()), packets)
    {
      ghost var w := writer.State();
      packets := [];
      if csd0.Some? {
        var packet := Frame(0, csd0.value);
        var _ := writer.QueuePacket(packet);
        packets := [packet];
      }
      if csd1.Some? {
        var packet := Frame(0, csd1.value);
        var _ := writer.QueuePacket(packet);
        AfterOffersAppend(w, packets, [packet]);
        packets := packets + [packet];
      }
    }

    /** The encoding thread: every output the codec produced before the encoder was
        stopped, in order. Packets go to the writer; `offered` lists them, and the
        writer's queue takes those it has room for while it runs. */
    method EncodingLoop(outputs: seq<CodecOutput>, writer: PacketWriter)
      returns (offered: seq<bytes>, released: seq<nat>)
      requires WellSized(outputs) && writer.Valid()
      modifies writer
      ensures writer.Valid()
      ensures !codecOpen ==> offered == [] && released == []
      ensures codecOpen ==> offered == Offered(outputs) && released == Released(outputs)
      ensures writer.State() == AfterOffers(old(writer.State()), offered)
    {
      offered, released := [], [];
      ghost var w0 := writer.State();
      if !codecOpen {
        assert Admitted(|w0.queue|, w0.running, []) == [];
        return;
      }
      var i := 0;
      while i < |outputs|
        invariant 0 <= i <= |outputs| && WellSized(outputs[..i])
        invariant offered == Offered(outputs[..i]) && released == Released(outputs[..i])
        invariant writer.Valid() && writer.State() == AfterOffers(w0, offered)
      {
        var o := outputs[i];
        var prefix := outputs[..i + 1];
        assert prefix[..i] == outputs[..i] && prefix[i] == o;
        assert WellSized(prefix);
        var packets := QueueOutput(o, writer);
        AfterOffersAppend(w0, offered, packets);
        offered := offered + packets;
        if o.Buffer? {
          released := released + [o.id];
        }
        i := i + 1;
      }
      assert outputs[..i] == outputs;
    }
  }
}
