/** The device's audio stream: a fixed 12-byte header, then one framed packet per
    capture read, with a flush on every tenth packet starting with the first. */
module AudioEncoder {
  import opened Base
  import opened Bytes
  import opened Framing
  import opened PacketChannel
  import opened AudioCapture

  const MAGIC: bytes := [0x41, 0x55, 0x44, 0x49, 0x4F, 0x00]
  const CODEC_RAW_PCM: byte := 0
  const FLUSH_EVERY: nat := 10

  /** "AUDIO\0", the sample rate as a big-endian 32-bit integer, the channel count, the
      codec byte. */
  function AudioHeader(): (h: bytes)
    ensures |h| == 12 && h[..6] == MAGIC && h[6..10] == BE(SAMPLE_RATE, 4)
    ensures h[10] == CHANNELS && h[11] == CODEC_RAW_PCM
  {
    MAGIC + BE(SAMPLE_RATE, 4) + [CHANNELS as byte, CODEC_RAW_PCM]
  }

  /** The writes for packet number k (counting from 0): the framed packet, and a flush
      when k is a multiple of ten. */
  function PacketOps(pts: int, data: bytes, k: nat): seq<StreamOp>
    requires |data| < MAX_FIELD_SIZE
  {
    [Write(Frame(pts, data))] + (if k % FLUSH_EVERY == 0 then [Flush] else [])
  }

  predicate Small(sent: seq<(int, bytes)>)
  {
    forall i :: 0 <= i < |sent| ==> |sent[i].1| < MAX_FIELD_SIZE
  }

  /** The stream operations for the packets sent, in order. */
  function StreamOps(sent: seq<(int, bytes)>): seq<StreamOp>
    requires Small(sent)
  {
    if sent == [] then []
    else StreamOps(sent[..|sent| - 1]) + PacketOps(sent[|sent| - 1].0, sent[|sent| - 1].1, |sent| - 1)
  }

  function Flushes(ops: seq<StreamOp>): nat
  {
    if ops == [] then 0 else (if ops[0] == Flush then 1 else 0) + Flushes(ops[1..])
  }

  lemma {:induction false} FlushesAppend(a: seq<StreamOp>, b: seq<StreamOp>)
    ensures Flushes(a + b) == Flushes(a) + Flushes(b)
  {
    if a != [] {
      assert (a + b)[1..] == a[1..] + b;
      FlushesAppend(a[1..], b);
    } else {
      assert a + b == b;
    }
  }

  /** n packets are flushed ceil(n / 10) times: after the 1st, 11th, 21st, ... */
  lemma {:induction false} FlushCount(sent: seq<(int, bytes)>)
    requires Small(sent)
    ensures Flushes(StreamOps(sent)) == (|sent| + FLUSH_EVERY - 1) / FLUSH_EVERY
  {
    if sent != [] {
      var init := sent[..|sent| - 1];
      var k := |sent| - 1;
      assert Small(init);
      FlushCount(init);
      FlushesAppend(StreamOps(init), PacketOps(sent[k].0, sent[k].1, k));
      PacketFlushes(sent[k].0, sent[k].1, k);
      CeilStep(k);
    }
  }

  /** Packet number k brings a flush exactly when k is a multiple of ten. */
  lemma PacketFlushes(pts: int, data: bytes, k: nat)
    requires |data| < MAX_FIELD_SIZE
    ensures Flushes(PacketOps(pts, data, k)) == if k % FLUSH_EVERY == 0 then 1 else 0
  {
    var w: seq<StreamOp> := [Write(Frame(pts, data))];
    assert w[1..] == [];
    var f: seq<StreamOp> := if k % FLUSH_EVERY == 0 then [Flush] else [];
    assert f != [] ==> f[1..] == [];
    FlushesAppend(w, f);
  }

  lemma CeilStep(k: nat)
    ensures (k + 1 + FLUSH_EVERY - 1) / FLUSH_EVERY == (k + FLUSH_EVERY - 1) / FLUSH_EVERY + if k % FLUSH_EVERY == 0 then 1 else 0
  {
  }

  /** One pass of the stream loop: what the capture's `read` returned and the bytes it
      left in the buffer, with the clock for a first stamp; or an exception from the
      read or from the write, which ends the loop. */
  datatype Pass = Got(count: int, buffer: bytes, clockUs: nat) | Threw

  predicate Readable(passes: seq<Pass>)
  {
    forall i :: 0 <= i < |passes| && passes[i].Got? ==>
      passes[i].count <= MAX_READ_SIZE && (passes[i].count > 0 ==> passes[i].count <= |passes[i].buffer|)
  }

  /** The payloads of the passes with bytes, up to the first exception. */
  function Payloads(passes: seq<Pass>): seq<bytes>
  {
    if passes == [] || passes[0].Threw? then []
    else if passes[0].count > 0 && passes[0].count <= |passes[0].buffer| then
      [passes[0].buffer[..passes[0].count]] + Payloads(passes[1..])
    else Payloads(passes[1..])
  }

  function Datas(sent: seq<(int, bytes)>): seq<bytes>
  {
    if sent == [] then [] else Datas(sent[..|sent| - 1]) + [sent[|sent| - 1].1]
  }

  lemma {:induction false} PayloadsSplit(passes: seq<Pass>, i: nat)
    requires i <= |passes| && forall j :: 0 <= j < i ==> passes[j].Got?
    ensures Payloads(passes) == Payloads(passes[..i]) + Payloads(passes[i..])
  {
    if i > 0 {
      PayloadsSplit(passes[1..], i - 1);
      assert passes[1..][..i - 1] == passes[..i][1..];
      assert passes[1..][i - 1..] == passes[i..];
    }
  }

  lemma PayloadsSnoc(passes: seq<Pass>, i: nat)
    requires i < |passes| && forall j :: 0 <= j <= i ==> passes[j].Got?
    ensures Payloads(passes[..i + 1]) == Payloads(passes[..i])
      + (if passes[i].count > 0 && passes[i].count <= |passes[i].buffer| then [passes[i].buffer[..passes[i].count]] else [])
  {
    PayloadsSplit(passes[..i + 1], i);
    assert passes[..i + 1][..i] == passes[..i];
    assert passes[..i + 1][i..] == [passes[i]];
    assert [passes[i]][1..] == [];
  }

  /** Strictly increasing timestamps. */
  predicate Increasing(sent: seq<(int, bytes)>)
  {
    forall i, j :: 0 <= i < j < |sent| ==> sent[i].0 < sent[j].0
  }

  /** Timestamps in [0, bound). */
  predicate Below(sent: seq<(int, bytes)>, bound: int)
  {
    forall i :: 0 <= i < |sent| ==> 0 <= sent[i].0 < bound
  }

  lemma SentSnoc(sent: seq<(int, bytes)>, x: (int, bytes))
    requires Small(sent) && |x.1| < MAX_FIELD_SIZE
    ensures Small(sent + [x])
    ensures StreamOps(sent + [x]) == StreamOps(sent) + PacketOps(x.0, x.1, |sent|)
    ensures Datas(sent + [x]) == Datas(sent) + [x.1]
  {
    var s2 := sent + [x];
    assert s2[..|s2| - 1] == sent && s2[|s2| - 1] == x;
    assert Small(s2) by {
      forall i | 0 <= i < |s2|
        ensures |s2[i].1| < MAX_FIELD_SIZE
      {
        if i < |sent| {
          assert s2[i] == sent[i];
        }
      }
    }
  }

  lemma StampSnoc(sent: seq<(int, bytes)>, x: (int, bytes), bound: int, next: int)
    requires Increasing(sent) && Below(sent, bound) && 0 <= x.0 < next && (sent != [] ==> bound <= x.0)
    ensures Increasing(sent + [x]) && Below(sent + [x], next)
  {
    var s2 := sent + [x];
    assert forall i :: 0 <= i < |sent| ==> s2[i] == sent[i];
  }

  /** What the stream loop has established after its first i passes: none of them
      threw, ... */
  predicate Progress(passes: seq<Pass>, i: nat, sent: seq<(int, bytes)>, output: seq<StreamOp>,
                     start: seq<StreamOp>, rec: Option<Path>, nextPts: int)
  {
    Scanned(passes, i) && Written(sent, output, start) && Carried(passes, i, sent, rec)
    && Stamped(sent, nextPts)
  }

  predicate Scanned(passes: seq<Pass>, i: nat)
  {
    i <= |passes| && forall j :: 0 <= j < i ==> passes[j].Got?
  }

  /** ... every packet sent is on the stream, ... */
  predicate Written(sent: seq<(int, bytes)>, output: seq<StreamOp>, start: seq<StreamOp>)
  {
    Small(sent) && output == start + StreamOps(sent)
  }

  /** ... the packets carry the payloads read, none without a recorder, ... */
  predicate Carried(passes: seq<Pass>, i: nat, sent: seq<(int, bytes)>, rec: Option<Path>)
    requires i <= |passes|
  {
    (rec.None? ==> sent == []) && (rec.Some? ==> Datas(sent) == Payloads(passes[..i]))
  }

  /** ... and their stamps increase and stay below the next one. */
  predicate Stamped(sent: seq<(int, bytes)>, nextPts: int)
  {
    nextPts >= 0 && (sent != [] ==> nextPts > 0) && Increasing(sent) && Below(sent, nextPts)
  }

  /** A pass that sends packet x keeps the loop's account. */
  lemma ProgressSend(passes: seq<Pass>, i: nat, sent: seq<(int, bytes)>, x: (int, bytes),
                     before: seq<StreamOp>, after: seq<StreamOp>, start: seq<StreamOp>,
                     rec: Option<Path>, bound: int, next: int)
    requires i < |passes| && passes[i].Got? && rec.Some?
    requires Progress(passes, i, sent, before, start, rec, bound)
    requires 0 < passes[i].count <= |passes[i].buffer| && x.1 == passes[i].buffer[..passes[i].count]
    requires |x.1| < MAX_FIELD_SIZE && after == before + PacketOps(x.0, x.1, |sent|)
    requires 0 <= x.0 < next && (sent != [] ==> bound <= x.0)
    ensures Progress(passes, i + 1, sent + [x], after, start, rec, next)
  {
    SentSnoc(sent, x);
    assert Written(sent + [x], after, start) by {
      assert after == start + (StreamOps(sent) + PacketOps(x.0, x.1, |sent|));
    }
    assert Carried(passes, i + 1, sent + [x], rec) by {
      PayloadsSnoc(passes, i);
    }
    assert Stamped(sent + [x], next) by {
      StampSnoc(sent, x, bound, next);
    }
  }

  /** A pass that sends nothing keeps it too. */
  lemma ProgressSkip(passes: seq<Pass>, i: nat, sent: seq<(int, bytes)>, output: seq<StreamOp>,
                     start: seq<StreamOp>, rec: Option<Path>, bound: int)
    requires i < |passes| && passes[i].Got? && (rec.None? || passes[i].count <= 0)
    requires Progress(passes, i, sent, output, start, rec, bound)
    ensures Progress(passes, i + 1, sent, output, start, rec, bound)
  {
    PayloadsSnoc(passes, i);
  }

  class Encoder {
    const capture: Capture
    var isRunning: bool
    var hasThread: bool
    var output: seq<StreamOp>

    constructor (capture: Capture)
      ensures this.capture == capture && !isRunning && !hasThread && output == []
    {
      this.capture := capture;
      isRunning, hasThread, output := false, false, [];
    }

    /** Starts capture; only if that succeeds does it write the header, flush, and start
        the stream thread. */
    method Start(sdk: int, policy: Attempt, submix: Attempt) returns (ok: bool)
      modifies this, capture
      ensures ok == (sdk >= SDK_R && ((sdk >= SDK_TIRAMISU && policy == Recording) || submix == Recording))
      ensures !ok ==> output == old(output) && isRunning == old(isRunning) && hasThread == old(hasThread)
      ensures capture.nextPts == old(capture.nextPts)
      ensures ok ==> isRunning && hasThread && output == old(output) + [Write(AudioHeader()), Flush]
    {
      ok := capture.Start(sdk, policy, submix);
      if !ok {
        return;
      }
      isRunning := true;
      output := output + [Write(AudioHeader()), Flush];
      hasThread := true;
    }

    /** Clears the flag, ends the thread (interrupt, join of at most a second), then
        stops capture. */
    method Stop()
      modifies this, capture
      ensures !isRunning && !hasThread && output == old(output)
      ensures capture.recorder.None? && !capture.audioPolicy
    {
      isRunning := false;
      hasThread := false;
      capture.Stop();
    }

    /** One pass with bytes: read, and frame and write what arrived as packet k. */
    method Pump(p: Pass, k: nat) returns (packet: Option<(int, bytes)>)
      requires p.Got? && p.count <= MAX_READ_SIZE && (p.count > 0 ==> p.count <= |p.buffer|)
      requires capture.nextPts >= 0
      modifies this, capture
      ensures capture.recorder == old(capture.recorder) && capture.nextPts >= old(capture.nextPts)
      ensures packet.Some? <==> capture.recorder.Some? && p.count > 0
      ensures packet.None? ==> output == old(output) && capture.nextPts == old(capture.nextPts)
      ensures packet.Some? ==>
        |packet.value.1| < MAX_FIELD_SIZE
        && packet.value.1 == p.buffer[..p.count]
        && output == old(output) + PacketOps(packet.value.0, packet.value.1, k)
        && packet.value.0 == (if old(capture.nextPts) == 0 then p.clockUs else old(capture.nextPts))
        && 0 <= packet.value.0 < capture.nextPts
    {
      var n, data := capture.Read(p.count, p.buffer, p.clockUs);
      packet := None;
      if n > 0 {
        var pts := capture.info.value.1;
        assert DurationUs(n) > 0 by {
          assert n * 1000000 >= 1000000;
        }
        output := output + PacketOps(pts, data, k);
        packet := Some((pts, data));
      }
    }

    /** Pass i of the loop: pump it, and account for a packet it sends. */
    method Advance(passes: seq<Pass>, i: nat, sent: seq<(int, bytes)>, ghost start: seq<StreamOp>, ghost rec: Option<Path>)
      returns (sent': seq<(int, bytes)>)
      requires Readable(passes) && i < |passes| && passes[i].Got? && capture.recorder == rec
      requires Progress(passes, i, sent, output, start, rec, capture.nextPts)
      modifies this, capture
      ensures capture.recorder == rec
      ensures Progress(passes, i + 1, sent', output, start, rec, capture.nextPts)
    {
      var p := passes[i];
      ghost var bound := capture.nextPts;
      ghost var before := output;
      var packet := Pump(p, |sent|);
      sent' := sent;
      if packet.Some? {
        var x := packet.value;
        ProgressSend(passes, i, sent, x, before, output, start, rec, bound, capture.nextPts);
        sent' := sent + [x];
      } else {
        ProgressSkip(passes, i, sent, output, start, rec, capture.nextPts);
      }
    }

    /** The stream thread over the passes made while the encoder ran. Packet k of the
        loop is written with the timestamp the capture stamped on it. */
    method StreamLoop(passes: seq<Pass>) returns (sent: seq<(int, bytes)>)
      requires Readable(passes) && capture.nextPts >= 0
      modifies this, capture
      ensures Small(sent) && output == old(output) + StreamOps(sent)
      ensures capture.recorder == old(capture.recorder)
      ensures old(capture.recorder).None? ==> sent == []
      ensures old(capture.recorder).Some? ==> Datas(sent) == Payloads(passes)
      ensures Increasing(sent) && Below(sent, capture.nextPts)
    {
      sent := [];
      ghost var rec := capture.recorder;
      ghost var start := output;
      var i := 0;
      while i < |passes| && passes[i].Got?
        invariant i <= |passes| && capture.recorder == rec
        invariant Progress(passes, i, sent, output, start, rec, capture.nextPts)
      {
        sent := Advance(passes, i, sent, start, rec);
        i := i + 1;
      }
      if i < |passes| {
        PayloadsSplit(passes, i);
        assert Payloads(passes[i..]) == [];
      } else {
        assert passes[..i] == passes;
      }
    }
  }

  /** A started encoder's stream begins with the header, before any packet. */
  method StartThenStream(e: Encoder, sdk: int, policy: Attempt, submix: Attempt, passes: seq<Pass>)
    returns (ok: bool, sent: seq<(int, bytes)>)
    requires e.output == [] && Readable(passes) && e.capture.nextPts >= 0
    modifies e, e.capture
    ensures Small(sent)
    ensures ok ==> |e.output| >= 2 && e.output[..2] == [Write(AudioHeader()), Flush] && e.output[2..] == StreamOps(sent)
    ensures !ok ==> e.output == [] && sent == []
  {
    ok := e.Start(sdk, policy, submix);
    sent := [];
    if ok {
      sent := e.StreamLoop(passes);
    }
  }
}
