/** The host's single-slot hand-over of decoded frames from the decoder thread to the
    renderer: a newer frame replaces an unconsumed older one, and a push that meets a
    held lock drops its frame instead of waiting. */
module FrameBuffer {
  import opened Base
  import opened Bytes
  import opened Sequences

  /** The counter is a 64-bit atomic: `fetch_add` wraps around. */
  const U64: nat := 0x1_0000_0000_0000_0000

  /** One decoded I420 frame; U and V share one stride. */
  datatype FrameData = FrameData(width: nat, height: nat, y: bytes, u: bytes, v: bytes,
                                 yStride: nat, uvStride: nat)

  /** The slot and the number of frames stored in it so far. */
  datatype Slot = Slot(pending: Option<FrameData>, count: nat)

  ghost predicate CountInRange(s: Slot)
  {
    s.count < U64
  }

  /** `push`: `contended` says that `try_lock` found the lock held. The second component
      says whether a frame was lost. */
  function AfterPush(s: Slot, frame: FrameData, contended: bool): (r: (Slot, bool))
    ensures CountInRange(s) ==> CountInRange(r.0)
  {
    if contended then (s, true)
    else (Slot(Some(frame), (s.count + 1) % U64), s.pending.Some?)
  }

  /** `consume`: a contended lock reads as no frame and leaves the slot alone. */
  function AfterConsume(s: Slot, contended: bool): (r: (Slot, Option<FrameData>))
    ensures r.0.count == s.count
  {
    if contended then (s, None) else (s.(pending := None), s.pending)
  }

  /** An uncontended push reports a lost frame exactly when one was pending, and
      afterwards the new frame is the pending one. */
  lemma PushSkipsPending(s: Slot, frame: FrameData)
    ensures AfterPush(s, frame, false).1 <==> s.pending.Some?
    ensures AfterPush(s, frame, false).0.pending == Some(frame)
    ensures CountInRange(s) ==> AfterPush(s, frame, false).0.count == if s.count == U64 - 1 then 0 else s.count + 1
  {
  }

  /** A contended push loses its own frame and changes nothing. */
  lemma ContendedPushDrops(s: Slot, frame: FrameData)
    ensures AfterPush(s, frame, true) == (s, true)
  {
  }

  /** A frame pushed is the frame the next uncontended consume returns, and a second
      consume right after returns nothing. */
  lemma PushThenConsume(s: Slot, frame: FrameData)
    ensures AfterConsume(AfterPush(s, frame, false).0, false).1 == Some(frame)
    ensures AfterConsume(AfterConsume(AfterPush(s, frame, false).0, false).0, false).1 == None
  {
  }

  /** One step seen from outside: a push with its lock outcome, or a consume with its. */
  datatype Op = PushOp(frame: FrameData, contended: bool) | ConsumeOp(contended: bool)

  /** The frames the consumer receives over a run of steps, in order. */
  datatype Run = Run(slot: Slot, consumed: seq<FrameData>)

  function Step(r: Run, op: Op): Run
  {
    match op
    case PushOp(f, c) =>
      Run(AfterPush(r.slot, f, c).0, r.consumed)
    case ConsumeOp(c) =>
      var (s, got) := AfterConsume(r.slot, c);
      Run(s, if got.Some? then r.consumed + [got.value] else r.consumed)
  }

  function RunAll(r: Run, ops: seq<Op>): Run
    decreases |ops|
  {
    if ops == [] then r else RunAll(Step(r, ops[0]), ops[1..])
  }

  /** The frames whose push took the lock, in push order. */
  function Stored(ops: seq<Op>): seq<FrameData>
  {
    if ops == [] then []
    else (if ops[0].PushOp? && !ops[0].contended then [ops[0].frame] else []) + Stored(ops[1..])
  }

  /** The number of pushes that took the lock. */
  function StoredCount(ops: seq<Op>): (n: nat)
    ensures n == |Stored(ops)|
  {
    if ops == [] then 0
    else (if ops[0].PushOp? && !ops[0].contended then 1 else 0) + StoredCount(ops[1..])
  }

  /** What the consumer will still see: the consumed frames and the pending one. */
  function Seen(r: Run): seq<FrameData>
  {
    r.consumed + if r.slot.pending.Some? then [r.slot.pending.value] else []
  }

  /** One step: what the consumer sees after it is what it saw before, with the
      pending frame possibly replaced by the newly stored one. */
  lemma OneStepSeen(r: Run, op: Op)
    ensures SubsequenceOf(Seen(Step(r, op)), Seen(r) + Stored([op]))
  {
    assert Stored([op]) == (if op.PushOp? && !op.contended then [op.frame] else []) + Stored([]);
    var t := Step(r, op);
    match op
    case PushOp(f, c) =>
      if c {
        assert Seen(t) == Seen(r) + Stored([op]);
        SubsequenceRefl(Seen(t));
      } else {
        assert Seen(t) == r.consumed + [f];
        var prior := if r.slot.pending.Some? then [r.slot.pending.value] else [];
        assert Seen(r) + Stored([op]) == r.consumed + (prior + [f]);
        assert SubsequenceOf([f], prior + [f]) by {
          SubsequenceRefl([f]);
          if prior != [] {
            SubsequenceSkip([f], prior[0], [f]);
            assert [prior[0]] + [f] == prior + [f];
          } else {
            assert prior + [f] == [f];
          }
        }
        SubsequencePrefix(r.consumed, [f], prior + [f]);
      }
    case ConsumeOp(c) =>
      assert Stored([op]) == [];
      assert Seen(t) == Seen(r);
      assert Seen(r) + Stored([op]) == Seen(r);
      SubsequenceRefl(Seen(t));
  }

  /** Over any run, the frames the consumer receives, followed by the one still pending,
      are the stored frames with some left out and the rest in their push order: no
      frame is received twice, out of order, or without having been pushed. */
  lemma {:induction false} ConsumedInPushOrder(r: Run, ops: seq<Op>)
    ensures SubsequenceOf(Seen(RunAll(r, ops)), Seen(r) + Stored(ops))
    decreases |ops|
  {
    if ops == [] {
      assert Seen(r) + Stored(ops) == Seen(r);
      SubsequenceRefl(Seen(r));
    } else {
      var t := Step(r, ops[0]);
      ConsumedInPushOrder(t, ops[1..]);
      OneStepSeen(r, ops[0]);
      var first, later := Stored([ops[0]]), Stored(ops[1..]);
      SubsequenceAppendBoth(Seen(t), Seen(r) + first, later);
      SubsequenceTrans(Seen(RunAll(t, ops[1..])), Seen(t) + later, Seen(r) + first + later);
      StoredCons(ops);
      assert Seen(r) + Stored(ops) == Seen(r) + first + later;
    }
  }

  lemma StoredCons(ops: seq<Op>)
    requires ops != []
    ensures Stored(ops) == Stored([ops[0]]) + Stored(ops[1..])
  {
    var h := if ops[0].PushOp? && !ops[0].contended then [ops[0].frame] else [];
    var one := [ops[0]];
    assert one[0] == ops[0] && one[1..] == [];
    assert Stored(one) == h + Stored([]);
    assert h + [] == h;
  }

  /** Over any run the counter advances by the number of pushes that took the lock,
      modulo 2^64. */
  lemma {:induction false} CountsStoredPushes(r: Run, ops: seq<Op>)
    requires CountInRange(r.slot)
    ensures RunAll(r, ops).slot.count == (r.slot.count + StoredCount(ops)) % U64
    decreases |ops|
  {
    if ops != [] {
      var t := Step(r, ops[0]);
      CountsStoredPushes(t, ops[1..]);
      var k := if ops[0].PushOp? && !ops[0].contended then 1 else 0;
      assert t.slot.count == (r.slot.count + k) % U64;
      assert StoredCount(ops) == k + StoredCount(ops[1..]);
      AddMod(r.slot.count, k, StoredCount(ops[1..]));
    }
  }

  lemma AddMod(a: nat, k: nat, n: nat)
    ensures ((a + k) % U64 + n) % U64 == (a + k + n) % U64
  {
    var q := (a + k) / U64;
    assert a + k == q * U64 + (a + k) % U64;
    assert a + k + n == q * U64 + ((a + k) % U64 + n);
    ModShift(q, (a + k) % U64 + n);
  }

  lemma ModShift(q: nat, m: nat)
    ensures (q * U64 + m) % U64 == m % U64
  {
    var r := m % U64;
    var p := m / U64;
    assert m == p * U64 + r;
    assert q * U64 + m == (q + p) * U64 + r;
  }

  /** The slot as a shared object. */
  class Buffer {
    var pending: Option<FrameData>
    var frameCount: nat

    ghost function State(): Slot
      reads this
    {
      Slot(pending, frameCount)
    }

    ghost predicate Valid()
      reads this
    {
      frameCount < U64
    }

    constructor ()
      ensures Valid() && State() == Slot(None, 0)
    {
      pending := None;
      frameCount := 0;
    }

    /** `contended` stands for the outcome of `try_lock`. */
    method Push(frame: FrameData, contended: bool) returns (skipped: bool)
      requires Valid()
      modifies this
      ensures Valid()
      ensures (State(), skipped) == AfterPush(old(State()), frame, contended)
    {
      if !contended {
        skipped := pending.Some?;
        pending := Some(frame);
        frameCount := if frameCount == U64 - 1 then 0 else frameCount + 1;
      } else {
        skipped := true;
      }
    }

    method Consume(contended: bool) returns (frame: Option<FrameData>)
      modifies this
      ensures (State(), frame) == AfterConsume(old(State()), contended)
    {
      if contended {
        frame := None;
      } else {
        frame := pending;
        pending := None;
      }
    }

    method GetCount() returns (n: nat)
      requires Valid()
      ensures n == frameCount && n < U64
    {
      n := frameCount;
    }
  }
}
