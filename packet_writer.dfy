/** The device's single writer of the video socket: a bounded queue filled by the encoder
    and drained, one packet per iteration, by a writer thread that writes and flushes. */
module PacketChannel {
  import opened Bytes

  /** Capacity of the write queue; an offer to a full queue is refused. */
  const CAPACITY: nat := 100

  datatype StreamOp = Write(data: bytes) | Flush

  /** What one iteration of the writer thread met on the output stream. */
  datatype WriteOutcome = Written | WriteFailed | FlushFailed

  /** The data of the write operations, in order. */
  function WrittenData(ops: seq<StreamOp>): seq<bytes>
  {
    if ops == [] then []
    else (if ops[0].Write? then [ops[0].data] else []) + WrittenData(ops[1..])
  }

  lemma {:induction false} WrittenDataAppend(a: seq<StreamOp>, b: seq<StreamOp>)
    ensures WrittenData(a + b) == WrittenData(a) + WrittenData(b)
  {
    if a != [] {
      assert (a + b)[1..] == a[1..] + b;
      WrittenDataAppend(a[1..], b);
    } else {
      assert a + b == b;
    }
  }

  /** The packets a run of offers gets into a queue that holds `held` packets, with no
      writer iteration in between: none when the writer is stopped, otherwise the
      oldest offers up to the free room; the newest are the ones refused. */
  function Admitted(held: nat, running: bool, ps: seq<bytes>): (r: seq<bytes>)
    ensures r <= ps
    ensures !running ==> r == []
    ensures running && held + |ps| <= CAPACITY ==> r == ps
    ensures r != [] ==> held + |r| <= CAPACITY
    ensures running && held <= CAPACITY && r != ps ==> held + |r| == CAPACITY
  {
    if !running || held >= CAPACITY then []
    else if held + |ps| <= CAPACITY then ps
    else ps[..CAPACITY - held]
  }

  /** Offering two runs one after the other admits what offering them together does. */
  lemma AdmittedAppend(held: nat, running: bool, a: seq<bytes>, b: seq<bytes>)
    ensures Admitted(held, running, a + b)
      == Admitted(held, running, a) + Admitted(held + |Admitted(held, running, a)|, running, b)
  {
    if running && held < CAPACITY {
      var c := a + b;
      if held + |a| <= CAPACITY {
        assert Admitted(held, running, a) == a;
        if held + |c| > CAPACITY {
          assert c[..CAPACITY - held] == a + b[..CAPACITY - held - |a|];
        }
      } else {
        assert c[..CAPACITY - held] == a[..CAPACITY - held];
      }
    }
  }

  /** A single offer is admitted exactly when the writer runs and has room. */
  lemma AdmittedOne(held: nat, running: bool, p: bytes)
    ensures Admitted(held, running, [p]) == if running && held < CAPACITY then [p] else []
  {
  }

  /** The writer's fields, as one value. */
  datatype WriterState = WriterState(queue: seq<bytes>, accepted: seq<bytes>, running: bool, hasThread: bool,
                                     output: seq<StreamOp>, taken: seq<bytes>)

  /** The writer after a run of offers with no writer iteration in between: the queue
      and the accepted log take what `Admitted` lets in, and nothing else changes. */
  function AfterOffers(w: WriterState, ps: seq<bytes>): WriterState
  {
    var a := Admitted(|w.queue|, w.running, ps);
    w.(queue := w.queue + a, accepted := w.accepted + a)
  }

  /** Offers made in two runs leave the writer as the same offers made in one. */
  lemma AfterOffersAppend(w: WriterState, a: seq<bytes>, b: seq<bytes>)
    ensures AfterOffers(AfterOffers(w, a), b) == AfterOffers(w, a + b)
  {
    AdmittedAppend(|w.queue|, w.running, a, b);
    var x := Admitted(|w.queue|, w.running, a);
    var y := Admitted(|w.queue| + |x|, w.running, b);
    assert w.queue + x + y == w.queue + (x + y);
    assert w.accepted + x + y == w.accepted + (x + y);
  }

  class PacketWriter {
    var queue: seq<bytes>
    var running: bool
    var hasThread: bool
    /** Everything that reached the output stream. */
    var output: seq<StreamOp>
    /** Every packet the queue accepted, and those the writer thread took out, in order. */
    ghost var accepted: seq<bytes>
    ghost var taken: seq<bytes>

    ghost function State(): WriterState
      reads this
    {
      WriterState(queue, accepted, running, hasThread, output, taken)
    }

    ghost predicate Valid()
      reads this
    {
      |queue| <= CAPACITY && accepted == taken + queue && |WrittenData(output)| <= |taken|
    }

    constructor ()
      ensures Valid() && queue == [] && !running && !hasThread && output == []
      ensures accepted == [] && taken == []
    {
      queue, running, hasThread, output := [], false, false, [];
      accepted, taken := [], [];
    }

    /** Starts the writer thread unless it is already running. */
    method Start()
      requires Valid()
      modifies this
      ensures Valid() && running
      ensures hasThread == (old(hasThread) || !old(running))
      ensures queue == old(queue) && output == old(output)
      ensures accepted == old(accepted) && taken == old(taken)
    {
      if running {
        return;
      }
      running := true;
      hasThread := true;
    }

    method Stop()
      requires Valid()
      modifies this
      ensures Valid() && !running && !hasThread
      ensures queue == old(queue) && output == old(output)
      ensures accepted == old(accepted) && taken == old(taken)
    {
      running := false;
      hasThread := false;
    }

    /** Offers a packet: refused when the writer is not running or the queue is full. */
    method QueuePacket(data: bytes) returns (ok: bool)
      requires Valid()
      modifies this
      ensures Valid()
      ensures ok == (old(running) && |old(queue)| < CAPACITY)
      ensures queue == (if ok then old(queue) + [data] else old(queue))
      ensures accepted == (if ok then old(accepted) + [data] else old(accepted))
      ensures running == old(running) && hasThread == old(hasThread)
      ensures output == old(output) && taken == old(taken)
      ensures State() == AfterOffers(old(State()), [data])
    {
      AdmittedOne(|queue|, running, data);
      if !running {
        return false;
      }
      ok := |queue| < CAPACITY;
      if ok {
        queue := queue + [data];
        accepted := accepted + [data];
      }
    }

    /** One iteration of the writer thread. An empty queue is a poll that timed out; a
        failed write or flush stops the writer, and the packet it held is lost. */
    method WriterIteration(outcome: WriteOutcome)
      requires Valid()
      modifies this
      ensures Valid()
      ensures !old(running) || old(queue) == [] ==>
        queue == old(queue) && output == old(output) && running == old(running)
        && hasThread == old(hasThread) && taken == old(taken)
      ensures old(running) && old(queue) != [] ==>
        queue == old(queue)[1..] && taken == old(taken) + [old(queue)[0]]
        && output == old(output) + (match outcome
                                    case Written => [Write(old(queue)[0]), Flush]
                                    case WriteFailed => []
                                    case FlushFailed => [Write(old(queue)[0])])
        && running == (outcome == Written)
        && hasThread == (old(hasThread) && outcome == Written)
      ensures accepted == old(accepted)
      ensures old(running) && old(queue) != [] && outcome == Written && WrittenData(old(output)) == old(taken) ==>
        WrittenData(output) == taken
    {
      if !running || queue == [] {
        return;
      }
      var data := queue[0];
      queue := queue[1..];
      taken := taken + [data];
      var ops: seq<StreamOp>;
      match outcome {
        case Written => ops := [Write(data), Flush];
        case WriteFailed => ops := [];
        case FlushFailed => ops := [Write(data)];
      }
      WrittenDataAppend(output, ops);
      assert WrittenData([Flush]) == [];
      assert WrittenData(ops) == (if outcome == WriteFailed then [] else [data]);
      output := output + ops;
      if outcome != Written {
        running := false;
        hasThread := false;
      }
    }
  }
}
