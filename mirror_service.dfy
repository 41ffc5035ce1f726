/** The device's mirroring session: one session thread at a time, and inside it a loop
    that rebuilds the encoder at the current logical screen size whenever the rotation
    watcher reports a change, sharing one packet writer and one socket throughout. */
module MirrorService {
  import opened Base

  /** The logical size for a rotation: quarter turns (1 and 3) swap width and height. */
  function LogicalSize(physical: (int, int), rotation: int): (r: (int, int))
    ensures rotation == 1 || rotation == 3 ==> r == (physical.1, physical.0)
    ensures rotation != 1 && rotation != 3 ==> r == physical
  {
    if rotation == 1 || rotation == 3 then (physical.1, physical.0) else physical
  }

  /** How one round of the session loop ended: the watcher's flag came up, the session
      was stopped or its socket closed, or an exception (a failed encoder start, an
      interrupted sleep) left the loop. */
  datatype RoundEnd = RotationChanged | SessionEnded | Failed

  /** What the session observed in one round: the `wm size` answer, the watcher's
      rotation, whether the encoder started, and how the round ended. */
  datatype Round = Round(physical: (int, int), rotation: int, started: bool, ending: RoundEnd)

  /** The session's side effects, in order; `EncoderStarted` is the call of `start`, which may throw. */
  datatype Step =
    | WriterStarted
    | WatcherStarted
    | EncoderCreated(width: int, height: int, bitrate: int)
    | EncoderStarted
    | FlagReset
    | EncoderStopped
    | WatcherStopped
    | WriterStopped
    | SocketClosed

  const CLEANUP: seq<Step> := [WatcherStopped, WriterStopped, SocketClosed]

  /** One round: build and start the encoder at the logical size; on success reset the
      watcher flag and, when the round ends, stop the encoder. A failed start or an
      exception leaves the encoder to the `finally` block, which stops it. */
  function RoundSteps(r: Round, bitrate: int): seq<Step>
  {
    var size := LogicalSize(r.physical, r.rotation);
    [EncoderCreated(size.0, size.1, bitrate), EncoderStarted]
      + (if r.started then [FlagReset] else [])
      + [EncoderStopped]
  }

  /** Whether the loop goes on to another round after this one. */
  predicate Continues(r: Round)
  {
    r.started && r.ending == RotationChanged
  }

  /** The rounds the session actually runs: up to and including the first that does not
      continue. */
  function RoundsRun(rounds: seq<Round>): (n: nat)
    ensures n <= |rounds|
    ensures forall i :: 0 <= i < n - 1 ==> Continues(rounds[i])
    ensures n < |rounds| ==> n >= 1 && !Continues(rounds[n - 1])
  {
    if rounds == [] then 0
    else if !Continues(rounds[0]) then 1
    else 1 + RoundsRun(rounds[1..])
  }

  function RoundsTrace(rounds: seq<Round>, bitrate: int): seq<Step>
  {
    if rounds == [] then [] else RoundSteps(rounds[0], bitrate) + RoundsTrace(rounds[1..], bitrate)
  }

  /** Everything the session thread does for the rounds the environment provides. */
  function SessionTrace(rounds: seq<Round>, bitrate: int): seq<Step>
  {
    [WriterStarted, WatcherStarted] + RoundsTrace(rounds[..RoundsRun(rounds)], bitrate) + CLEANUP
  }

  function Count(trace: seq<Step>, s: Step): nat
  {
    if trace == [] then 0 else (if trace[0] == s then 1 else 0) + Count(trace[1..], s)
  }

  lemma {:induction false} CountAppend(a: seq<Step>, b: seq<Step>, s: Step)
    ensures Count(a + b, s) == Count(a, s) + Count(b, s)
  {
    if a != [] {
      assert (a + b)[1..] == a[1..] + b;
      CountAppend(a[1..], b, s);
    } else {
      assert a + b == b;
    }
  }

  lemma CountSingle(x: Step, s: Step)
    ensures Count([x], s) == if x == s then 1 else 0
  {
    assert [x][1..] == [];
  }

  lemma RoundCounts(r: Round, bitrate: int)
    ensures Count(RoundSteps(r, bitrate), WriterStarted) == 0
    ensures Count(RoundSteps(r, bitrate), EncoderStopped) == 1
  {
    var size := LogicalSize(r.physical, r.rotation);
    var c := EncoderCreated(size.0, size.1, bitrate);
    var mid: seq<Step> := if r.started then [FlagReset] else [];
    var head := [c] + [EncoderStarted] + mid;
    assert RoundSteps(r, bitrate) == head + [EncoderStopped];
    forall s | s == WriterStarted || s == EncoderStopped
      ensures Count(RoundSteps(r, bitrate), s) == if s == EncoderStopped then 1 else 0
    {
      CountSingle(c, s);
      CountSingle(EncoderStarted, s);
      CountSingle(FlagReset, s);
      CountSingle(EncoderStopped, s);
      CountAppend([c], [EncoderStarted], s);
      CountAppend([c] + [EncoderStarted], mid, s);
      CountAppend(head, [EncoderStopped], s);
    }
  }

  lemma {:induction false} RoundsTraceNoWriter(rounds: seq<Round>, bitrate: int)
    ensures Count(RoundsTrace(rounds, bitrate), WriterStarted) == 0
    ensures Count(RoundsTrace(rounds, bitrate), EncoderStopped) == |rounds|
    ensures |rounds| > 0 ==> RoundsTrace(rounds, bitrate)[|RoundsTrace(rounds, bitrate)| - 1] == EncoderStopped
  {
    if rounds != [] {
      var r := RoundSteps(rounds[0], bitrate);
      RoundsTraceNoWriter(rounds[1..], bitrate);
      RoundCounts(rounds[0], bitrate);
      CountAppend(r, RoundsTrace(rounds[1..], bitrate), WriterStarted);
      CountAppend(r, RoundsTrace(rounds[1..], bitrate), EncoderStopped);
    }
  }

  /** The one packet writer is started once per session, however many times the encoder
      is rebuilt; every encoder built is stopped; the session ends by stopping the
      watcher, then the writer, then closing the socket. */
  lemma SessionShape(rounds: seq<Round>, bitrate: int)
    ensures var t := SessionTrace(rounds, bitrate);
      Count(t, WriterStarted) == 1
      && Count(t, EncoderStopped) == RoundsRun(rounds)
      && t[|t| - 3..] == CLEANUP
      && t[..2] == [WriterStarted, WatcherStarted]
  {
    var run := rounds[..RoundsRun(rounds)];
    var body := RoundsTrace(run, bitrate);
    RoundsTraceNoWriter(run, bitrate);
    CountAppend([WriterStarted, WatcherStarted], body, WriterStarted);
    CountAppend([WriterStarted, WatcherStarted] + body, CLEANUP, WriterStarted);
    CountAppend([WriterStarted, WatcherStarted], body, EncoderStopped);
    CountAppend([WriterStarted, WatcherStarted] + body, CLEANUP, EncoderStopped);
  }

  /** Every encoder of round i is built from that round's logical size and the session's
      bitrate; the requested maximum resolution plays no part. */
  lemma {:induction false} EncoderSizes(rounds: seq<Round>, bitrate: int, i: nat)
    requires i < |rounds|
    ensures RoundsTrace(rounds, bitrate)[Offset(rounds, bitrate, i)]
      == EncoderCreated(LogicalSize(rounds[i].physical, rounds[i].rotation).0,
                        LogicalSize(rounds[i].physical, rounds[i].rotation).1, bitrate)
  {
    if i > 0 {
      EncoderSizes(rounds[1..], bitrate, i - 1);
    }
  }

  /** Where round i's steps begin in the trace of the rounds. */
  function Offset(rounds: seq<Round>, bitrate: int, i: nat): (k: nat)
    requires i < |rounds|
    ensures k < |RoundsTrace(rounds, bitrate)|
    ensures k + |RoundSteps(rounds[i], bitrate)| <= |RoundsTrace(rounds, bitrate)|
  {
    if i == 0 then 0 else |RoundSteps(rounds[0], bitrate)| + Offset(rounds[1..], bitrate, i - 1)
  }

  /** The session thread's loop, run for the rounds the environment provides. */
  method RunSession(rounds: seq<Round>, bitrate: int, maxResolution: int) returns (trace: seq<Step>)
    ensures trace == SessionTrace(rounds, bitrate)
  {
    trace := [WriterStarted, WatcherStarted];
    var n := RoundsRun(rounds);
    var i := 0;
    while i < n
      invariant 0 <= i <= n
      invariant trace == [WriterStarted, WatcherStarted] + RoundsTrace(rounds[..i], bitrate)
    {
      var r := rounds[i];
      var size := LogicalSize(r.physical, r.rotation);
      trace := trace + [EncoderCreated(size.0, size.1, bitrate), EncoderStarted];
      if r.started {
        trace := trace + [FlagReset];
      }
      trace := trace + [EncoderStopped];
      TraceSnoc(rounds[..i + 1], bitrate);
      assert rounds[..i + 1][..i] == rounds[..i];
      i := i + 1;
    }
    trace := trace + CLEANUP;
  }

  lemma {:induction false} TraceSnoc(rounds: seq<Round>, bitrate: int)
    requires rounds != []
    ensures RoundsTrace(rounds, bitrate)
      == RoundsTrace(rounds[..|rounds| - 1], bitrate) + RoundSteps(rounds[|rounds| - 1], bitrate)
  {
    if |rounds| > 1 {
      TraceSnoc(rounds[1..], bitrate);
      assert rounds[1..][..|rounds| - 2] == rounds[..|rounds| - 1][1..];
    }
  }

  /** Thread operations the session service performs on its session thread. */
  datatype ThreadOp = Interrupt(thread: nat) | Join(thread: nat, millis: nat) | Spawn(thread: nat)

  /** The service singleton: whether a session runs and its thread. */
  class Service {
    var isSessionRunning: bool
    var sessionThread: Option<nat>
    var ops: seq<ThreadOp>

    constructor ()
      ensures !isSessionRunning && sessionThread.None? && ops == []
    {
      isSessionRunning, sessionThread, ops := false, None, [];
    }

    /** Clears the flag, interrupts the thread, waits for it at most one second and
        forgets it. */
    method StopSession()
      modifies this
      ensures !isSessionRunning && sessionThread.None?
      ensures ops == old(ops) + StopOps(old(sessionThread))
    {
      isSessionRunning := false;
      if sessionThread.Some? {
        ops := ops + [Interrupt(sessionThread.value), Join(sessionThread.value, 1000)];
      }
      sessionThread := None;
    }

    /** Stops any current session first, then starts a thread for the new one. */
    method StartSession(thread: nat)
      modifies this
      ensures isSessionRunning && sessionThread == Some(thread)
      ensures ops == old(ops) + StopOps(old(sessionThread)) + [Spawn(thread)]
    {
      StopSession();
      isSessionRunning := true;
      sessionThread := Some(thread);
      ops := ops + [Spawn(thread)];
    }
  }

  function StopOps(thread: Option<nat>): (r: seq<ThreadOp>)
    ensures thread.None? ==> r == []
    ensures thread.Some? ==> r == [Interrupt(thread.value), Join(thread.value, 1000)]
  {
    if thread.Some? then [Interrupt(thread.value), Join(thread.value, 1000)] else []
  }

  /** Two sessions in a row: the first thread is interrupted and joined before the
      second is spawned. */
  method Restart(s: Service, first: nat, second: nat)
    requires s.sessionThread.None?
    modifies s
    ensures s.ops == old(s.ops) + [Spawn(first), Interrupt(first), Join(first, 1000), Spawn(second)]
  {
    s.StartSession(first);
    s.StartSession(second);
  }
}
