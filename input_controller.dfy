/** Event injection on the device: the touch gesture's down-time bookkeeping, the
    composite gestures built from it, key presses and text typed through the virtual
    keyboard's key map. The platform's injection call is an oracle: each injected event
    comes with the clock reading it was stamped with and whether the platform took it. */
module Injection {
  import opened Base
  import opened Numbers

  /** Android's MotionEvent action codes. */
  const ACTION_DOWN: int := 0
  const ACTION_UP: int := 1
  const ACTION_MOVE: int := 2
  const ACTION_CANCEL: int := 3
  /** Android's KeyEvent action codes. */
  const KEY_DOWN: int := 0
  const KEY_UP: int := 1

  /** Number of MOVE events a swipe sends between its DOWN and its UP. */
  const SWIPE_STEPS: nat := 5

  /** Where a touch event lands. Swipe positions between the ends are interpolated in
      floating point, which is not modelled: they are named by their step number. */
  datatype Point = At(x: real, y: real) | Interpolated(step: nat)

  datatype InputEvent =
    | Motion(downTime: int, eventTime: int, action: int, pos: Point, pressure: int)
    | Key(eventTime: int, action: int, keyCode: int, metaState: int)
    | Typed(index: nat)

  /** One call of the platform's injection method: the clock reading and its answer
      (false also when the reflective call throws). */
  datatype Attempt = Attempt(now: int, accepted: bool)

  /** The message of the exception `Thread.sleep` throws for a negative duration. */
  const NEGATIVE_SLEEP: string := "timeout value is negative"

  datatype TouchState = TouchState(lastDownTime: int, pointerDown: bool)

  /** The down time stamped on a touch event and the state after it: DOWN starts a
      gesture at now; UP and CANCEL end it; every other action leaves the state alone.
      Non-DOWN events reuse the gesture's down time when one was ever recorded. */
  function TouchStep(s: TouchState, action: int, now: int): (r: (TouchState, int))
    ensures action == ACTION_DOWN ==> r.0 == TouchState(now, true) && r.1 == now
    ensures action != ACTION_DOWN ==>
      r.0.lastDownTime == s.lastDownTime && r.1 == (if s.lastDownTime > 0 then s.lastDownTime else now)
    ensures action == ACTION_UP || action == ACTION_CANCEL ==> !r.0.pointerDown
    ensures action != ACTION_DOWN && action != ACTION_UP && action != ACTION_CANCEL ==> r.0 == s
  {
    if action == ACTION_DOWN then (TouchState(now, true), now)
    else if action == ACTION_UP || action == ACTION_CANCEL then
      (s.(pointerDown := false), if s.lastDownTime > 0 then s.lastDownTime else now)
    else (s, if s.lastDownTime > 0 then s.lastDownTime else now)
  }

  /** A pointer lifted off the screen has pressure 0; every other event presses with 1. */
  function Pressure(action: int): (p: int)
    ensures p == 0 <==> action == ACTION_UP
  {
    if action == ACTION_UP then 0 else 1
  }

  /** Down times of a sequence of (action, clock) touch events from state s. */
  function DownTimes(s: TouchState, events: seq<(int, int)>): (r: seq<int>)
    ensures |r| == |events|
    decreases |events|
  {
    if events == [] then []
    else
      var step := TouchStep(s, events[0].0, events[0].1);
      [step.1] + DownTimes(step.0, events[1..])
  }

  function FinalTouchState(s: TouchState, events: seq<(int, int)>): TouchState
    decreases |events|
  {
    if events == [] then s
    else FinalTouchState(TouchStep(s, events[0].0, events[0].1).0, events[1..])
  }

  /** Once a gesture starts with DOWN at a positive clock reading t, every event up to
      the next DOWN carries down time t; an UP among them leaves the pointer lifted. */
  lemma {:induction false} GestureSharesDownTime(t: int, s: TouchState, rest: seq<(int, int)>)
    requires t > 0
    requires forall i :: 0 <= i < |rest| ==> rest[i].0 != ACTION_DOWN
    ensures forall i :: 0 <= i < |rest| + 1 ==> DownTimes(s, [(ACTION_DOWN, t)] + rest)[i] == t
    ensures FinalTouchState(s, [(ACTION_DOWN, t)] + rest).lastDownTime == t
    ensures |rest| > 0 && rest[|rest| - 1].0 == ACTION_UP ==>
      !FinalTouchState(s, [(ACTION_DOWN, t)] + rest).pointerDown
  {
    var all := [(ACTION_DOWN, t)] + rest;
    assert all[1..] == rest;
    FollowersShareDownTime(TouchState(t, true), rest);
  }

  lemma {:induction false} FollowersShareDownTime(s: TouchState, rest: seq<(int, int)>)
    requires s.lastDownTime > 0
    requires forall i :: 0 <= i < |rest| ==> rest[i].0 != ACTION_DOWN
    ensures forall i :: 0 <= i < |rest| ==> DownTimes(s, rest)[i] == s.lastDownTime
    ensures FinalTouchState(s, rest).lastDownTime == s.lastDownTime
    ensures |rest| > 0 && rest[|rest| - 1].0 == ACTION_UP ==> !FinalTouchState(s, rest).pointerDown
    ensures rest == [] ==> FinalTouchState(s, rest) == s
    decreases |rest|
  {
    if rest != [] {
      var next := TouchStep(s, rest[0].0, rest[0].1).0;
      FollowersShareDownTime(next, rest[1..]);
      if |rest| == 1 && rest[0].0 == ACTION_UP {
        assert FinalTouchState(s, rest) == next;
      }
      if |rest| > 1 {
        assert rest[1..][|rest[1..]| - 1] == rest[|rest| - 1];
      }
    }
  }

  /** The touch events a run of (action, clock) inputs injects from state s, each at
      its own position: the down time `TouchStep` stamps, the clock reading as event
      time, and the pressure of its action. */
  function Stamped(s: TouchState, events: seq<(int, int)>, points: seq<Point>): (r: seq<InputEvent>)
    requires |points| == |events|
    ensures |r| == |events|
    decreases |events|
  {
    if events == [] then []
    else
      var step := TouchStep(s, events[0].0, events[0].1);
      [Motion(step.1, events[0].1, events[0].0, points[0], Pressure(events[0].0))]
        + Stamped(step.0, events[1..], points[1..])
  }

  /** Event i of a run carries the run's i-th down time, its own clock, action, position
      and the pressure of its action. */
  lemma {:induction false} StampedIsEach(s: TouchState, events: seq<(int, int)>, points: seq<Point>)
    requires |points| == |events|
    ensures forall i :: 0 <= i < |events| ==>
      Stamped(s, events, points)[i]
        == Motion(DownTimes(s, events)[i], events[i].1, events[i].0, points[i], Pressure(events[i].0))
    decreases |events|
  {
    if events != [] {
      var step := TouchStep(s, events[0].0, events[0].1);
      StampedIsEach(step.0, events[1..], points[1..]);
      forall i | 1 <= i < |events|
        ensures Stamped(s, events, points)[i]
          == Motion(DownTimes(s, events)[i], events[i].1, events[i].0, points[i], Pressure(events[i].0))
      {
        assert Stamped(s, events, points)[i] == Stamped(step.0, events[1..], points[1..])[i - 1];
        assert DownTimes(s, events)[i] == DownTimes(step.0, events[1..])[i - 1];
      }
    }
  }

  /** Injecting one more input extends the run's events by the one `TouchStep` stamps
      from the run's final state. */
  lemma {:induction false} StampedSnoc(s: TouchState, events: seq<(int, int)>, points: seq<Point>, e: (int, int), p: Point)
    requires |points| == |events|
    ensures Stamped(s, events + [e], points + [p]) == Stamped(s, events, points)
      + [Motion(TouchStep(FinalTouchState(s, events), e.0, e.1).1, e.1, e.0, p, Pressure(e.0))]
    ensures FinalTouchState(s, events + [e]) == TouchStep(FinalTouchState(s, events), e.0, e.1).0
    decreases |events|
  {
    if events == [] {
      assert events + [e] == [e] && points + [p] == [p];
    } else {
      var step := TouchStep(s, events[0].0, events[0].1);
      assert (events + [e])[1..] == events[1..] + [e];
      assert (points + [p])[1..] == points[1..] + [p];
      StampedSnoc(step.0, events[1..], points[1..], e, p);
    }
  }

  /** A gesture that opens with DOWN at a positive clock reading and has no other DOWN:
      every event it injects carries that reading as its down time, and the state keeps
      it; ending with UP leaves the pointer lifted, and a DOWN alone leaves it down. */
  lemma GestureStamped(s: TouchState, events: seq<(int, int)>, points: seq<Point>)
    requires |points| == |events| && |events| > 0
    requires events[0].0 == ACTION_DOWN && events[0].1 > 0
    requires forall i :: 1 <= i < |events| ==> events[i].0 != ACTION_DOWN
    ensures forall i :: 0 <= i < |events| ==>
      Stamped(s, events, points)[i] == Motion(events[0].1, events[i].1, events[i].0, points[i], Pressure(events[i].0))
    ensures FinalTouchState(s, events).lastDownTime == events[0].1
    ensures events[|events| - 1].0 == ACTION_UP ==> !FinalTouchState(s, events).pointerDown
    ensures |events| == 1 ==> FinalTouchState(s, events) == TouchState(events[0].1, true)
  {
    GestureDownTimes(s, events);
    StampedIsEach(s, events, points);
  }

  lemma GestureDownTimes(s: TouchState, events: seq<(int, int)>)
    requires |events| > 0
    requires events[0].0 == ACTION_DOWN && events[0].1 > 0
    requires forall i :: 1 <= i < |events| ==> events[i].0 != ACTION_DOWN
    ensures forall i :: 0 <= i < |events| ==> DownTimes(s, events)[i] == events[0].1
    ensures FinalTouchState(s, events).lastDownTime == events[0].1
    ensures events[|events| - 1].0 == ACTION_UP ==> !FinalTouchState(s, events).pointerDown
    ensures |events| == 1 ==> FinalTouchState(s, events) == TouchState(events[0].1, true)
  {
    var rest := events[1..];
    assert events == [(ACTION_DOWN, events[0].1)] + rest;
    assert forall i :: 0 <= i < |rest| ==> rest[i].0 == events[i + 1].0;
    GestureSharesDownTime(events[0].1, s, rest);
  }

  /** The inputs of a tap or long press: DOWN then UP, at the two clock readings. */
  function PressInputs(down: Attempt, up: Attempt): seq<(int, int)>
  {
    [(ACTION_DOWN, down.now), (ACTION_UP, up.now)]
  }

  /** The action of a swipe's j-th event: DOWN, five MOVEs, UP. */
  function SwipeAction(j: int): int
  {
    if j == 0 then ACTION_DOWN else if j == SWIPE_STEPS + 1 then ACTION_UP else ACTION_MOVE
  }

  function SwipePoint(from: Point, to: Point, j: nat): Point
  {
    if j == 0 then from else if j == SWIPE_STEPS + 1 then to else Interpolated(j)
  }

  /** The inputs of a swipe, one per attempt. */
  function SwipeInputs(attempts: seq<Attempt>): (r: seq<(int, int)>)
    requires |attempts| == SWIPE_STEPS + 2
    ensures |r| == SWIPE_STEPS + 2
    ensures forall j :: 0 <= j < |r| ==> r[j] == (SwipeAction(j), attempts[j].now)
  {
    seq(SWIPE_STEPS + 2, j requires 0 <= j < SWIPE_STEPS + 2 => (SwipeAction(j), attempts[j].now))
  }

  function SwipePoints(from: Point, to: Point): (r: seq<Point>)
    ensures |r| == SWIPE_STEPS + 2
    ensures forall j :: 0 <= j < |r| ==> r[j] == SwipePoint(from, to, j)
  {
    seq(SWIPE_STEPS + 2, j requires 0 <= j < SWIPE_STEPS + 2 => SwipePoint(from, to, j))
  }

  /** A tap or long press whose DOWN is stamped with a positive clock reading injects
      DOWN and then UP at the point, both with the DOWN's reading as down time, pressure
      1 then 0, and leaves the pointer lifted; cut short after the DOWN, the pointer
      stays down. */
  lemma PressGesture(s: TouchState, pos: Point, down: Attempt, up: Attempt)
    requires down.now > 0
    ensures Stamped(s, PressInputs(down, up), [pos, pos])
      == [Motion(down.now, down.now, ACTION_DOWN, pos, 1), Motion(down.now, up.now, ACTION_UP, pos, 0)]
    ensures FinalTouchState(s, PressInputs(down, up)) == TouchState(down.now, false)
    ensures Stamped(s, PressInputs(down, up)[..1], [pos]) == [Motion(down.now, down.now, ACTION_DOWN, pos, 1)]
    ensures FinalTouchState(s, PressInputs(down, up)[..1]) == TouchState(down.now, true)
  {
    var ev := PressInputs(down, up);
    GestureStamped(s, ev, [pos, pos]);
    assert ev[..1] == [(ACTION_DOWN, down.now)];
    GestureStamped(s, ev[..1], [pos]);
  }

  /** A swipe whose DOWN is stamped with a positive clock reading: every event it
      injects, cut short after the DOWN or not, carries that reading as down time, the
      j-th one has the j-th action, point and clock; a whole swipe leaves the pointer
      lifted, a cut one leaves it down. */
  lemma SwipeGesture(s: TouchState, from: Point, to: Point, attempts: seq<Attempt>, n: nat)
    requires |attempts| == SWIPE_STEPS + 2 && attempts[0].now > 0
    requires n == 1 || n == SWIPE_STEPS + 2
    ensures forall j :: 0 <= j < n ==>
      Stamped(s, SwipeInputs(attempts)[..n], SwipePoints(from, to)[..n])[j]
        == Motion(attempts[0].now, attempts[j].now, SwipeAction(j), SwipePoint(from, to, j), Pressure(SwipeAction(j)))
    ensures FinalTouchState(s, SwipeInputs(attempts)[..n]) == TouchState(attempts[0].now, n == 1)
  {
    var ev := SwipeInputs(attempts)[..n];
    var pts := SwipePoints(from, to)[..n];
    GestureStamped(s, ev, pts);
  }

  /** An UP with no gesture ever started is stamped with its own clock reading. */
  lemma UpWithoutDown(now: int, rest: seq<(int, int)>)
    ensures DownTimes(TouchState(0, false), [(ACTION_UP, now)] + rest)[0] == now
  {
  }

  /** Index of the first refused injection, or the count when none was refused. */
  function FirstRefused(results: seq<bool>): (k: nat)
    ensures k <= |results|
    ensures forall i :: 0 <= i < k ==> results[i]
    ensures k < |results| ==> !results[k]
  {
    if results == [] || !results[0] then 0 else 1 + FirstRefused(results[1..])
  }

  /** The first n events of the key map's list, in order. */
  function TypedEvents(n: nat): (r: seq<InputEvent>)
    ensures |r| == n
    ensures forall i :: 0 <= i < n ==> r[i] == Typed(i)
  {
    if n == 0 then [] else TypedEvents(n - 1) + [Typed(n - 1)]
  }

  /** The device's injection singleton: gesture state and every event handed to the platform. */
  class InputController {
    var lastDownTime: int
    var isPointerDown: bool
    var injected: seq<InputEvent>

    constructor ()
      ensures lastDownTime == 0 && !isPointerDown && injected == []
    {
      lastDownTime, isPointerDown, injected := 0, false, [];
    }

    function State(): TouchState
      reads this
    {
      TouchState(lastDownTime, isPointerDown)
    }

    method InjectTouch(action: int, pos: Point, a: Attempt) returns (ok: bool)
      modifies this
      ensures ok == a.accepted
      ensures State() == TouchStep(old(State()), action, a.now).0
      ensures injected == old(injected)
        + [Motion(TouchStep(old(State()), action, a.now).1, a.now, action, pos, Pressure(action))]
    {
      var downTime: int;
      if action == ACTION_DOWN {
        lastDownTime := a.now;
        isPointerDown := true;
        downTime := a.now;
      } else if action == ACTION_UP || action == ACTION_CANCEL {
        isPointerDown := false;
        downTime := if lastDownTime > 0 then lastDownTime else a.now;
      } else {
        downTime := if lastDownTime > 0 then lastDownTime else a.now;
      }
      var pressure := if action == ACTION_UP then 0 else 1;
      injected := injected + [Motion(downTime, a.now, action, pos, pressure)];
      ok := a.accepted;
    }

    /** One more touch event of a gesture under way: the controller's log extends the
        gesture's run of events from its starting state by the one stamped now. */
    method InjectNext(ghost start: seq<InputEvent>, ghost s0: TouchState, ghost events: seq<(int, int)>,
                      ghost points: seq<Point>, action: int, pos: Point, a: Attempt) returns (ok: bool)
      requires |points| == |events|
      requires injected == start + Stamped(s0, events, points) && State() == FinalTouchState(s0, events)
      modifies this
      ensures ok == a.accepted
      ensures injected == start + Stamped(s0, events + [(action, a.now)], points + [pos])
      ensures State() == FinalTouchState(s0, events + [(action, a.now)])
    {
      StampedSnoc(s0, events, points, (action, a.now), pos);
      ok := InjectTouch(action, pos, a);
    }

    /** DOWN then UP at one point; succeeds only if both were accepted. */
    method Tap(pos: Point, down: Attempt, up: Attempt) returns (ok: bool)
      modifies this
      ensures ok == (down.accepted && up.accepted)
      ensures injected == old(injected) + Stamped(old(State()), PressInputs(down, up), [pos, pos])
      ensures State() == FinalTouchState(old(State()), PressInputs(down, up))
    {
      ghost var s0 := State();
      var d := InjectNext(injected, s0, [], [], ACTION_DOWN, pos, down);
      var u := InjectNext(old(injected), s0, [(ACTION_DOWN, down.now)], [pos], ACTION_UP, pos, up);
      ok := d && u;
    }

    /** DOWN at the start, five interpolated MOVEs each after a pause of duration / 5
        milliseconds, then UP at the end; only the UP's answer is returned. A negative
        pause makes `Thread.sleep` throw after the DOWN was sent. */
    method Swipe(from: Point, to: Point, durationMs: int, attempts: seq<Attempt>) returns (r: Result<bool>)
      requires |attempts| == SWIPE_STEPS + 2
      modifies this
      ensures r == if TruncDiv(durationMs, SWIPE_STEPS) < 0 then Err(NEGATIVE_SLEEP)
                   else Ok(attempts[SWIPE_STEPS + 1].accepted)
      ensures var n := if TruncDiv(durationMs, SWIPE_STEPS) < 0 then 1 else SWIPE_STEPS + 2;
        injected == old(injected) + Stamped(old(State()), SwipeInputs(attempts)[..n], SwipePoints(from, to)[..n])
        && State() == FinalTouchState(old(State()), SwipeInputs(attempts)[..n])
    {
      ghost var s0 := State();
      ghost var all := SwipeInputs(attempts);
      ghost var allPoints := SwipePoints(from, to);
      var stepDuration := TruncDiv(durationMs, SWIPE_STEPS);
      var _ := InjectNext(injected, s0, [], [], ACTION_DOWN, from, attempts[0]);
      assert [(ACTION_DOWN, attempts[0].now)] == all[..1] && [from] == allPoints[..1];
      var i := 1;
      while i <= SWIPE_STEPS
        invariant 1 <= i <= SWIPE_STEPS + 1
        invariant stepDuration < 0 ==> i == 1
        invariant injected == old(injected) + Stamped(s0, all[..i], allPoints[..i])
        invariant State() == FinalTouchState(s0, all[..i])
      {
        if stepDuration < 0 {
          return Err(NEGATIVE_SLEEP);
        }
        var _ := InjectNext(old(injected), s0, all[..i], allPoints[..i], ACTION_MOVE, Interpolated(i), attempts[i]);
        assert all[..i + 1] == all[..i] + [(ACTION_MOVE, attempts[i].now)];
        assert allPoints[..i + 1] == allPoints[..i] + [Interpolated(i)];
        i := i + 1;
      }
      var ok := InjectNext(old(injected), s0, all[..i], allPoints[..i], ACTION_UP, to, attempts[SWIPE_STEPS + 1]);
      assert all[..i + 1] == all[..i] + [(ACTION_UP, attempts[SWIPE_STEPS + 1].now)];
      assert allPoints[..i + 1] == allPoints[..i] + [to];
      r := Ok(ok);
    }

    /** DOWN, a pause of durationMs, UP; a negative pause throws after the DOWN. */
    method LongPress(pos: Point, durationMs: int, down: Attempt, up: Attempt) returns (r: Result<bool>)
      modifies this
      ensures r == if durationMs < 0 then Err(NEGATIVE_SLEEP) else Ok(down.accepted && up.accepted)
      ensures var n := if durationMs < 0 then 1 else 2;
        injected == old(injected) + Stamped(old(State()), PressInputs(down, up)[..n], [pos, pos][..n])
        && State() == FinalTouchState(old(State()), PressInputs(down, up)[..n])
    {
      ghost var s0 := State();
      var d := InjectNext(injected, s0, [], [], ACTION_DOWN, pos, down);
      assert PressInputs(down, up)[..1] == [(ACTION_DOWN, down.now)] && [pos, pos][..1] == [pos];
      if durationMs < 0 {
        return Err(NEGATIVE_SLEEP);
      }
      var u := InjectNext(old(injected), s0, [(ACTION_DOWN, down.now)], [pos], ACTION_UP, pos, up);
      assert PressInputs(down, up)[..2] == PressInputs(down, up) && [pos, pos][..2] == [pos, pos];
      r := Ok(d && u);
    }

    method InjectKey(keyCode: int, action: int, metaState: int, a: Attempt) returns (ok: bool)
      modifies this
      ensures ok == a.accepted && State() == old(State())
      ensures injected == old(injected) + [Key(a.now, action, keyCode, metaState)]
    {
      injected := injected + [Key(a.now, action, keyCode, metaState)];
      ok := a.accepted;
    }

    /** Key down then key up with no modifiers; both are always sent. */
    method PressKey(keyCode: int, down: Attempt, up: Attempt) returns (ok: bool)
      modifies this
      ensures ok == (down.accepted && up.accepted) && State() == old(State())
      ensures injected == old(injected) + [Key(down.now, KEY_DOWN, keyCode, 0), Key(up.now, KEY_UP, keyCode, 0)]
    {
      var d := InjectKey(keyCode, KEY_DOWN, 0, down);
      var u := InjectKey(keyCode, KEY_UP, 0, up);
      ok := d && u;
    }

    /** Types the key events the virtual keyboard's map produced for the text (None when
        it produced none or threw), stopping at the first event the platform refused. */
    method InjectText(events: Option<nat>, results: seq<bool>) returns (ok: bool)
      requires events.Some? ==> |results| == events.value
      modifies this
      ensures ok <==> events.Some? && events.value > 0 && FirstRefused(results) == |results|
      ensures State() == old(State())
      ensures events.None? || events.value == 0 ==> injected == old(injected)
      ensures events.Some? && events.value > 0 ==>
        injected == old(injected) + TypedEvents(if FirstRefused(results) < |results| then FirstRefused(results) + 1 else |results|)
    {
      if events.None? || events.value == 0 {
        return false;
      }
      var i := 0;
      while i < |results|
        invariant 0 <= i <= |results| && i <= FirstRefused(results)
        invariant State() == old(State())
        invariant injected == old(injected) + TypedEvents(i)
      {
        injected := injected + [Typed(i)];
        if !results[i] {
          return false;
        }
        i := i + 1;
      }
      ok := true;
    }
  }
}
