/** The device's display queries: the physical size read from `wm size`, and the
    rotation watcher whose changed flag tells the session to rebuild its encoder. */
module DisplayManager {
  import opened Base
  import opened Text
  import opened Numbers

  const FALLBACK_WIDTH: int := 720
  const FALLBACK_HEIGHT: int := 1280

  /** The text between the first and second ':' of the line, trimmed and split at 'x'. */
  function SizeParts(line: string): (parts: seq<string>)
    requires ':' in line
    ensures |parts| >= 1
  {
    SplitHasTwo(line, ':');
    Split(Trim(Split(line, ':')[1]), 'x')
  }

  /** `getDisplaySize` on the first output line of `wm size` (None when there is none or
      the command failed): width and height, or 720x1280 when the line does not read. */
  function GetDisplaySize(line: Option<string>): (r: (int, int))
    ensures line.None? ==> r == (FALLBACK_WIDTH, FALLBACK_HEIGHT)
    ensures line.Some? && ':' !in line.value ==> r == (FALLBACK_WIDTH, FALLBACK_HEIGHT)
    ensures line.Some? && ':' in line.value && |SizeParts(line.value)| != 2 ==> r == (FALLBACK_WIDTH, FALLBACK_HEIGHT)
    ensures r != (FALLBACK_WIDTH, FALLBACK_HEIGHT) ==>
      line.Some? && ':' in line.value && |SizeParts(line.value)| == 2
      && ToIntOrNull(SizeParts(line.value)[0]) == Some(r.0)
      && ToIntOrNull(SizeParts(line.value)[1]) == Some(r.1)
  {
    if line.None? || ':' !in line.value then (FALLBACK_WIDTH, FALLBACK_HEIGHT)
    else
      var parts := SizeParts(line.value);
      if |parts| != 2 then (FALLBACK_WIDTH, FALLBACK_HEIGHT)
      else
        match (ToIntOrNull(parts[0]), ToIntOrNull(parts[1]))
        case (Some(w), Some(h)) => (w, h)
        case _ => (FALLBACK_WIDTH, FALLBACK_HEIGHT)
  }

  lemma TrimDigits(s: string)
    requires |s| >= 1 && !IsSpace(s[0]) && !IsSpace(s[|s| - 1])
    ensures Trim(" " + s) == s
  {
    assert (" " + s)[1..] == s;
  }

  lemma SplitSize(ws: string, hs: string)
    requires AllDigits(ws) && AllDigits(hs)
    ensures Split(ws + "x" + hs, 'x') == [ws, hs]
  {
    assert forall k :: 0 <= k < |ws| ==> ws[k] != 'x';
    assert forall k :: 0 <= k < |hs| ==> hs[k] != 'x';
    assert ws + "x" + hs == ws + ['x'] + hs;
    SplitAt(ws, 'x', hs);
    SplitNoSep(hs, 'x');
  }

  lemma AfterColon(tag: string, rest: string)
    requires ':' !in tag && ':' !in rest
    ensures Split(tag + ":" + rest, ':') == [tag, rest]
  {
    assert tag + ":" + rest == tag + [':'] + rest;
    SplitAt(tag, ':', rest);
    SplitNoSep(rest, ':');
  }

  lemma SizePartsOfLine(tag: string, ws: string, hs: string)
    requires ':' !in tag && |ws| >= 1 && |hs| >= 1 && AllDigits(ws) && AllDigits(hs)
    ensures ':' in tag + ": " + ws + "x" + hs
    ensures SizeParts(tag + ": " + ws + "x" + hs) == [ws, hs]
  {
    var size := ws + "x" + hs;
    var rest := " " + size;
    var line := tag + ": " + ws + "x" + hs;
    assert line == tag + ":" + rest;
    assert ':' !in ws && ':' !in hs;
    assert rest == " " + ws + "x" + hs;
    assert ':' !in rest;
    AfterColon(tag, rest);
    assert size[0] == ws[0] && size[|size| - 1] == hs[|hs| - 1];
    TrimDigits(size);
    SplitSize(ws, hs);
  }

  /** The output `wm size` prints, "<tag>: <W>x<H>", reads back as (W, H). */
  lemma WmSizeRoundTrip(tag: string, w: nat, h: nat)
    requires ':' !in tag
    requires w <= INT_MAX && h <= INT_MAX
    ensures GetDisplaySize(Some(tag + ": " + NatToString(w) + "x" + NatToString(h))) == (w, h)
  {
    SizePartsOfLine(tag, NatToString(w), NatToString(h));
    ParseSignedOfIntToString(w, INT_MIN, INT_MAX);
    ParseSignedOfIntToString(h, INT_MIN, INT_MAX);
  }

  datatype WatchState = WatchState(rotation: int, changed: bool)

  /** One display-changed callback: a different rotation is stored and raises the flag;
      the same rotation leaves both untouched. */
  function DisplayChanged(s: WatchState, newRotation: int): (r: WatchState)
    ensures newRotation == s.rotation ==> r == s
    ensures newRotation != s.rotation ==> r == WatchState(newRotation, true)
  {
    if newRotation != s.rotation then WatchState(newRotation, true) else s
  }

  /** The callbacks in arrival order. */
  function Observe(s: WatchState, rotations: seq<int>): WatchState
    decreases |rotations|
  {
    if rotations == [] then s else Observe(DisplayChanged(s, rotations[0]), rotations[1..])
  }

  /** After a run of callbacks the stored rotation is the last one reported, and the
      flag is up exactly when it already was or some report differed from the rotation
      held before the run: callbacks never lower it. */
  lemma {:induction false} ObserveEffect(s: WatchState, rotations: seq<int>)
    decreases |rotations|
    ensures Observe(s, rotations).rotation == if rotations == [] then s.rotation else rotations[|rotations| - 1]
    ensures Observe(s, rotations).changed
        == (s.changed || exists i :: 0 <= i < |rotations| && rotations[i] != s.rotation)
  {
    if rotations != [] {
      var s1 := DisplayChanged(s, rotations[0]);
      var rest := rotations[1..];
      ObserveEffect(s1, rest);
      if rotations[0] != s.rotation {
        assert Observe(s, rotations).changed;
      } else {
        assert s1 == s;
        if exists i :: 0 <= i < |rest| && rest[i] != s.rotation {
          var i :| 0 <= i < |rest| && rest[i] != s.rotation;
          assert rotations[i + 1] != s.rotation;
        }
        if exists i :: 0 <= i < |rotations| && rotations[i] != s.rotation {
          var i :| 0 <= i < |rotations| && rotations[i] != s.rotation;
          assert i > 0 && rest[i - 1] != s.rotation;
        }
      }
    }
  }

  /** How the watcher thread's set-up went: the listener registered, with the rotation
      of display 0 if there was one, or an exception before registration. */
  datatype Setup = Registered(initial: Option<int>) | SetupFailed

  class RotationWatcher {
    var rotation: int
    var changed: bool
    var listening: bool
    var ready: bool

    constructor ()
      ensures rotation == 0 && !changed && !listening && !ready
    {
      rotation, changed, listening, ready := 0, false, false, false;
    }

    function State(): WatchState
      reads this
    {
      WatchState(rotation, changed)
    }

    /** The thread's start: a missing display reads as rotation 0; a failure leaves the
        rotation at 0 and no listener. Either way readiness is signalled. */
    method Run(setup: Setup)
      requires !ready && !listening && rotation == 0
      modifies this
      ensures ready && changed == old(changed)
      ensures listening == setup.Registered?
      ensures rotation == if setup.Registered? then setup.initial.GetOr(0) else 0
    {
      if setup.Registered? {
        rotation := setup.initial.GetOr(0);
        listening := true;
      }
      ready := true;
    }

    /** The listener's callback; None is a display that could not be read (rotation 0). */
    method OnDisplayChanged(newRotation: Option<int>)
      modifies this
      ensures listening == old(listening) && ready == old(ready)
      ensures old(listening) ==> State() == DisplayChanged(old(State()), newRotation.GetOr(0))
      ensures !old(listening) ==> State() == old(State())
    {
      if !listening {
        return;
      }
      var r := newRotation.GetOr(0);
      if r != rotation {
        rotation := r;
        changed := true;
      }
    }

    /** The stored rotation (the wait of at most two seconds for readiness is timing). */
    method GetCurrentRotation() returns (r: int)
      ensures r == rotation
    {
      r := rotation;
    }

    method HasChanged() returns (c: bool)
      ensures c == changed
    {
      c := changed;
    }

    method ResetChangeFlag()
      modifies this
      ensures !changed && rotation == old(rotation) && listening == old(listening) && ready == old(ready)
    {
      changed := false;
    }
  }
}
