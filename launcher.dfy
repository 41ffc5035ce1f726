/** The launcher's mirror session: starting the host as a sidecar process with the
    chosen settings, stopping it, and cleaning up when it exits, with a session number
    that, within each atomic step of the model, keeps the exit of an old process from
    touching a newer one. Tray, window and dock handling are outside the model. */
module Launcher {
  import opened Base
  import opened Numbers
  import opened Control
  import App

  /** Sidecar processes are told apart by the order they were spawned in. */
  type ChildId = nat

  const TURN_SCREEN_OFF_FLAG: string := "--turn-screen-off"
  /** What `stop_mirror` writes to the host's control port (8889) to turn the screen
      back on. */
  const RESTORE_COMMAND: string := "{\"cmd\":\"set_screen_power_mode\",\"mode\":2}"
  const CONTROL_PORT: nat := 8889

  /** The host's arguments: its `mirror` subcommand, the bit rate and size limit, audio
      on, and the screen turned off when asked. */
  function SidecarArgs(bitrate: nat, maxSize: nat, turnScreenOff: bool): seq<string>
  {
    ["mirror", "--bitrate", NatToString(bitrate), "--max-size", NatToString(maxSize), "--audio"] +
    (if turnScreenOff then [TURN_SCREEN_OFF_FLAG] else [])
  }

  /** Six fixed arguments in order, the flag last exactly when asked for, and the
      numbers read back as given. */
  lemma SidecarArgsShape(bitrate: nat, maxSize: nat, turnScreenOff: bool)
    requires bitrate <= U32_MAX && maxSize <= U32_MAX
    ensures var args := SidecarArgs(bitrate, maxSize, turnScreenOff);
      |args| == (if turnScreenOff then 7 else 6) &&
      args[0] == "mirror" && args[1] == "--bitrate" && args[3] == "--max-size" && args[5] == "--audio" &&
      ParseUnsigned(args[2], U32_MAX) == Some(bitrate) && ParseUnsigned(args[4], U32_MAX) == Some(maxSize) &&
      (TURN_SCREEN_OFF_FLAG in args <==> turnScreenOff)
  {
    ParseUnsignedOfNatToString(bitrate, U32_MAX);
    ParseUnsignedOfNatToString(maxSize, U32_MAX);
    var args := SidecarArgs(bitrate, maxSize, turnScreenOff);
    if !turnScreenOff {
      forall i | 0 <= i < 6 ensures args[i] != TURN_SCREEN_OFF_FLAG {
        if i == 2 || i == 4 {
          assert AllDigits(args[i]) && args[i][0] != '-';
        }
      }
    }
  }

  /** The restore command goes out as one line, the very line the host itself sends
      when it exits with the screen off, and the device reads it back whole. */
  lemma RestoreLine(rest: string)
    ensures RESTORE_COMMAND + "\n" == App.EXIT_POWER_ON_LINE
    ensures LineWithEnd(RESTORE_COMMAND + "\n" + rest) == RESTORE_COMMAND + "\n"
  {
    assert '\n' !in RESTORE_COMMAND;
    OneLineReadBack(RESTORE_COMMAND, rest);
  }

  /** What the launcher does, in order. */
  datatype Action =
    | Kill(child: ChildId)
    | Spawn(child: ChildId, args: seq<string>)
    /** The restore command written to the control port, or the port not reachable. */
    | Restore(sent: bool)
    /** The `mirror-started` and `mirror-stopped` events. */
    | Started
    | Stopped

  class MirrorState {
    var child: Option<ChildId>
    var sessionId: nat
    var screenWasOff: bool
    var deviceSerial: Option<string>
    /** Sidecars spawned so far; the next one is numbered by this. */
    var spawned: nat
    /** The session number each running exit monitor captured at its spawn. */
    var monitors: map<ChildId, nat>
    var log: seq<Action>

    /** Every monitor belongs to a spawned child and captured a session no later than
        the current one; only the current child's monitor holds the current number. */
    predicate Valid()
      reads this
    {
      (forall c :: c in monitors ==> c < spawned && monitors[c] <= sessionId) &&
      (child.Some? ==> child.value in monitors && monitors[child.value] == sessionId) &&
      (forall c :: c in monitors && child != Some(c) ==> monitors[c] < sessionId)
    }

    constructor ()
      ensures Valid() && child == None && sessionId == 0 && !screenWasOff && deviceSerial == None
      ensures spawned == 0 && monitors == map[] && log == []
    {
      child := None;
      sessionId := 0;
      screenWasOff := false;
      deviceSerial := None;
      spawned := 0;
      monitors := map[];
      log := [];
    }

    /** `start_mirror`: any running sidecar is taken and killed, a new session begins,
        the settings are recorded, and the new sidecar is spawned and watched. The
        errors are those of creating the sidecar command and of spawning it. */
    method StartMirror(serial: string, bitrate: nat, maxSize: nat, turnScreenOff: bool,
                       sidecarError: Option<string>, spawnError: Option<string>)
      returns (r: Result<()>)
      requires Valid()
      modifies this
      ensures Valid()
      ensures r == if sidecarError.Some? then Err(sidecarError.value)
        else if spawnError.Some? then Err("Failed to launch client: " + spawnError.value)
        else Ok(())
      ensures sessionId == old(sessionId) + 1
      ensures screenWasOff == turnScreenOff && deviceSerial == Some(serial)
      ensures child == (if r.Ok? then Some(old(spawned)) else None)
      ensures spawned == old(spawned) + (if r.Ok? then 1 else 0)
      ensures monitors == if r.Ok? then old(monitors)[old(spawned) := sessionId] else old(monitors)
      ensures log == old(log) + (if old(child).Some? then [Kill(old(child).value)] else []) +
        (if r.Ok? then [Spawn(old(spawned), SidecarArgs(bitrate, maxSize, turnScreenOff)), Started] else [])
    {
      TakeAndKill();
      sessionId := sessionId + 1;
      var currentSession := sessionId;
      var args := ["mirror", "--bitrate", NatToString(bitrate), "--max-size", NatToString(maxSize), "--audio"];
      if turnScreenOff {
        args := args + [TURN_SCREEN_OFF_FLAG];
      }
      assert args == SidecarArgs(bitrate, maxSize, turnScreenOff);
      screenWasOff := turnScreenOff;
      deviceSerial := Some(serial);
      if sidecarError.Some? {
        return Err(sidecarError.value);
      }
      if spawnError.Some? {
        return Err("Failed to launch client: " + spawnError.value);
      }
      var c := spawned;
      spawned := spawned + 1;
      log := log + [Spawn(c, args)];
      child := Some(c);
      monitors := monitors[c := currentSession];
      log := log + [Started];
      r := Ok(());
    }

    /** The running sidecar, if any, taken out of the state and killed. */
    method TakeAndKill()
      modifies this`child, this`log
      ensures child == None
      ensures log == old(log) + if old(child).Some? then [Kill(old(child).value)] else []
    {
      if child.Some? {
        log := log + [Kill(child.value)];
        child := None;
      }
    }

    /** A monitor sees its sidecar terminate, taken as one atomic step. Only the monitor
        of the current session cleans up, and it clears only the current child. */
    method Terminated(c: ChildId)
      requires Valid() && c in monitors
      modifies this
      ensures Valid()
      ensures child == if old(child) == Some(c) then None else old(child)
      ensures monitors == old(monitors) - {c}
      ensures log == old(log) + if old(child) == Some(c) then [Stopped] else []
      ensures sessionId == old(sessionId) && spawned == old(spawned)
      ensures screenWasOff == old(screenWasOff) && deviceSerial == old(deviceSerial)
    {
      var current := monitors[c];
      monitors := monitors - {c};
      if sessionId != current {
        return;
      }
      child := None;
      log := log + [Stopped];
    }

    /** `stop_mirror`: the session ends, the screen restore is attempted, and only then
        is the sidecar killed and cleared. `controlPortOpen` is whether the control
        port accepted the connection. */
    method StopMirror(controlPortOpen: bool)
      requires Valid()
      modifies this
      ensures Valid()
      ensures sessionId == old(sessionId) + 1 && child == None
      ensures log == old(log) + [Restore(controlPortOpen)] +
        (if old(child).Some? then [Kill(old(child).value)] else []) + [Stopped]
      ensures monitors == old(monitors) && spawned == old(spawned)
      ensures screenWasOff == old(screenWasOff) && deviceSerial == old(deviceSerial)
    {
      sessionId := sessionId + 1;
      log := log + [Restore(controlPortOpen)];
      TakeAndKill();
      log := log + [Stopped];
    }
  }
}
