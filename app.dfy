/** The host's window application: it turns keyboard events into device commands
    (shortcuts first, then plain key forwarding with the modifier meta state), starts
    the worker threads once, and shows decoded frames, re-creating the renderer when the
    frame size changes. */
module App {
  import opened Base
  import opened Control
  import opened InputHandler
  import opened FrameBuffer

  /** The physical keys the handler tells apart; every other key is `OtherKey`. */
  datatype Key =
    | KeyC | KeyV | KeyS
    | Escape | F1 | F2 | F3 | F4 | F5 | F6 | F7 | F8 | F9 | F10
    | ControlLeft | ControlRight | SuperLeft | SuperRight | ShiftLeft | ShiftRight
    | OtherKey(code: nat)

  /** The modifier flags the application tracks. */
  datatype Mods = Mods(ctrl: bool, cmd: bool, shift: bool)

  /** What is put on the input channel: a command, or a swipe still in window-pixel
      coordinates (before they are formatted into a command). */
  datatype Queued =
    | Command(cmd: InputCommand)
    | PixelSwipe(x1: real, y1: real, x2: real, y2: real, duration: nat)

  /** The duration of the F9/F10 swipes, in milliseconds. */
  const SWIPE_DURATION: nat := 100

  /** The Android meta state for the held modifiers. */
  function MetaState(m: Mods): (meta: bv32)
    ensures (meta & META_CTRL_ON != 0) == m.ctrl
    ensures (meta & META_META_ON != 0) == m.cmd
    ensures (meta & META_SHIFT_ON != 0) == m.shift
    ensures meta & !(META_CTRL_ON | META_META_ON | META_SHIFT_ON) == 0
  {
    (if m.ctrl then META_CTRL_ON else 0) |
    (if m.cmd then META_META_ON else 0) |
    (if m.shift then META_SHIFT_ON else 0)
  }

  /** Different modifier sets never share a meta state. */
  lemma MetaStateInjective(m: Mods, n: Mods)
    requires MetaState(m) == MetaState(n)
    ensures m == n
  {
    assert m.ctrl == n.ctrl && m.cmd == n.cmd && m.shift == n.shift;
  }

  /** A key event and the modifier flags: either Control key sets `ctrl` to whether it
      is pressed, either Super key sets `cmd`, either Shift key sets `shift`. */
  function UpdateMods(m: Mods, key: Key, pressed: bool): (r: Mods)
    ensures !IsModifierKey(key) ==> r == m
    ensures r.ctrl != m.ctrl ==> (key == ControlLeft || key == ControlRight) && r.ctrl == pressed
    ensures r.cmd != m.cmd ==> (key == SuperLeft || key == SuperRight) && r.cmd == pressed
    ensures r.shift != m.shift ==> (key == ShiftLeft || key == ShiftRight) && r.shift == pressed
  {
    Mods(if key == ControlLeft || key == ControlRight then pressed else m.ctrl,
         if key == SuperLeft || key == SuperRight then pressed else m.cmd,
         if key == ShiftLeft || key == ShiftRight then pressed else m.shift)
  }

  /** The keys that are shortcuts only with Control or Command held. */
  predicate IsClipboardKey(key: Key)
  {
    key.KeyC? || key.KeyV? || key.KeyS?
  }

  predicate IsModifierKey(key: Key)
  {
    key in {ControlLeft, ControlRight, SuperLeft, SuperRight, ShiftLeft, ShiftRight}
  }

  /** Only modifier keys change the flags, each only its own flag, and a modifier key's
      press sets it and its release clears it. */
  lemma ModifierKeysOnly(m: Mods, key: Key, pressed: bool)
    ensures !IsModifierKey(key) ==> UpdateMods(m, key, pressed) == m
    ensures key in {ControlLeft, ControlRight} ==> UpdateMods(m, key, pressed) == m.(ctrl := pressed)
    ensures key in {SuperLeft, SuperRight} ==> UpdateMods(m, key, pressed) == m.(cmd := pressed)
    ensures key in {ShiftLeft, ShiftRight} ==> UpdateMods(m, key, pressed) == m.(shift := pressed)
  {
  }

  /** The Android key code each navigation shortcut sends. */
  function NavigationCode(key: Key): Option<int>
  {
    match key
    case Escape => Some(4)
    case F1 => Some(3)
    case F2 => Some(187)
    case F3 => Some(25)
    case F4 => Some(24)
    case F5 => Some(26)
    case F6 => Some(82)
    case _ => None
  }

  /** How a key event is handled: as a shortcut (what it queues, and whether it saves a
      screenshot), or forwarded as a key code. */
  datatype Outcome =
    | Shortcut(queue: seq<Queued>, screenshot: bool)
    | Forwarded(queue: seq<Queued>)

  function KeyPress(code: int, meta: bv32): seq<Queued>
  {
    [Command(Keycode("down", code, meta as int)), Command(Keycode("up", code, meta as int))]
  }

  /** The shortcuts that need Control or Command held: C asks for the device clipboard,
      V hands it the host's text (when there is any) and pastes, S saves a screenshot. */
  function ClipboardShortcut(key: Key, m: Mods, hostText: Option<string>): (r: Option<Outcome>)
    ensures r.Some? <==> (m.ctrl || m.cmd) && IsClipboardKey(key)
    ensures r.Some? ==> r.value.Shortcut? && (r.value.screenshot <==> key == KeyS)
    ensures r.Some? ==> |r.value.queue| <= 1
  {
    if !(m.ctrl || m.cmd) then None
    else match key {
      case KeyC => Some(Shortcut([Command(GetClipboard(true))], false))
      case KeyV => Some(Shortcut(if hostText.Some? then [Command(SetClipboard(hostText.value, true))] else [], false))
      case KeyS => Some(Shortcut([], true))
      case _ => None
    }
  }

  /** The shortcuts that work whatever modifiers are held; `width` and `height` are the
      current video size. */
  function NavigationShortcut(key: Key, m: Mods, width: nat, height: nat): (r: Option<Outcome>)
    ensures r.Some? <==> key == F7 || key == F8 || key == F9 || key == F10 || NavigationCode(key).Some?
    ensures r.Some? ==> r.value.Shortcut? && !r.value.screenshot && |r.value.queue| >= 1
    ensures NavigationCode(key).Some? ==> r == Some(Shortcut(KeyPress(NavigationCode(key).value, MetaState(m)), false))
  {
    var w := width as real;
    var h := height as real;
    match key {
      case F7 => Some(Shortcut([Command(SetScreenPowerMode(0))], false))
      case F8 => Some(Shortcut([Command(SetScreenPowerMode(2))], false))
      case F9 => Some(Shortcut([PixelSwipe(w / 2.0, h * 0.75, w / 2.0, h * 0.25, SWIPE_DURATION)], false))
      case F10 => Some(Shortcut([PixelSwipe(w / 2.0, h * 0.25, w / 2.0, h * 0.75, SWIPE_DURATION)], false))
      case _ => if NavigationCode(key).Some? then Some(Shortcut(KeyPress(NavigationCode(key).value, MetaState(m)), false)) else None
    }
  }

  /** The handling of a key event once the flags `m` are updated: on a press the
      modifier shortcuts are tried first, then the others; anything else goes through
      the keymap, whose Android code for the key is `mapped`. `hostText` is what the
      host clipboard holds. */
  function HandleKey(key: Key, pressed: bool, m: Mods, mapped: Option<int>, hostText: Option<string>,
                     width: nat, height: nat): (r: Outcome)
    ensures r.Shortcut? <==>
      pressed && (ClipboardShortcut(key, m, hostText).Some? || NavigationShortcut(key, m, width, height).Some?)
    ensures pressed && ClipboardShortcut(key, m, hostText).Some? ==> Some(r) == ClipboardShortcut(key, m, hostText)
    ensures r.Shortcut? && ClipboardShortcut(key, m, hostText).None? ==> Some(r) == NavigationShortcut(key, m, width, height)
    ensures r.Forwarded? ==> (|r.queue| == 1 <==> mapped.Some?) && |r.queue| <= 1
  {
    if pressed && ClipboardShortcut(key, m, hostText).Some? then ClipboardShortcut(key, m, hostText).value
    else if pressed && NavigationShortcut(key, m, width, height).Some? then NavigationShortcut(key, m, width, height).value
    else Forwarded(if mapped.Some? then [Command(Keycode(if pressed then "down" else "up", mapped.value, MetaState(m) as int))] else [])
  }

  /** The navigation table: on a press, each of these keys sends its Android key code
      down and then up, with the current meta state, whatever modifiers are held. */
  lemma NavigationShortcuts(m: Mods, mapped: Option<int>, hostText: Option<string>, width: nat, height: nat)
    ensures HandleKey(Escape, true, m, mapped, hostText, width, height) == Shortcut(KeyPress(4, MetaState(m)), false)
    ensures HandleKey(F1, true, m, mapped, hostText, width, height) == Shortcut(KeyPress(3, MetaState(m)), false)
    ensures HandleKey(F2, true, m, mapped, hostText, width, height) == Shortcut(KeyPress(187, MetaState(m)), false)
    ensures HandleKey(F3, true, m, mapped, hostText, width, height) == Shortcut(KeyPress(25, MetaState(m)), false)
    ensures HandleKey(F4, true, m, mapped, hostText, width, height) == Shortcut(KeyPress(24, MetaState(m)), false)
    ensures HandleKey(F5, true, m, mapped, hostText, width, height) == Shortcut(KeyPress(26, MetaState(m)), false)
    ensures HandleKey(F6, true, m, mapped, hostText, width, height) == Shortcut(KeyPress(82, MetaState(m)), false)
  {
  }

  /** F7 turns the device screen off and F8 back on. */
  lemma PowerShortcuts(m: Mods, mapped: Option<int>, hostText: Option<string>, width: nat, height: nat)
    ensures HandleKey(F7, true, m, mapped, hostText, width, height) == Shortcut([Command(SetScreenPowerMode(0))], false)
    ensures HandleKey(F8, true, m, mapped, hostText, width, height) == Shortcut([Command(SetScreenPowerMode(2))], false)
  {
  }

  /** With Control or Command held, C asks for the device clipboard (with a copy first),
      V hands it the host's text and pastes, and S saves a screenshot; without either
      modifier the same keys are forwarded like any other key. */
  lemma ClipboardShortcuts(m: Mods, mapped: Option<int>, hostText: Option<string>, width: nat, height: nat)
    ensures m.ctrl || m.cmd ==>
      HandleKey(KeyC, true, m, mapped, hostText, width, height) == Shortcut([Command(GetClipboard(true))], false) &&
      HandleKey(KeyS, true, m, mapped, hostText, width, height) == Shortcut([], true) &&
      (hostText.Some? ==> HandleKey(KeyV, true, m, mapped, hostText, width, height) == Shortcut([Command(SetClipboard(hostText.value, true))], false))
    ensures !(m.ctrl || m.cmd) ==>
      forall key :: IsClipboardKey(key) ==> HandleKey(key, true, m, mapped, hostText, width, height).Forwarded?
  {
  }

  /** Shortcuts only fire on a press, and a key handled as a shortcut never consults the
      keymap: its handling is the same whatever the key maps to. A release is always
      forwarded, as its key code with action "up" when the keymap has one. */
  lemma ShortcutsSkipKeymap(key: Key, pressed: bool, m: Mods, mapped: Option<int>, other: Option<int>,
                            hostText: Option<string>, width: nat, height: nat)
    ensures HandleKey(key, pressed, m, mapped, hostText, width, height).Shortcut? ==>
      pressed && HandleKey(key, pressed, m, other, hostText, width, height) == HandleKey(key, pressed, m, mapped, hostText, width, height)
    ensures !pressed ==>
      HandleKey(key, pressed, m, mapped, hostText, width, height) ==
        Forwarded(if mapped.Some? then [Command(Keycode("up", mapped.value, MetaState(m) as int))] else [])
  {
  }

  /** A forwarded key carries exactly the modifiers held: the meta state it is sent with
      decodes back to the flags. */
  lemma ForwardedCarriesMods(key: Key, pressed: bool, m: Mods, code: int, hostText: Option<string>, width: nat, height: nat)
    requires HandleKey(key, pressed, m, Some(code), hostText, width, height).Forwarded?
    ensures var q := HandleKey(key, pressed, m, Some(code), hostText, width, height).queue;
      |q| == 1 && q[0].Command? && q[0].cmd.Keycode? && q[0].cmd.keyCode == code &&
      q[0].cmd.meta == MetaState(m) as int
  {
  }

  /** The line the exit path writes on a fresh control connection to turn the screen
      back on: serialised by a JSON library, so without the spaces of the other
      commands. */
  const EXIT_POWER_ON_LINE: string := "{\"cmd\":\"set_screen_power_mode\",\"mode\":2}\n"

  class MirrorApp {
    const turnScreenOff: bool
    const frameBuffer: Buffer
    var hasWindow: bool
    var threadsStarted: bool
    /** How many input channels have been created, and which one the UI writes to. */
    var inputChannels: nat
    var sender: Option<nat>
    /** Everything put on the input channel so far. */
    var queued: seq<Queued>
    /** How many screenshot threads have been spawned. */
    var screenshots: nat
    var hasRenderer: bool
    var currentWidth: nat
    var currentHeight: nat
    var lastCount: nat
    var lastFrame: Option<FrameData>
    var ctrlPressed: bool
    var cmdPressed: bool
    var shiftPressed: bool

    ghost function Modifiers(): Mods
      reads this`ctrlPressed, this`cmdPressed, this`shiftPressed
    {
      Mods(ctrlPressed, cmdPressed, shiftPressed)
    }

    ghost predicate Valid()
      reads this, frameBuffer
    {
      frameBuffer.Valid() && (sender.Some? ==> sender.value < inputChannels)
    }

    constructor (turnScreenOff: bool)
      ensures this.turnScreenOff == turnScreenOff && fresh(frameBuffer) && Valid()
      ensures frameBuffer.State() == Slot(None, 0)
      ensures !hasWindow && !threadsStarted && inputChannels == 0 && sender == None && queued == []
      ensures screenshots == 0 && !hasRenderer && currentWidth == 0 && currentHeight == 0
      ensures lastCount == 0 && lastFrame == None && Modifiers() == Mods(false, false, false)
    {
      this.turnScreenOff := turnScreenOff;
      frameBuffer := new Buffer();
      hasWindow := false;
      threadsStarted := false;
      inputChannels := 0;
      sender := None;
      queued := [];
      screenshots := 0;
      hasRenderer := false;
      currentWidth := 0;
      currentHeight := 0;
      lastCount := 0;
      lastFrame := None;
      ctrlPressed := false;
      cmdPressed := false;
      shiftPressed := false;
    }

    /** `try_send` on the input channel, when there is one. */
    method Send(q: Queued)
      modifies this`queued
      ensures queued == old(queued) + if sender.Some? then [q] else []
    {
      if sender.Some? {
        queued := queued + [q];
      }
    }

    /** `send_keycode`: the meta state is built up bit by bit from the held modifiers. */
    method SendKeycode(action: string, code: int)
      modifies this`queued
      ensures queued == old(queued) + if sender.Some? then [Command(Keycode(action, code, MetaState(Modifiers()) as int))] else []
    {
      if sender.Some? {
        var meta: bv32 := 0;
        if ctrlPressed {
          meta := meta | META_CTRL_ON;
        }
        if cmdPressed {
          meta := meta | META_META_ON;
        }
        if shiftPressed {
          meta := meta | META_SHIFT_ON;
        }
        assert meta == MetaState(Modifiers());
        queued := queued + [Command(Keycode(action, code, meta as int))];
      }
    }

    /** `resumed`: the window is (re)created when the platform allows it; the threads,
        the input channel and the video receiver are started on the first call only. */
    method Resumed(windowCreated: bool)
      requires Valid()
      modifies this
      ensures Valid()
      ensures hasWindow == (old(hasWindow) || windowCreated)
      ensures threadsStarted
      ensures old(threadsStarted) ==>
        sender == old(sender) && inputChannels == old(inputChannels) && queued == old(queued) &&
        hasRenderer == old(hasRenderer) && currentWidth == old(currentWidth) && currentHeight == old(currentHeight)
      ensures !old(threadsStarted) ==>
        inputChannels == old(inputChannels) + 1 && sender == Some(old(inputChannels)) &&
        queued == old(queued) + (if turnScreenOff then [Command(SetScreenPowerMode(0))] else []) &&
        !hasRenderer && currentWidth == 0 && currentHeight == 0
      ensures screenshots == old(screenshots) && lastCount == old(lastCount) && lastFrame == old(lastFrame)
      ensures Modifiers() == old(Modifiers())
    {
      if windowCreated {
        hasWindow := true;
      }
      if threadsStarted {
        return;
      }
      threadsStarted := true;
      hasRenderer := false;
      currentWidth := 0;
      currentHeight := 0;
      sender := Some(inputChannels);
      inputChannels := inputChannels + 1;
      if turnScreenOff {
        Send(Command(SetScreenPowerMode(0)));
      }
    }

    /** `ModifiersChanged`: the flags are taken over from the platform's modifier state. */
    method ModifiersChanged(m: Mods)
      modifies this`ctrlPressed, this`cmdPressed, this`shiftPressed
      ensures Modifiers() == m
    {
      ctrlPressed := m.ctrl;
      cmdPressed := m.cmd;
      shiftPressed := m.shift;
    }

    /** The modifier shortcuts of a press, returning whether the key was one. */
    method ClipboardKeys(key: Key, hostText: Option<string>) returns (handled: bool)
      modifies this`queued, this`screenshots
      ensures var o := ClipboardShortcut(key, Modifiers(), hostText);
        handled == o.Some? &&
        queued == old(queued) + (if handled && sender.Some? then o.value.queue else []) &&
        screenshots == old(screenshots) + (if handled && o.value.screenshot then 1 else 0)
    {
      handled := false;
      var modifierPressed := ctrlPressed || cmdPressed;
      if modifierPressed {
        if key == KeyC {
          Send(Command(GetClipboard(true)));
          handled := true;
        } else if key == KeyV {
          if hostText.Some? {
            Send(Command(SetClipboard(hostText.value, true)));
          }
          handled := true;
        } else if key == KeyS {
          screenshots := screenshots + 1;
          handled := true;
        }
      }
    }

    /** The other shortcuts of a press, returning whether the key was one. */
    method NavigationKeys(key: Key) returns (handled: bool)
      modifies this`queued
      ensures var o := NavigationShortcut(key, Modifiers(), currentWidth, currentHeight);
        handled == o.Some? &&
        queued == old(queued) + (if handled && sender.Some? then o.value.queue else [])
    {
      handled := true;
      var nav := NavigationCode(key);
      var h := currentHeight as real;
      var w := currentWidth as real;
      if key == F7 {
        Send(Command(SetScreenPowerMode(0)));
      } else if key == F8 {
        Send(Command(SetScreenPowerMode(2)));
      } else if key == F9 {
        Send(PixelSwipe(w / 2.0, h * 0.75, w / 2.0, h * 0.25, SWIPE_DURATION));
      } else if key == F10 {
        Send(PixelSwipe(w / 2.0, h * 0.25, w / 2.0, h * 0.75, SWIPE_DURATION));
      } else if nav.Some? {
        PressKey(nav.value);
      } else {
        handled := false;
      }
    }

    /** A key code sent down and then up, with the current meta state. */
    method PressKey(code: int)
      modifies this`queued
      ensures queued == old(queued) + if sender.Some? then KeyPress(code, MetaState(Modifiers())) else []
    {
      SendKeycode("down", code);
      SendKeycode("up", code);
    }

    /** `KeyboardInput`: the flags are updated first, then a press is handled as a
        shortcut, returning at once, and anything else is forwarded through the
        keymap. `mapped` is the keymap's answer for `key` and `hostText` the host
        clipboard's text, if it could be read. */
    method KeyboardInput(key: Key, pressed: bool, mapped: Option<int>, hostText: Option<string>)
      modifies this`ctrlPressed, this`cmdPressed, this`shiftPressed, this`queued, this`screenshots
      ensures Modifiers() == UpdateMods(old(Modifiers()), key, pressed)
      ensures var o := HandleKey(key, pressed, Modifiers(), mapped, hostText, currentWidth, currentHeight);
        queued == old(queued) + (if sender.Some? then o.queue else []) &&
        screenshots == old(screenshots) + (if o.Shortcut? && o.screenshot then 1 else 0)
    {
      if key == ControlLeft || key == ControlRight {
        ctrlPressed := pressed;
      }
      if key == SuperLeft || key == SuperRight {
        cmdPressed := pressed;
      }
      if key == ShiftLeft || key == ShiftRight {
        shiftPressed := pressed;
      }
      Dispatch(key, pressed, mapped, hostText);
    }

    /** The rest of `KeyboardInput`, with the flags already updated. */
    method Dispatch(key: Key, pressed: bool, mapped: Option<int>, hostText: Option<string>)
      modifies this`queued, this`screenshots
      ensures var o := HandleKey(key, pressed, Modifiers(), mapped, hostText, currentWidth, currentHeight);
        queued == old(queued) + (if sender.Some? then o.queue else []) &&
        screenshots == old(screenshots) + (if o.Shortcut? && o.screenshot then 1 else 0)
    {
      if pressed {
        var handled := Shortcuts(key, hostText);
        if handled {
          return;
        }
      }
      if mapped.Some? {
        var action := if pressed then "down" else "up";
        SendKeycode(action, mapped.value);
      }
    }

    /** A press tried against the modifier shortcuts, then the others. */
    method Shortcuts(key: Key, hostText: Option<string>) returns (handled: bool)
      modifies this`queued, this`screenshots
      ensures var clip := ClipboardShortcut(key, Modifiers(), hostText);
        var o := if clip.Some? then clip else NavigationShortcut(key, Modifiers(), currentWidth, currentHeight);
        handled == o.Some? &&
        queued == old(queued) + (if handled && sender.Some? then o.value.queue else []) &&
        screenshots == old(screenshots) + (if handled && o.value.screenshot then 1 else 0)
    {
      handled := ClipboardKeys(key, hostText);
      if handled {
        return;
      }
      handled := NavigationKeys(key);
    }

    /** `about_to_wait`: take the pending frame, if any; remember it for screenshots
        when the lock is free; on a new size, request that window size and re-create
        the renderer, adopting the size only when that succeeds. `consumeContended`,
        `lastFrameFree` and `rendererOk` stand for the outcomes of the two `try_lock`s
        and of renderer creation. */
    method AboutToWait(consumeContended: bool, lastFrameFree: bool, rendererOk: bool)
      requires Valid()
      modifies this, frameBuffer
      ensures Valid()
      ensures var (slot, frame) := AfterConsume(old(frameBuffer.State()), consumeContended);
        frameBuffer.State() == slot &&
        lastCount == old(lastCount) + (if frame.Some? then 1 else 0) &&
        lastFrame == (if frame.Some? && lastFrameFree then frame else old(lastFrame)) &&
        var resized := frame.Some? && (frame.value.width != old(currentWidth) || frame.value.height != old(currentHeight)) &&
                       hasWindow && rendererOk;
        (currentWidth, currentHeight) == (if resized then (frame.value.width, frame.value.height) else (old(currentWidth), old(currentHeight))) &&
        hasRenderer == (resized || old(hasRenderer))
      ensures (currentWidth, currentHeight) != old((currentWidth, currentHeight)) ==> rendererOk && hasRenderer
      ensures hasWindow == old(hasWindow) && threadsStarted == old(threadsStarted) && sender == old(sender)
      ensures inputChannels == old(inputChannels) && queued == old(queued) && screenshots == old(screenshots)
      ensures Modifiers() == old(Modifiers())
    {
      var frame := frameBuffer.Consume(consumeContended);
      if frame.Some? {
        lastCount := lastCount + 1;
        if lastFrameFree {
          lastFrame := frame;
        }
        var f := frame.value;
        if f.width != currentWidth || f.height != currentHeight {
          if hasWindow {
            if rendererOk {
              hasRenderer := true;
              currentWidth := f.width;
              currentHeight := f.height;
            }
          }
        }
      }
    }

    /** On exit with `turnScreenOff`, the power-on line is written to a fresh control
        connection when one can be opened (`connected`). */
    method Exit(connected: bool) returns (line: Option<string>)
      ensures line == if turnScreenOff && connected then Some(EXIT_POWER_ON_LINE) else None
    {
      line := None;
      if turnScreenOff && connected {
        line := Some(EXIT_POWER_ON_LINE);
      }
    }
  }
}
