/** The host's control client: the JSON command lines it sends to the device, the
    string escapes it applies, and the two connections it writes them to (one
    fire-and-forget input connection whose replies a drain thread discards, one
    request-response connection). */
module Control {
  import opened Base
  import opened Text
  import opened Numbers

  const META_SHIFT_ON: bv32 := 0x1
  const META_CTRL_ON: bv32 := 0x1000
  const META_META_ON: bv32 := 0x10000

  /** The three modifier bits are distinct single bits. */
  lemma MetaBitsDisjoint()
    ensures META_SHIFT_ON & META_CTRL_ON == 0 && META_SHIFT_ON & META_META_ON == 0 && META_CTRL_ON & META_META_ON == 0
    ensures META_SHIFT_ON != 0 && META_CTRL_ON != 0 && META_META_ON != 0
  {
  }

  function BoolText(b: bool): string
  {
    if b then "true" else "false"
  }

  /** The escape of `set_clipboard` as written: backslashes, then quotes. Line feeds
      pass through raw. */
  function EscapeClipboardAsWritten(text: string): string
  {
    Replace(Replace(text, "\\", "\\\\"), "\"", "\\\"")
  }

  /** The escape of `inject_text`: backslashes, then quotes, then line feeds. */
  function EscapeText(text: string): string
  {
    Replace(Replace(Replace(text, "\\", "\\\\"), "\"", "\\\""), "\n", "\\n")
  }

  function KeycodeCommand(action: string, keyCode: int, metaState: int): string
  {
    "{\"cmd\": \"keycode\", \"action\": \"" + action + "\", \"keyCode\": " + IntToString(keyCode)
      + ", \"metaState\": " + IntToString(metaState) + "}"
  }

  /** The `set_clipboard` command as written. */
  function SetClipboardCommandAsWritten(text: string, paste: bool): string
  {
    "{\"cmd\": \"set_clipboard\", \"text\": \"" + EscapeClipboardAsWritten(text) + "\", \"paste\": " + BoolText(paste) + "}"
  }

  /** The `set_clipboard` command with the line-feed escape the text command already has. */
  function SetClipboardCommand(text: string, paste: bool): string
  {
    "{\"cmd\": \"set_clipboard\", \"text\": \"" + EscapeText(text) + "\", \"paste\": " + BoolText(paste) + "}"
  }

  function GetClipboardCommand(copy: bool): string
  {
    "{\"cmd\": \"get_clipboard\", \"copy\": " + BoolText(copy) + "}"
  }

  function TextCommand(text: string): string
  {
    "{\"cmd\": \"text\", \"text\": \"" + EscapeText(text) + "\"}"
  }

  /** Coordinates arrive already formatted (Rust's `Display` of an `f32`). */
  function TapCommand(x: string, y: string): string
  {
    "{\"cmd\": \"tap\", \"x\": " + x + ", \"y\": " + y + "}"
  }

  function SwipeCommand(x1: string, y1: string, x2: string, y2: string, durationMs: nat): string
  {
    "{\"cmd\": \"swipe\", \"x1\": " + x1 + ", \"y1\": " + y1 + ", \"x2\": " + x2 + ", \"y2\": " + y2
      + ", \"duration\": " + NatToString(durationMs) + "}"
  }

  function LongPressCommand(x: string, y: string, durationMs: nat): string
  {
    "{\"cmd\": \"long_press\", \"x\": " + x + ", \"y\": " + y + ", \"duration\": " + NatToString(durationMs) + "}"
  }

  const HIERARCHY_COMMAND: string := "{\"cmd\": \"hierarchy\"}"
  const STATS_COMMAND: string := "{\"cmd\": \"stats\"}"

  function PowerModeCommand(mode: int): string
  {
    "{\"cmd\": \"set_screen_power_mode\", \"mode\": " + IntToString(mode) + "}"
  }

  /** What `read_line` gives: everything up to and including the first line feed, or
      all that arrived when none did. */
  function LineWithEnd(incoming: string): (r: string)
    ensures StartsWith(incoming, r)
    ensures '\n' in r ==> r[|r| - 1] == '\n' && '\n' !in r[..|r| - 1]
    ensures '\n' !in r ==> r == incoming
  {
    if incoming == [] then []
    else if incoming[0] == '\n' then "\n"
    else [incoming[0]] + LineWithEnd(incoming[1..])
  }

  /** A command with no line feed of its own travels as exactly one line. */
  lemma OneLine(cmd: string)
    requires '\n' !in cmd
    ensures Split(cmd + "\n", '\n') == [cmd, ""]
  {
    SplitAt(cmd, '\n', "");
    assert cmd + "\n" == cmd + ['\n'] + "";
    SplitNoSep("", '\n');
  }

  lemma OneLineReadBack(cmd: string, rest: string)
    requires '\n' !in cmd
    ensures LineWithEnd(cmd + "\n" + rest) == cmd + "\n"
    decreases |cmd|
  {
    if cmd != [] {
      assert (cmd + "\n" + rest)[1..] == cmd[1..] + "\n" + rest;
      OneLineReadBack(cmd[1..], rest);
    }
  }

  /** A `set_clipboard` whose text holds a line feed leaves the escape with that line
      feed raw, so the command line is cut in two or more. */
  lemma SetClipboardSplitsLine(text: string, paste: bool)
    requires '\n' in text && '\\' !in text && '"' !in text
    ensures '\n' in SetClipboardCommandAsWritten(text, paste)
    ensures |Split(SetClipboardCommandAsWritten(text, paste) + "\n", '\n')| >= 3
  {
    AbsentChar(text, '\\');
    ReplaceAbsent(text, "\\", "\\\\");
    AbsentChar(text, '"');
    ReplaceAbsent(text, "\"", "\\\"");
    assert EscapeClipboardAsWritten(text) == text;
    var cmd := SetClipboardCommandAsWritten(text, paste);
    assert '\n' in cmd;
    SplitPrefix(cmd, '\n', "\n");
    SplitAt("", '\n', "");
    assert "" + ['\n'] + "" == "\n";
    SplitNoSep("", '\n');
  }

  /** One event of the drain thread's reads with a 500 ms timeout. */
  datatype DrainRead = LineRead | TimedOut | EndOfStream | ReadFailed

  /** How many reads the drain thread makes: it keeps going past lines and timeouts and
      stops at the end of the stream or another error. */
  function DrainLength(events: seq<DrainRead>): (n: nat)
    ensures n <= |events|
    ensures forall i :: 0 <= i < n - 1 ==> events[i] == LineRead || events[i] == TimedOut
    ensures n < |events| ==> n >= 1 && (events[n - 1] == EndOfStream || events[n - 1] == ReadFailed)
  {
    if events == [] then 0
    else if events[0] == EndOfStream || events[0] == ReadFailed then 1
    else 1 + DrainLength(events[1..])
  }

  /** The steps of dropping the client, in order. */
  datatype Teardown = DrainFlagCleared | InputShutDown | RpcShutDown | DrainJoined

  /** A client once both connections are up. `inputLines` and `rpcLines` are the bytes
      written to each connection, one entry per `writeln`; `flushes` counts the flushes
      of each. */
  class ControlClient {
    var inputLines: seq<string>
    var inputFlushes: nat
    var rpcLines: seq<string>
    var rpcFlushes: nat
    var drainRunning: bool
    var teardown: seq<Teardown>
    var rpcTimeoutMs: nat

    constructor ()
      ensures inputLines == [] && rpcLines == [] && inputFlushes == 0 && rpcFlushes == 0
      ensures drainRunning && teardown == [] && rpcTimeoutMs == 500
    {
      inputLines, rpcLines, inputFlushes, rpcFlushes := [], [], 0, 0;
      drainRunning, teardown, rpcTimeoutMs := true, [], 500;
    }

    method SetTimeout(ms: nat)
      modifies this
      ensures rpcTimeoutMs == ms
      ensures inputLines == old(inputLines) && rpcLines == old(rpcLines) && drainRunning == old(drainRunning)
      ensures inputFlushes == old(inputFlushes) && rpcFlushes == old(rpcFlushes) && teardown == old(teardown)
    {
      rpcTimeoutMs := ms;
    }

    /** The command and a line feed on the input connection, then a flush. */
    method SendAsync(cmd: string)
      modifies this
      ensures inputLines == old(inputLines) + [cmd + "\n"] && inputFlushes == old(inputFlushes) + 1
      ensures rpcLines == old(rpcLines) && rpcFlushes == old(rpcFlushes)
      ensures drainRunning == old(drainRunning) && teardown == old(teardown) && rpcTimeoutMs == old(rpcTimeoutMs)
    {
      inputLines := inputLines + [cmd + "\n"];
      inputFlushes := inputFlushes + 1;
    }

    /** The command on the request connection, a flush, then one reply line read back;
        `incoming` is what the device sends. */
    method SendSync(cmd: string, incoming: string) returns (response: string)
      modifies this
      ensures rpcLines == old(rpcLines) + [cmd + "\n"] && rpcFlushes == old(rpcFlushes) + 1
      ensures inputLines == old(inputLines) && inputFlushes == old(inputFlushes)
      ensures drainRunning == old(drainRunning) && teardown == old(teardown) && rpcTimeoutMs == old(rpcTimeoutMs)
      ensures response == LineWithEnd(incoming)
    {
      rpcLines := rpcLines + [cmd + "\n"];
      rpcFlushes := rpcFlushes + 1;
      response := LineWithEnd(incoming);
    }

    method InjectKeycode(action: string, keyCode: int, metaState: int)
      modifies this
      ensures inputLines == old(inputLines) + [KeycodeCommand(action, keyCode, metaState) + "\n"]
      ensures rpcLines == old(rpcLines)
      ensures inputFlushes == old(inputFlushes) + 1 && rpcFlushes == old(rpcFlushes)
      ensures drainRunning == old(drainRunning) && teardown == old(teardown) && rpcTimeoutMs == old(rpcTimeoutMs)
    {
      SendAsync(KeycodeCommand(action, keyCode, metaState));
    }

    method SetClipboard(text: string, paste: bool)
      modifies this
      ensures inputLines == old(inputLines) + [SetClipboardCommandAsWritten(text, paste) + "\n"]
      ensures rpcLines == old(rpcLines)
      ensures inputFlushes == old(inputFlushes) + 1 && rpcFlushes == old(rpcFlushes)
      ensures drainRunning == old(drainRunning) && teardown == old(teardown) && rpcTimeoutMs == old(rpcTimeoutMs)
    {
      SendAsync(SetClipboardCommandAsWritten(text, paste));
    }

    method GetClipboard(copy: bool, incoming: string) returns (response: string)
      modifies this
      ensures rpcLines == old(rpcLines) + [GetClipboardCommand(copy) + "\n"] && inputLines == old(inputLines)
      ensures response == LineWithEnd(incoming)
      ensures rpcFlushes == old(rpcFlushes) + 1 && inputFlushes == old(inputFlushes)
      ensures drainRunning == old(drainRunning) && teardown == old(teardown) && rpcTimeoutMs == old(rpcTimeoutMs)
    {
      response := SendSync(GetClipboardCommand(copy), incoming);
    }

    method InjectText(text: string)
      modifies this
      ensures inputLines == old(inputLines) + [TextCommand(text) + "\n"]
      ensures rpcLines == old(rpcLines)
      ensures inputFlushes == old(inputFlushes) + 1 && rpcFlushes == old(rpcFlushes)
      ensures drainRunning == old(drainRunning) && teardown == old(teardown) && rpcTimeoutMs == old(rpcTimeoutMs)
    {
      SendAsync(TextCommand(text));
    }

    method Tap(x: string, y: string)
      modifies this
      ensures inputLines == old(inputLines) + [TapCommand(x, y) + "\n"] && rpcLines == old(rpcLines)
      ensures inputFlushes == old(inputFlushes) + 1 && rpcFlushes == old(rpcFlushes)
      ensures drainRunning == old(drainRunning) && teardown == old(teardown) && rpcTimeoutMs == old(rpcTimeoutMs)
    {
      SendAsync(TapCommand(x, y));
    }

    method Swipe(x1: string, y1: string, x2: string, y2: string, durationMs: nat)
      modifies this
      ensures inputLines == old(inputLines) + [SwipeCommand(x1, y1, x2, y2, durationMs) + "\n"] && rpcLines == old(rpcLines)
      ensures inputFlushes == old(inputFlushes) + 1 && rpcFlushes == old(rpcFlushes)
      ensures drainRunning == old(drainRunning) && teardown == old(teardown) && rpcTimeoutMs == old(rpcTimeoutMs)
    {
      SendAsync(SwipeCommand(x1, y1, x2, y2, durationMs));
    }

    method LongPress(x: string, y: string, durationMs: nat)
      modifies this
      ensures inputLines == old(inputLines) + [LongPressCommand(x, y, durationMs) + "\n"] && rpcLines == old(rpcLines)
      ensures inputFlushes == old(inputFlushes) + 1 && rpcFlushes == old(rpcFlushes)
      ensures drainRunning == old(drainRunning) && teardown == old(teardown) && rpcTimeoutMs == old(rpcTimeoutMs)
    {
      SendAsync(LongPressCommand(x, y, durationMs));
    }

    method GetHierarchy(incoming: string) returns (response: string)
      modifies this
      ensures rpcLines == old(rpcLines) + [HIERARCHY_COMMAND + "\n"] && inputLines == old(inputLines)
      ensures response == LineWithEnd(incoming)
      ensures rpcFlushes == old(rpcFlushes) + 1 && inputFlushes == old(inputFlushes)
      ensures drainRunning == old(drainRunning) && teardown == old(teardown) && rpcTimeoutMs == old(rpcTimeoutMs)
    {
      response := SendSync(HIERARCHY_COMMAND, incoming);
    }

    method GetStats(incoming: string) returns (response: string)
      modifies this
      ensures rpcLines == old(rpcLines) + [STATS_COMMAND + "\n"] && inputLines == old(inputLines)
      ensures response == LineWithEnd(incoming)
      ensures rpcFlushes == old(rpcFlushes) + 1 && inputFlushes == old(inputFlushes)
      ensures drainRunning == old(drainRunning) && teardown == old(teardown) && rpcTimeoutMs == old(rpcTimeoutMs)
    {
      response := SendSync(STATS_COMMAND, incoming);
    }

    method SetScreenPowerMode(mode: int)
      modifies this
      ensures inputLines == old(inputLines) + [PowerModeCommand(mode) + "\n"] && rpcLines == old(rpcLines)
      ensures inputFlushes == old(inputFlushes) + 1 && rpcFlushes == old(rpcFlushes)
      ensures drainRunning == old(drainRunning) && teardown == old(teardown) && rpcTimeoutMs == old(rpcTimeoutMs)
    {
      SendAsync(PowerModeCommand(mode));
    }

    /** The drain thread over its reads while the flag stays up: it returns how many
        events it made. */
    method Drain(events: seq<DrainRead>) returns (n: nat)
      ensures n == DrainLength(events)
    {
      n := 0;
      while n < |events|
        invariant n <= |events| && DrainLength(events) == n + DrainLength(events[n..])
      {
        var r := events[n];
        assert events[n..][1..] == events[n + 1..];
        n := n + 1;
        if r == EndOfStream || r == ReadFailed {
          return;
        }
      }
    }

    /** Dropping the client: clear the drain flag, shut down both connections, then
        join the drain thread. */
    method Drop()
      modifies this
      ensures !drainRunning
      ensures teardown == old(teardown) + [DrainFlagCleared, InputShutDown, RpcShutDown, DrainJoined]
      ensures inputLines == old(inputLines) && rpcLines == old(rpcLines)
      ensures inputFlushes == old(inputFlushes) && rpcFlushes == old(rpcFlushes) && rpcTimeoutMs == old(rpcTimeoutMs)
    {
      drainRunning := false;
      teardown := teardown + [DrainFlagCleared];
      teardown := teardown + [InputShutDown, RpcShutDown];
      teardown := teardown + [DrainJoined];
    }
  }

  /** Asynchronous commands go out on the input connection only, one line each; the
      request connection sees each synchronous command once. */
  method SendBoth(c: ControlClient, action: string, key: int, incoming: string) returns (reply: string)
    modifies c
    ensures c.inputLines == old(c.inputLines) + [KeycodeCommand(action, key, 0) + "\n"]
    ensures c.rpcLines == old(c.rpcLines) + [STATS_COMMAND + "\n"]
    ensures reply == LineWithEnd(incoming)
  {
    c.InjectKeycode(action, key, 0);
    reply := c.GetStats(incoming);
  }
}
