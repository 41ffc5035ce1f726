/** The host's input thread: connecting with a capped backoff, then turning each UI
    command into a control-client call, in channel order; for a clipboard request it
    pulls the text out of the device's JSON reply and unescapes it. */
module InputHandler {
  import opened Base
  import opened Text
  import opened Numbers
  import opened Control

  const FIRST_DELAY_MS: nat := 500
  const MAX_DELAY_MS: nat := 5000
  /** `"text": "`, after which the clipboard text starts. */
  const TEXT_MARKER: string := "\"text\": \""

  /** The sleep after the k-th failed connection attempt, counting from 0. */
  function Backoff(k: nat): nat
  {
    Min(FIRST_DELAY_MS * Pow2(k), MAX_DELAY_MS)
  }

  /** The connect loop over the outcomes of the attempts: it sleeps after each failure
      and stops at the first success. */
  method Connect(outcomes: seq<bool>) returns (connected: bool, sleeps: seq<nat>)
    ensures connected <==> true in outcomes
    ensures |sleeps| <= |outcomes| && true !in outcomes[..|sleeps|]
    ensures connected ==> |sleeps| < |outcomes| && outcomes[|sleeps|]
    ensures !connected ==> |sleeps| == |outcomes|
    ensures forall k :: 0 <= k < |sleeps| ==> sleeps[k] == Backoff(k)
  {
    var delay := FIRST_DELAY_MS;
    sleeps := [];
    var i := 0;
    while i < |outcomes| && !outcomes[i]
      invariant 0 <= i <= |outcomes| && |sleeps| == i && true !in outcomes[..i]
      invariant forall k :: 0 <= k < i ==> sleeps[k] == Backoff(k)
      invariant delay == Backoff(i)
    {
      sleeps := sleeps + [delay];
      assert outcomes[..i + 1] == outcomes[..i] + [outcomes[i]];
      delay := Min(delay * 2, MAX_DELAY_MS);
      i := i + 1;
    }
    connected := i < |outcomes|;
    if !connected {
      assert outcomes[..i] == outcomes;
    } else {
      assert outcomes[i] in outcomes;
    }
  }

  /** The delays are 500, 1000, 2000, 4000 ms, then 5000 ms from the fifth on. */
  lemma BackoffValues(k: nat)
    ensures k < 4 ==> Backoff(k) == FIRST_DELAY_MS * Pow2(k)
    ensures k >= 4 ==> Backoff(k) == MAX_DELAY_MS
    ensures Backoff(k) in {500, 1000, 2000, 4000, 5000}
  {
    if k >= 4 {
      Pow2Grows(k);
    } else {
      assert k == 0 || k == 1 || k == 2 || k == 3;
    }
  }

  /** Where the scan for the closing quote stops: at the first quote not taken by a
      preceding backslash, or at the end. */
  function ScanEnd(rest: string, escaped: bool): (n: nat)
    ensures n <= |rest|
    ensures n < |rest| ==> rest[n] == '"'
  {
    if rest == [] then 0
    else if escaped then 1 + ScanEnd(rest[1..], false)
    else if rest[0] == '\\' then 1 + ScanEnd(rest[1..], true)
    else if rest[0] == '"' then 0
    else 1 + ScanEnd(rest[1..], false)
  }

  /** The character loop of the scan. */
  method FindClosingQuote(rest: string) returns (endIdx: nat)
    ensures endIdx == ScanEnd(rest, false)
  {
    endIdx := 0;
    var escaped := false;
    var i := 0;
    while i < |rest|
      invariant 0 <= i <= |rest| && endIdx == i
      invariant ScanEnd(rest, false) == i + ScanEnd(rest[i..], escaped)
    {
      var c := rest[i];
      assert rest[i..][1..] == rest[i + 1..];
      if escaped {
        escaped := false;
      } else if c == '\\' {
        escaped := true;
      } else if c == '"' {
        break;
      }
      endIdx := endIdx + 1;
      i := i + 1;
    }
  }

  /** The unescape as written: `\n` first, then `\"`, then `\\`, each a replace-all. */
  function UnescapeAsWritten(t: string): string
  {
    Replace(Replace(Replace(t, "\\n", "\n"), "\\\"", "\""), "\\\\", "\\")
  }

  /** The unescape as it is meant: one left-to-right pass in which a backslash and the
      character after it form one escape; an unknown escape is kept as it is. */
  function Unescape(t: string): string
  {
    if |t| >= 2 && t[0] == '\\' then
      (if t[1] == 'n' then "\n" else if t[1] == '"' || t[1] == '\\' then [t[1]] else t[..2]) + Unescape(t[2..])
    else if t == [] then []
    else [t[0]] + Unescape(t[1..])
  }

  /** The escaped text the host cuts out of a reply: after the first marker, up to the
      closing quote; nothing when the marker is missing or the text is empty. */
  function RawClipboard(response: string): (r: Option<string>)
    ensures Find(response, TEXT_MARKER).None? ==> r.None?
    ensures r.Some? ==> r.value != []
  {
    match Find(response, TEXT_MARKER)
    case None => None
    case Some(i) =>
      var rest := response[i + |TEXT_MARKER|..];
      var n := ScanEnd(rest, false);
      if n == 0 then None else Some(rest[..n])
  }

  /** The text handed to the host clipboard: the cut-out text, unescaped as written. */
  function ClipboardOf(response: string): (r: Option<string>)
    ensures r.Some? <==> RawClipboard(response).Some?
  {
    match RawClipboard(response)
    case None => None
    case Some(raw) => Some(UnescapeAsWritten(raw))
  }

  /** The text the host clipboard is meant to get: the cut-out text, unescaped in one
      pass. */
  function IntendedClipboardOf(response: string): (r: Option<string>)
    ensures r.Some? <==> RawClipboard(response).Some?
  {
    match RawClipboard(response)
    case None => None
    case Some(raw) => Some(Unescape(raw))
  }

  method ExtractClipboard(response: string) returns (clip: Option<string>)
    ensures clip == ClipboardOf(response)
  {
    var start := Find(response, TEXT_MARKER);
    if start.None? {
      return None;
    }
    var rest := response[start.value + |TEXT_MARKER|..];
    var endIdx := FindClosingQuote(rest);
    if endIdx == 0 {
      return None;
    }
    clip := Some(UnescapeAsWritten(rest[..endIdx]));
  }

  /** A text with a backslash before an `n` comes back from the as-written unescape with
      a line feed in place of the `n`: `\` `n` is escaped to `\\n`, and the first replace
      reads its last two characters as an escaped line feed. */
  lemma UnescapeAsWrittenBreaksBackslashN()
    ensures EscapeText("\\n") == "\\\\n"
    ensures UnescapeAsWritten("\\\\n") == "\\\n"
    ensures Unescape("\\\\n") == "\\n"
  {
    assert Replace("\\n", "\\", "\\\\") == "\\\\" + Replace("n", "\\", "\\\\");
    assert Replace("\\\\n", "\"", "\\\"") == "\\\\n" by {
      assert Replace("n", "\"", "\\\"") == "n";
      assert Replace("\\n", "\"", "\\\"") == "\\n";
    }
    assert Replace("\\\\n", "\n", "\\n") == "\\\\n" by {
      assert Replace("n", "\n", "\\n") == "n";
      assert Replace("\\n", "\n", "\\n") == "\\n";
    }
    assert Replace("\\\\n", "\\n", "\n") == "\\\n" by {
      assert "\\\\n"[..2] != "\\n";
      assert "\\\\n"[1..] == "\\n";
      assert Replace("\\n", "\\n", "\n") == "\n" + Replace("", "\\n", "\n");
    }
    assert Replace("\\\n", "\\\"", "\"") == "\\\n" by {
      assert "\\\n"[..2][1] != "\\\""[1];
    }
    assert Replace("\\\n", "\\\\", "\\") == "\\\n" by {
      assert "\\\n"[..2][1] != "\\\\"[1];
    }
    assert Unescape("\\\\n") == "\\" + Unescape("n");
  }

  /** The commands the UI thread puts on the channel; coordinates arrive formatted. */
  datatype InputCommand =
    | Tap(x: string, y: string)
    | Swipe(x1: string, y1: string, x2: string, y2: string, duration: nat)
    | LongPress(x: string, y: string, duration: nat)
    | Keycode(action: string, keyCode: int, meta: int)
    | GetClipboard(copy: bool)
    | SetClipboard(text: string, paste: bool)
    | InjectText(text: string)
    | SetScreenPowerMode(mode: int)

  /** The line a command writes to the input connection, or None for the one command
      that uses the request connection. */
  function AsyncLine(cmd: InputCommand): (r: Option<string>)
    ensures r.None? <==> cmd.GetClipboard?
  {
    match cmd
    case Tap(x, y) => Some(TapCommand(x, y))
    case Swipe(x1, y1, x2, y2, d) => Some(SwipeCommand(x1, y1, x2, y2, d))
    case LongPress(x, y, d) => Some(LongPressCommand(x, y, d))
    case Keycode(a, k, m) => Some(KeycodeCommand(a, k, m))
    case GetClipboard(_) => None
    case SetClipboard(t, p) => Some(SetClipboardCommandAsWritten(t, p))
    case InjectText(t) => Some(TextCommand(t))
    case SetScreenPowerMode(m) => Some(PowerModeCommand(m))
  }

  /** What one command writes to the input connection: its line and the terminator. */
  function CommandLines(cmd: InputCommand): seq<string>
  {
    if AsyncLine(cmd).Some? then [AsyncLine(cmd).value + "\n"] else []
  }

  /** What one command writes to the request connection. */
  function RpcLineOf(cmd: InputCommand): seq<string>
  {
    if cmd.GetClipboard? then [GetClipboardCommand(cmd.copy) + "\n"] else []
  }

  /** All the input-connection lines of a run of commands, in order. */
  function InputLines(cmds: seq<InputCommand>): seq<string>
  {
    if cmds == [] then [] else InputLines(cmds[..|cmds| - 1]) + CommandLines(cmds[|cmds| - 1])
  }

  /** All the request-connection lines of a run of commands, in order. */
  function RpcLines(cmds: seq<InputCommand>): seq<string>
  {
    if cmds == [] then [] else RpcLines(cmds[..|cmds| - 1]) + RpcLineOf(cmds[|cmds| - 1])
  }

  /** The clipboard text a command hands to the host, given the device's reply line. */
  function ClipFor(cmd: InputCommand, incoming: string): (r: Option<string>)
    ensures r.Some? ==> cmd.GetClipboard?
  {
    if cmd.GetClipboard? then ClipboardOf(LineWithEnd(incoming)) else None
  }

  /** One command. `incoming` is what the device sends back on the request connection;
      the result is the text handed to the host clipboard, if any. */
  method ProcessCommand(client: ControlClient, cmd: InputCommand, incoming: string) returns (clip: Option<string>)
    modifies client
    ensures client.inputLines == old(client.inputLines) + CommandLines(cmd)
    ensures client.rpcLines == old(client.rpcLines) + RpcLineOf(cmd)
    ensures clip == ClipFor(cmd, incoming)
    ensures client.rpcTimeoutMs == old(client.rpcTimeoutMs)
  {
    clip := None;
    match cmd {
      case Tap(x, y) => client.Tap(x, y);
      case Swipe(x1, y1, x2, y2, d) => client.Swipe(x1, y1, x2, y2, d);
      case LongPress(x, y, d) => client.LongPress(x, y, d);
      case Keycode(a, k, m) => client.InjectKeycode(a, k, m);
      case GetClipboard(copy) =>
        var response := client.GetClipboard(copy, incoming);
        clip := ExtractClipboard(response);
      case SetClipboard(t, p) => client.SetClipboard(t, p);
      case InjectText(t) => client.InjectText(t);
      case SetScreenPowerMode(m) => client.SetScreenPowerMode(m);
    }
  }

  /** The clipboard texts a run of commands hands to the host, one entry per command. */
  function Clips(cmds: seq<InputCommand>, replies: seq<string>): (r: seq<Option<string>>)
    requires |replies| == |cmds|
    ensures |r| == |cmds|
  {
    if cmds == [] then []
    else Clips(cmds[..|cmds| - 1], replies[..|cmds| - 1]) + [ClipFor(cmds[|cmds| - 1], replies[|cmds| - 1])]
  }

  /** Entry i is what command i hands over, and only clipboard requests hand anything. */
  lemma {:induction false} ClipsAt(cmds: seq<InputCommand>, replies: seq<string>, i: nat)
    requires |replies| == |cmds| && i < |cmds|
    ensures Clips(cmds, replies)[i] == ClipFor(cmds[i], replies[i])
    ensures Clips(cmds, replies)[i].Some? ==> cmds[i].GetClipboard?
  {
    var n := |cmds| - 1;
    if i < n {
      ClipsAt(cmds[..n], replies[..n], i);
    }
  }

  /** The thread after connecting: the request timeout raised to 1 s, then every
      command in the order received. `replies[i]` is what the device would answer
      command i on the request connection. */
  method Run(client: ControlClient, cmds: seq<InputCommand>, replies: seq<string>) returns (clips: seq<Option<string>>)
    requires |replies| == |cmds|
    modifies client
    ensures client.rpcTimeoutMs == 1000
    ensures client.inputLines == old(client.inputLines) + InputLines(cmds)
    ensures client.rpcLines == old(client.rpcLines) + RpcLines(cmds)
    ensures clips == Clips(cmds, replies)
  {
    client.SetTimeout(1000);
    clips := [];
    var i := 0;
    while i < |cmds|
      invariant 0 <= i <= |cmds| && client.rpcTimeoutMs == 1000
      invariant client.inputLines == old(client.inputLines) + InputLines(cmds[..i])
      invariant client.rpcLines == old(client.rpcLines) + RpcLines(cmds[..i])
      invariant clips == Clips(cmds[..i], replies[..i])
    {
      clips := RunOne(client, cmds, replies, i, clips, old(client.inputLines), old(client.rpcLines));
      i := i + 1;
    }
    assert cmds[..i] == cmds && replies[..i] == replies;
  }

  /** Command i of the run, with the account of the commands before it. */
  method RunOne(client: ControlClient, cmds: seq<InputCommand>, replies: seq<string>, i: nat,
                clips: seq<Option<string>>, ghost input0: seq<string>, ghost rpc0: seq<string>)
    returns (clips': seq<Option<string>>)
    requires |replies| == |cmds| && i < |cmds|
    requires client.inputLines == input0 + InputLines(cmds[..i])
    requires client.rpcLines == rpc0 + RpcLines(cmds[..i])
    requires clips == Clips(cmds[..i], replies[..i])
    modifies client
    ensures client.rpcTimeoutMs == old(client.rpcTimeoutMs)
    ensures client.inputLines == input0 + InputLines(cmds[..i + 1])
    ensures client.rpcLines == rpc0 + RpcLines(cmds[..i + 1])
    ensures clips' == Clips(cmds[..i + 1], replies[..i + 1])
  {
    RunStep(cmds, replies, i);
    var clip := ProcessCommand(client, cmds[i], replies[i]);
    clips' := clips + [clip];
  }

  /** One more command of the run: its lines and its clipboard text come after those
      of the commands before it. */
  lemma RunStep(cmds: seq<InputCommand>, replies: seq<string>, i: nat)
    requires |replies| == |cmds| && i < |cmds|
    ensures InputLines(cmds[..i + 1]) == InputLines(cmds[..i]) + CommandLines(cmds[i])
    ensures RpcLines(cmds[..i + 1]) == RpcLines(cmds[..i]) + RpcLineOf(cmds[i])
    ensures Clips(cmds[..i + 1], replies[..i + 1]) == Clips(cmds[..i], replies[..i]) + [ClipFor(cmds[i], replies[i])]
  {
    assert cmds[..i + 1][..i] == cmds[..i];
    assert replies[..i + 1][..i] == replies[..i];
  }
}
