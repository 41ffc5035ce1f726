/** The device's command dispatcher: one JSON request line in, one JSON response line
    out. The request line is parsed by Android's org.json, whose coercion rules are
    modelled here; the parser itself, `Double.parseDouble` and the controllers the
    branches call are oracles given as parameters. */
module CommandHandler {
  import opened Base
  import opened Text
  import opened Numbers
  import Injection

  /** A member value as org.json holds it: a string, an integral number (an Integer, or a
      Long when it does not fit in 32 bits), a double together with Java's text for it,
      or a boolean. */
  datatype JValue = JStr(s: string) | JInt(n: int) | JReal(r: real, text: string) | JBool(b: bool)

  type JObject = map<string, JValue>

  /** `Double.parseDouble`: None when it throws `NumberFormatException`. */
  type DoubleParser = string -> Option<real>

  /** A double narrowed to an integer type in [lo, hi]: rounded toward zero, saturating
      at the bounds. */
  function Narrow(d: real, lo: int, hi: int): (r: int)
    requires lo <= 0 <= hi
    ensures lo <= r <= hi
    ensures d >= 0.0 ==> r >= 0
    ensures d <= 0.0 ==> r <= 0
    ensures lo < r < hi && d >= 0.0 ==> r as real <= d < r as real + 1.0
    ensures lo < r < hi && d < 0.0 ==> r as real - 1.0 < d <= r as real
  {
    var t := if d >= 0.0 then d.Floor else 0 - (0.0 - d).Floor;
    if t < lo then lo else if t > hi then hi else t
  }

  /** ASCII case folding, as `equalsIgnoreCase` applies it to these letters. */
  function Lower(c: char): char
  {
    if 'A' <= c <= 'Z' then (c as int + 32) as char else c
  }

  predicate EqualsIgnoreCase(a: string, b: string)
  {
    |a| == |b| && forall i :: 0 <= i < |a| ==> Lower(a[i]) == Lower(b[i])
  }

  /** `String.valueOf` of a member value, the text `getString` and `optString` return. */
  function ValueText(v: JValue): string
  {
    match v
    case JStr(s) => s
    case JInt(n) => IntToString(n)
    case JReal(_, text) => text
    case JBool(b) => BoolToString(b)
  }

  function ClassName(v: JValue): string
  {
    match v
    case JStr(_) => "java.lang.String"
    case JInt(n) => if INT_MIN <= n <= INT_MAX then "java.lang.Integer" else "java.lang.Long"
    case JReal(_, _) => "java.lang.Double"
    case JBool(_) => "java.lang.Boolean"
  }

  function ToInteger(v: JValue, parseDouble: DoubleParser): (r: Option<int>)
    ensures r.Some? ==> INT_MIN <= r.value <= INT_MAX
    ensures v.JInt? ==> r == Some(Wrap32(v.n))
    ensures r.None? <==> v.JBool? || (v.JStr? && parseDouble(v.s).None?)
  {
    match v
    case JInt(n) => Some(Wrap32(n))
    case JReal(d, _) => Some(Narrow(d, INT_MIN, INT_MAX))
    case JStr(s) => (match parseDouble(s) case Some(d) => Some(Narrow(d, INT_MIN, INT_MAX)) case None => None)
    case JBool(_) => None
  }

  function ToLong(v: JValue, parseDouble: DoubleParser): (r: Option<int>)
    ensures v.JInt? ==> r == Some(v.n)
    ensures r.None? <==> v.JBool? || (v.JStr? && parseDouble(v.s).None?)
  {
    match v
    case JInt(n) => Some(n)
    case JReal(d, _) => Some(Narrow(d, LONG_MIN, LONG_MAX))
    case JStr(s) => (match parseDouble(s) case Some(d) => Some(Narrow(d, LONG_MIN, LONG_MAX)) case None => None)
    case JBool(_) => None
  }

  function ToDouble(v: JValue, parseDouble: DoubleParser): (r: Option<real>)
    ensures r.None? <==> v.JBool? || (v.JStr? && parseDouble(v.s).None?)
  {
    match v
    case JInt(n) => Some(n as real)
    case JReal(d, _) => Some(d)
    case JStr(s) => parseDouble(s)
    case JBool(_) => None
  }

  function ToBoolean(v: JValue): (r: Option<bool>)
    ensures r == Some(true) <==> v == JBool(true) || (v.JStr? && EqualsIgnoreCase(v.s, "true"))
    ensures r == Some(false) <==> v == JBool(false) || (v.JStr? && EqualsIgnoreCase(v.s, "false"))
  {
    match v
    case JBool(b) => Some(b)
    case JStr(s) =>
      if EqualsIgnoreCase(s, "true") then Some(true)
      else if EqualsIgnoreCase(s, "false") then Some(false)
      else None
    case _ => None
  }

  /** The `JSONException` message for a missing member. */
  function NoValue(name: string): string
  {
    "No value for " + name
  }

  /** The `JSONException` message for a member of the wrong type. */
  function Mismatch(name: string, v: JValue, required: string): string
  {
    "Value " + ValueText(v) + " at " + name + " of type " + ClassName(v) + " cannot be converted to " + required
  }

  function Get(o: JObject, name: string): (r: Result<JValue>)
    ensures r.Ok? <==> name in o
    ensures r.Ok? ==> r.value == o[name]
    ensures r.Err? ==> r.msg == NoValue(name)
  {
    if name in o then Ok(o[name]) else Err(NoValue(name))
  }

  /** `getString`: every present value has a text form, so only absence fails. */
  function GetString(o: JObject, name: string): (r: Result<string>)
    ensures r.Ok? <==> name in o
    ensures r.Ok? ==> r.value == ValueText(o[name])
    ensures r.Err? ==> r.msg == NoValue(name)
  {
    var v :- Get(o, name);
    Ok(ValueText(v))
  }

  function GetInt(o: JObject, name: string, parseDouble: DoubleParser): (r: Result<int>)
    ensures name !in o ==> r == Err(NoValue(name))
    ensures name in o && o[name].JBool? ==> r == Err(Mismatch(name, o[name], "int"))
    ensures name in o && o[name].JInt? ==> r == Ok(Wrap32(o[name].n))
  {
    var v :- Get(o, name);
    match ToInteger(v, parseDouble)
    case Some(i) => Ok(i)
    case None => Err(Mismatch(name, v, "int"))
  }

  function GetDouble(o: JObject, name: string, parseDouble: DoubleParser): (r: Result<real>)
    ensures name !in o ==> r == Err(NoValue(name))
    ensures name in o && o[name].JBool? ==> r == Err(Mismatch(name, o[name], "double"))
    ensures name in o && o[name].JInt? ==> r == Ok(o[name].n as real)
    ensures name in o && o[name].JReal? ==> r == Ok(o[name].r)
  {
    var v :- Get(o, name);
    match ToDouble(v, parseDouble)
    case Some(d) => Ok(d)
    case None => Err(Mismatch(name, v, "double"))
  }

  /** `optString`, `optInt`, `optLong`, `optDouble`, `optBoolean`: the fallback when the
      member is absent or cannot be converted; they never fail. */
  function OptString(o: JObject, name: string, fallback: string): (r: string)
    ensures name !in o ==> r == fallback
    ensures name in o && o[name].JStr? ==> r == o[name].s
  {
    if name in o then ValueText(o[name]) else fallback
  }

  function OptInt(o: JObject, name: string, fallback: int, parseDouble: DoubleParser): (r: int)
    ensures name !in o ==> r == fallback
    ensures name in o && o[name].JBool? ==> r == fallback
    ensures name in o && o[name].JInt? ==> r == Wrap32(o[name].n)
  {
    if name in o then ToInteger(o[name], parseDouble).GetOr(fallback) else fallback
  }

  function OptLong(o: JObject, name: string, fallback: int, parseDouble: DoubleParser): (r: int)
    ensures name !in o ==> r == fallback
    ensures name in o && o[name].JBool? ==> r == fallback
    ensures name in o && o[name].JInt? ==> r == o[name].n
  {
    if name in o then ToLong(o[name], parseDouble).GetOr(fallback) else fallback
  }

  function OptDouble(o: JObject, name: string, fallback: real, parseDouble: DoubleParser): (r: real)
    ensures name !in o ==> r == fallback
    ensures name in o && o[name].JBool? ==> r == fallback
  {
    if name in o then ToDouble(o[name], parseDouble).GetOr(fallback) else fallback
  }

  function OptBoolean(o: JObject, name: string, fallback: bool): (r: bool)
    ensures name !in o ==> r == fallback
    ensures name in o && o[name].JBool? ==> r == o[name].b
    ensures name in o && o[name].JInt? ==> r == fallback
  {
    if name in o then ToBoolean(o[name]).GetOr(fallback) else fallback
  }

  /** A call into a controller, with the arguments the dispatcher passes. Coordinates are
      the raw request values; the scaling applied to them is floating point and is not
      modelled. */
  datatype Call =
    | InjectTouch(action: int, x: real, y: real)
    | InjectKey(keyCode: int, keyAction: int, metaState: int)
    | InjectText(text: string)
    | SetTextAndPaste(text: string, paste: bool)
    | GetText
    | CopyAndGetText
    | Tap(x: real, y: real)
    | Swipe(x1: real, y1: real, x2: real, y2: real, duration: int)
    | LongPress(x: real, y: real, duration: int)
    | PressKey(code: int)
    | DumpHierarchy
    | GetStats
    | SetPowerMode(mode: int)
    | StartMocking
    | StopMocking
    | UpdateLocation(lat: real, lon: real, alt: real, bearing: real, speed: real)

  /** What the controllers report back; swipe and long press can throw from their sleep. */
  datatype Devices = Devices(
    touched: bool, keyed: bool, tapped: bool, swiped: Result<bool>, pressedLong: Result<bool>,
    pressed: bool, clipboard: Option<string>, copied: Option<string>,
    hierarchy: string, stats: string, powerSet: bool)

  datatype Handled = Handled(response: string, calls: seq<Call>)

  const COMMANDS: set<string> := {
    "touch", "keycode", "text", "set_clipboard", "get_clipboard", "tap", "swipe",
    "long_press", "key", "hierarchy", "stats", "set_screen_power_mode",
    "start_mock_location", "stop_mock_location", "set_location"}

  const SWIPE_DEFAULT_DURATION: int := 300
  const LONG_PRESS_DEFAULT_DURATION: int := 500

  function ErrorReply(msg: string): string
  {
    "{\"error\": \"" + msg + "\"}"
  }

  const EMPTY_COMMAND: string := ErrorReply("Empty command")

  function SuccessReply(cmd: string, ok: bool): string
  {
    "{\"cmd\": \"" + cmd + "\", \"success\": " + BoolToString(ok) + "}"
  }

  function DataReply(cmd: string, data: string): string
  {
    "{\"cmd\": \"" + cmd + "\", \"data\": " + data + "}"
  }

  /** The fixed replies of `text` and `set_clipboard`, raw literals whose backslashes are
      part of the text sent. */
  const TEXT_REPLY: string := @"{\""cmd\"": \""text\"", \""success\"": true}"
  const SET_CLIPBOARD_REPLY: string := @"{\""cmd\"": \""set_clipboard\"", \""success\"": true}"

  const GET_CLIPBOARD_PREFIX: string := "{\"cmd\": \"get_clipboard\", \"text\": \""

  function ClipboardReply(text: string): string
  {
    GET_CLIPBOARD_PREFIX + EscapeJson(text) + "\"}"
  }

  /** The JSON string escape of one character, as far as the dispatcher escapes. */
  function EscapeChar(c: char): string
  {
    if c == '\\' then "\\\\" else if c == '"' then "\\\"" else if c == '\n' then "\\n" else [c]
  }

  /** Reference definition: every character escaped on its own. */
  function EscapeEach(s: string): (r: string)
    ensures '\n' !in r
    ensures |r| >= |s|
  {
    if s == [] then [] else EscapeChar(s[0]) + EscapeEach(s[1..])
  }

  /** The escape as the dispatcher writes it: backslashes, then quotes, then line feeds,
      each by a replace-all over the whole text. */
  function EscapeJson(s: string): string
  {
    Replace(Replace(Replace(s, "\\", "\\\\"), "\"", "\\\""), "\n", "\\n")
  }

  lemma EscapeJsonChar(c: char)
    ensures EscapeJson([c]) == EscapeChar(c)
  {
    var r1 := if c == '\\' then "\\\\" else [c];
    assert Replace([c], "\\", "\\\\") == r1;
    if c == '\\' {
      assert Replace("\\\\", "\"", "\\\"") == "\\\\";
      assert Replace("\\\\", "\n", "\\n") == "\\\\";
    } else if c == '"' {
      assert Replace([c], "\"", "\\\"") == "\\\"";
      assert Replace("\\\"", "\n", "\\n") == "\\\"";
    } else if c == '\n' {
      assert Replace([c], "\"", "\\\"") == [c];
      assert Replace([c], "\n", "\\n") == "\\n";
    } else {
      assert Replace([c], "\"", "\\\"") == [c];
      assert Replace([c], "\n", "\\n") == [c];
    }
  }

  lemma {:induction false} EscapeIsEach(s: string)
    ensures EscapeJson(s) == EscapeEach(s)
  {
    if s != [] {
      var a, b := [s[0]], s[1..];
      assert s == a + b;
      ReplaceCharConcat(a, b, '\\', "\\\\");
      var a1, b1 := Replace(a, "\\", "\\\\"), Replace(b, "\\", "\\\\");
      ReplaceCharConcat(a1, b1, '"', "\\\"");
      var a2, b2 := Replace(a1, "\"", "\\\""), Replace(b1, "\"", "\\\"");
      ReplaceCharConcat(a2, b2, '\n', "\\n");
      EscapeJsonChar(s[0]);
      EscapeIsEach(b);
    }
  }

  /** The `when (json.getString("action"))` table of the touch command. */
  function TouchAction(a: string): (r: int)
    ensures r == Injection.ACTION_DOWN <==> a == "down"
    ensures r == Injection.ACTION_MOVE <==> a == "move"
    ensures r == Injection.ACTION_UP <==> a != "down" && a != "move"
  {
    if a == "down" then Injection.ACTION_DOWN
    else if a == "move" then Injection.ACTION_MOVE
    else Injection.ACTION_UP
  }

  function KeyAction(a: string): (r: int)
    ensures r == Injection.KEY_DOWN <==> a == "down"
    ensures r == Injection.KEY_UP <==> a != "down"
  {
    if a == "down" then Injection.KEY_DOWN else Injection.KEY_UP
  }

  function Point(o: JObject, xName: string, yName: string, parseDouble: DoubleParser): Result<(real, real)>
  {
    var x :- GetDouble(o, xName, parseDouble);
    var y :- GetDouble(o, yName, parseDouble);
    Ok((x, y))
  }

  /** One `when (cmd)` branch. `Err` is an exception thrown before any controller is
      called; an exception from a controller call is reported in the reply it produces. */
  function Dispatch(cmd: string, o: JObject, parseDouble: DoubleParser, dev: Devices): Result<Handled>
  {
    if cmd == "touch" then
      var a :- GetString(o, "action");
      var p :- Point(o, "x", "y", parseDouble);
      Ok(Handled(SuccessReply("touch", dev.touched), [InjectTouch(TouchAction(a), p.0, p.1)]))
    else if cmd == "keycode" then
      var a :- GetString(o, "action");
      var code :- GetInt(o, "keyCode", parseDouble);
      var meta := OptInt(o, "metaState", 0, parseDouble);
      Ok(Handled(SuccessReply("keycode", dev.keyed), [InjectKey(code, KeyAction(a), meta)]))
    else if cmd == "text" then
      var text :- GetString(o, "text");
      Ok(Handled(TEXT_REPLY, [InjectText(text)]))
    else if cmd == "set_clipboard" then
      var text :- GetString(o, "text");
      var paste := OptBoolean(o, "paste", false);
      Ok(Handled(SET_CLIPBOARD_REPLY, [SetTextAndPaste(text, paste)]))
    else if cmd == "get_clipboard" then
      var copy := OptBoolean(o, "copy", false);
      var text := if copy then dev.copied.GetOr("") else dev.clipboard.GetOr("");
      Ok(Handled(ClipboardReply(text), [if copy then CopyAndGetText else GetText]))
    else if cmd == "tap" then
      var p :- Point(o, "x", "y", parseDouble);
      Ok(Handled(SuccessReply("tap", dev.tapped), [Tap(p.0, p.1)]))
    else if cmd == "swipe" then
      var p :- Point(o, "x1", "y1", parseDouble);
      var q :- Point(o, "x2", "y2", parseDouble);
      var duration := OptLong(o, "duration", SWIPE_DEFAULT_DURATION, parseDouble);
      var reply := match dev.swiped case Ok(ok) => SuccessReply("swipe", ok) case Err(m) => ErrorReply(m);
      Ok(Handled(reply, [Swipe(p.0, p.1, q.0, q.1, duration)]))
    else if cmd == "long_press" then
      var p :- Point(o, "x", "y", parseDouble);
      var duration := OptLong(o, "duration", LONG_PRESS_DEFAULT_DURATION, parseDouble);
      var reply := match dev.pressedLong case Ok(ok) => SuccessReply("long_press", ok) case Err(m) => ErrorReply(m);
      Ok(Handled(reply, [LongPress(p.0, p.1, duration)]))
    else if cmd == "key" then
      var code :- GetInt(o, "keyCode", parseDouble);
      Ok(Handled(SuccessReply("key", dev.pressed), [PressKey(code)]))
    else if cmd == "hierarchy" then
      Ok(Handled(DataReply("hierarchy", dev.hierarchy), [DumpHierarchy]))
    else if cmd == "stats" then
      Ok(Handled(DataReply("stats", dev.stats), [GetStats]))
    else if cmd == "set_screen_power_mode" then
      var mode :- GetInt(o, "mode", parseDouble);
      Ok(Handled(SuccessReply("set_screen_power_mode", dev.powerSet), [SetPowerMode(mode)]))
    else if cmd == "start_mock_location" then
      Ok(Handled(SuccessReply("start_mock_location", true), [StartMocking]))
    else if cmd == "stop_mock_location" then
      Ok(Handled(SuccessReply("stop_mock_location", true), [StopMocking]))
    else if cmd == "set_location" then
      var lat :- GetDouble(o, "lat", parseDouble);
      var lon :- GetDouble(o, "lon", parseDouble);
      var alt := OptDouble(o, "alt", 0.0, parseDouble);
      var bearing := OptDouble(o, "bearing", 0.0, parseDouble);
      var speed := OptDouble(o, "speed", 0.0, parseDouble);
      Ok(Handled(SuccessReply("set_location", true), [UpdateLocation(lat, lon, alt, bearing, speed)]))
    else
      Ok(Handled(ErrorReply("Unknown command: " + cmd), []))
  }

  /** `handleCommand`: the line read from the peer (None at end of stream), org.json's
      parse of it, and the controllers' outcomes, to the response and the calls made. */
  function HandleCommand(line: Option<string>, parse: string -> Result<JObject>,
                         parseDouble: DoubleParser, dev: Devices): (r: Handled)
    ensures line.None? ==> r == Handled(EMPTY_COMMAND, [])
    ensures line.Some? && parse(line.value).Err? ==> r == Handled(ErrorReply(parse(line.value).msg), [])
    ensures |r.calls| <= 1
  {
    match line
    case None => Handled(EMPTY_COMMAND, [])
    case Some(l) =>
      match parse(l)
      case Err(m) => Handled(ErrorReply(m), [])
      case Ok(o) =>
        match Dispatch(OptString(o, "cmd", ""), o, parseDouble, dev)
        case Ok(h) => h
        case Err(m) => Handled(ErrorReply(m), [])
  }

  /** An unknown command name, or none (read as ""), is answered with its name and
      calls nothing. */
  lemma UnknownCommand(l: string, parse: string -> Result<JObject>, parseDouble: DoubleParser, dev: Devices)
    requires parse(l).Ok? && OptString(parse(l).value, "cmd", "") !in COMMANDS
    ensures HandleCommand(Some(l), parse, parseDouble, dev)
         == Handled(ErrorReply("Unknown command: " + OptString(parse(l).value, "cmd", "")), [])
  {
  }

  lemma MissingCommand(l: string, parse: string -> Result<JObject>, parseDouble: DoubleParser, dev: Devices)
    requires parse(l).Ok? && "cmd" !in parse(l).value
    ensures HandleCommand(Some(l), parse, parseDouble, dev) == Handled(ErrorReply("Unknown command: "), [])
  {
    UnknownCommand(l, parse, parseDouble, dev);
  }

  /** A missing required member answers with org.json's message and calls nothing. */
  lemma MissingMember(l: string, parse: string -> Result<JObject>, parseDouble: DoubleParser, dev: Devices, cmd: string, name: string)
    requires parse(l).Ok? && OptString(parse(l).value, "cmd", "") == cmd
    requires (cmd, name) in {("touch", "action"), ("keycode", "action"), ("text", "text"),
                             ("set_clipboard", "text"), ("tap", "x"), ("swipe", "x1"),
                             ("long_press", "x"), ("key", "keyCode"), ("set_screen_power_mode", "mode"),
                             ("set_location", "lat")}
    requires name !in parse(l).value
    ensures HandleCommand(Some(l), parse, parseDouble, dev) == Handled(ErrorReply(NoValue(name)), [])
  {
  }

  /** `text` and `set_clipboard` answer their fixed literal whatever the injection does. */
  lemma FixedReplies(l: string, parse: string -> Result<JObject>, parseDouble: DoubleParser, dev1: Devices, dev2: Devices)
    requires parse(l).Ok? && "text" in parse(l).value
    requires OptString(parse(l).value, "cmd", "") in {"text", "set_clipboard"}
    ensures HandleCommand(Some(l), parse, parseDouble, dev1) == HandleCommand(Some(l), parse, parseDouble, dev2)
    ensures HandleCommand(Some(l), parse, parseDouble, dev1).response
         == if OptString(parse(l).value, "cmd", "") == "text" then TEXT_REPLY else SET_CLIPBOARD_REPLY
  {
  }

  /** Absent optional members take their defaults: metaState 0, paste false, copy false,
      swipe 300 ms, long press 500 ms, altitude, bearing and speed 0. */
  lemma Defaults(l: string, parse: string -> Result<JObject>, parseDouble: DoubleParser, dev: Devices)
    requires parse(l).Ok?
    ensures var o := parse(l).value;
      var h := HandleCommand(Some(l), parse, parseDouble, dev);
      var cmd := OptString(o, "cmd", "");
      (cmd == "keycode" && "metaState" !in o && h.calls != [] ==> h.calls[0].InjectKey? && h.calls[0].metaState == 0) &&
      (cmd == "set_clipboard" && "paste" !in o && h.calls != [] ==> h.calls[0] == SetTextAndPaste(ValueText(o["text"]), false)) &&
      (cmd == "get_clipboard" && "copy" !in o ==> h == Handled(ClipboardReply(dev.clipboard.GetOr("")), [GetText])) &&
      (cmd == "swipe" && "duration" !in o && h.calls != [] ==> h.calls[0].Swipe? && h.calls[0].duration == 300) &&
      (cmd == "long_press" && "duration" !in o && h.calls != [] ==> h.calls[0].LongPress? && h.calls[0].duration == 500) &&
      (cmd == "set_location" && "alt" !in o && "bearing" !in o && "speed" !in o && h.calls != [] ==>
        h.calls[0].UpdateLocation? && h.calls[0].alt == 0.0 && h.calls[0].bearing == 0.0 && h.calls[0].speed == 0.0)
  {
  }

  /** The clipboard reply carries the escaped text, with no raw line feed in it, and an
      empty clipboard reads as "". */
  lemma ClipboardEscaped(l: string, parse: string -> Result<JObject>, parseDouble: DoubleParser, dev: Devices)
    requires parse(l).Ok? && OptString(parse(l).value, "cmd", "") == "get_clipboard"
    ensures var copy := OptBoolean(parse(l).value, "copy", false);
      var text := if copy then dev.copied.GetOr("") else dev.clipboard.GetOr("");
      HandleCommand(Some(l), parse, parseDouble, dev).response == GET_CLIPBOARD_PREFIX + EscapeEach(text) + "\"}" &&
      '\n' !in EscapeJson(text)
  {
    var copy := OptBoolean(parse(l).value, "copy", false);
    EscapeIsEach(if copy then dev.copied.GetOr("") else dev.clipboard.GetOr(""));
  }

  /** An exception thrown by swipe's or long press's sleep becomes the error reply. */
  lemma SleepFailureReported(l: string, parse: string -> Result<JObject>, parseDouble: DoubleParser, dev: Devices)
    requires parse(l).Ok? && OptString(parse(l).value, "cmd", "") == "swipe"
    requires dev.swiped.Err?
    requires HandleCommand(Some(l), parse, parseDouble, dev).calls != []
    ensures HandleCommand(Some(l), parse, parseDouble, dev).response == ErrorReply(dev.swiped.msg)
  {
  }
}
