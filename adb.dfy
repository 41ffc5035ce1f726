/** The launcher's readings of adb output: the device list of `adb devices -l`, the
    Wi-Fi address found by three successive strategies, and whether the bundled APK has
    to be pushed again. The adb commands themselves are outside the model: their
    output is given as text. */
module Adb {
  import opened Base
  import opened Text
  import opened Numbers

  datatype Device = Device(serial: string, state: string, model: string)

  const MODEL_PREFIX: string := "model:"
  const UNKNOWN_MODEL: string := "Unknown"
  const DEVICES_FAILED: string := "Failed to execute adb devices"

  /** `model:Pixel_6` read as `Pixel 6`: every `model:` removed, every `_` a space. */
  function CleanModel(token: string): string
  {
    Replace(Replace(token, MODEL_PREFIX, ""), "_", " ")
  }

  /** Replacing a character by text without it leaves none of it. */
  lemma {:induction false} ReplaceRemovesChar(s: string, c: char, rep: string)
    requires c !in rep
    ensures c !in Replace(s, [c], rep)
  {
    if |s| >= 1 {
      ReplaceRemovesChar(s[1..], c, rep);
      if s[..1] == [c] {
        assert Replace(s, [c], rep) == rep + Replace(s[1..], [c], rep);
      } else {
        assert s[0] != c;
        assert Replace(s, [c], rep) == [s[0]] + Replace(s[1..], [c], rep);
      }
    }
  }

  /** A model name never keeps an underscore. */
  lemma CleanModelHasNoUnderscore(token: string)
    ensures '_' !in CleanModel(token)
  {
    ReplaceRemovesChar(Replace(token, MODEL_PREFIX, ""), '_', " ");
  }

  /** The model the tokens of a line name: the last `model:` token wins. */
  function ModelOf(parts: seq<string>): string
  {
    if parts == [] then UNKNOWN_MODEL
    else if StartsWith(parts[|parts| - 1], MODEL_PREFIX) then CleanModel(parts[|parts| - 1])
    else ModelOf(parts[..|parts| - 1])
  }

  /** The last token that starts with `model:` gives the model. */
  lemma {:induction false} ModelOfLast(parts: seq<string>, j: nat)
    requires j < |parts| && StartsWith(parts[j], MODEL_PREFIX)
    requires forall k :: j < k < |parts| ==> !StartsWith(parts[k], MODEL_PREFIX)
    ensures ModelOf(parts) == CleanModel(parts[j])
    decreases |parts|
  {
    if j < |parts| - 1 {
      var init := parts[..|parts| - 1];
      assert init[j] == parts[j];
      ModelOfLast(init, j);
    }
  }

  /** Without such a token the model is `Unknown`. */
  lemma {:induction false} ModelOfNone(parts: seq<string>)
    requires forall k :: 0 <= k < |parts| ==> !StartsWith(parts[k], MODEL_PREFIX)
    ensures ModelOf(parts) == UNKNOWN_MODEL
    decreases |parts|
  {
    if parts != [] {
      var init := parts[..|parts| - 1];
      assert forall k :: 0 <= k < |init| ==> init[k] == parts[k];
      ModelOfNone(init);
    }
  }

  /** The inner loop of `get_devices`: every `model:` token overwrites the model. */
  method ModelFromParts(parts: seq<string>) returns (model: string)
    ensures model == ModelOf(parts)
  {
    model := UNKNOWN_MODEL;
    for i := 0 to |parts|
      invariant model == ModelOf(parts[..i])
    {
      assert parts[..i + 1][..i] == parts[..i];
      if StartsWith(parts[i], MODEL_PREFIX) {
        model := CleanModel(parts[i]);
      }
    }
    assert parts[..|parts|] == parts;
  }

  /** All-whitespace text has no tokens. */
  lemma {:induction false} SplitRunsOfSpaces(s: string)
    requires forall i :: 0 <= i < |s| ==> IsSpace(s[i])
    ensures forall i :: 0 <= i < |SplitRuns(s)| ==> SplitRuns(s)[i] == ""
  {
    if |s| > 0 {
      SplitRunsOfSpaces(s[1..]);
    }
  }

  lemma BlankHasNoWords(line: string)
    requires Trim(line) == []
    ensures Words(line) == []
  {
    var t := TrimStart(line);
    assert TrimEnd(t) == [];
    assert t == [];
    SplitRunsOfSpaces(line);
    NonEmptyOfBlanks(SplitRuns(line));
  }

  lemma {:induction false} NonEmptyOfBlanks(parts: seq<string>)
    requires forall i :: 0 <= i < |parts| ==> parts[i] == ""
    ensures NonEmpty(parts) == []
  {
    if parts != [] {
      NonEmptyOfBlanks(parts[1..]);
    }
  }

  /** What one line of the listing gives: a device exactly when it has two tokens or
      more, named by the first two, with the model its tokens name. */
  function DeviceOf(line: string): (d: Option<Device>)
    ensures d.Some? <==> |Words(line)| >= 2
    ensures d.Some? ==> d.value == Device(Words(line)[0], Words(line)[1], ModelOf(Words(line)))
  {
    if Trim(line) == [] then
      BlankHasNoWords(line);
      None
    else
      var parts := Words(line);
      if |parts| >= 2 then Some(Device(parts[0], parts[1], ModelOf(parts))) else None
  }

  /** The devices of a sequence of lines, in line order. */
  function DevicesOf(lines: seq<string>): seq<Device>
  {
    if lines == [] then []
    else
      var last := lines[|lines| - 1];
      DevicesOf(lines[..|lines| - 1]) + (if DeviceOf(last).Some? then [DeviceOf(last).value] else [])
  }

  /** The listing is read line by line and in order: the devices of two blocks of lines
      are those of the first followed by those of the second. */
  lemma {:induction false} DevicesOfAppend(a: seq<string>, b: seq<string>)
    ensures DevicesOf(a + b) == DevicesOf(a) + DevicesOf(b)
    decreases |b|
  {
    if b == [] {
      assert a + b == a;
    } else {
      var init := b[..|b| - 1];
      assert (a + b)[..|a + b| - 1] == a + init;
      DevicesOfAppend(a, init);
    }
  }

  /** Every device comes from a line of the listing. */
  lemma {:induction false} DevicesFromLines(lines: seq<string>)
    ensures forall d :: d in DevicesOf(lines) ==> exists j :: 0 <= j < |lines| && DeviceOf(lines[j]) == Some(d)
    decreases |lines|
  {
    if lines != [] {
      var init := lines[..|lines| - 1];
      DevicesFromLines(init);
      forall d | d in DevicesOf(lines) ensures exists j :: 0 <= j < |lines| && DeviceOf(lines[j]) == Some(d) {
        if d in DevicesOf(init) {
          var j :| 0 <= j < |init| && DeviceOf(init[j]) == Some(d);
          assert lines[j] == init[j];
        } else {
          assert DeviceOf(lines[|lines| - 1]) == Some(d);
        }
      }
    }
  }

  /** Every line with two tokens or more gives a device (`DeviceOf` is defined exactly
      on those lines). */
  lemma {:induction false} LinesGiveDevices(lines: seq<string>)
    ensures forall j :: 0 <= j < |lines| && DeviceOf(lines[j]).Some? ==> DeviceOf(lines[j]).value in DevicesOf(lines)
    decreases |lines|
  {
    if lines != [] {
      var init := lines[..|lines| - 1];
      LinesGiveDevices(init);
      var last := lines[|lines| - 1];
      var found := if DeviceOf(last).Some? then [DeviceOf(last).value] else [];
      assert DevicesOf(lines) == DevicesOf(init) + found;
      forall j | 0 <= j < |lines| && DeviceOf(lines[j]).Some? ensures DeviceOf(lines[j]).value in DevicesOf(lines) {
        if j < |init| {
          assert lines[j] == init[j];
          assert DeviceOf(init[j]).value in DevicesOf(init);
        } else {
          assert lines[j] == last;
          assert found == [DeviceOf(lines[j]).value];
        }
      }
    }
  }

  /** `stdout.lines().skip(1)`: the header line dropped. */
  function AfterHeader(lines: seq<string>): seq<string>
  {
    if lines == [] then [] else lines[1..]
  }

  /** The device list `get_devices` reads from the listing. */
  function ListedDevices(stdout: string): seq<Device>
  {
    DevicesOf(AfterHeader(Lines(stdout)))
  }

  /** Whatever the header line says, it never becomes a device: the list is that of
      the lines after it. */
  lemma HeaderIgnored(header: string, body: string)
    requires '\n' !in header
    ensures ListedDevices(header + "\n" + body) == DevicesOf(Lines(body))
  {
    var s := header + "\n" + body;
    assert s == header + ['\n'] + body;
    SplitAt(header, '\n', body);
    var parts := Split(s, '\n');
    var bp := Split(body, '\n');
    assert parts == [header] + bp;
    assert parts[|parts| - 1] == bp[|bp| - 1];
    var init := bp[..|bp| - 1];
    assert parts[..|parts| - 1] == [header] + init;
    assert ([header] + init)[1..] == init;
    assert MapStripCR([header] + init) == [StripCR(header)] + MapStripCR(init);
    assert Lines(s) == [StripCR(header)] + Lines(body);
  }

  /** `get_devices` on the listing, once adb has run: `success` is its exit status. */
  method GetDevices(success: bool, stdout: string) returns (r: Result<seq<Device>>)
    ensures r == if success then Ok(ListedDevices(stdout)) else Err(DEVICES_FAILED)
  {
    if !success {
      return Err(DEVICES_FAILED);
    }
    var lines := AfterHeader(Lines(stdout));
    var devices: seq<Device> := [];
    for i := 0 to |lines|
      invariant devices == DevicesOf(lines[..i])
    {
      assert lines[..i + 1][..i] == lines[..i];
      var line := lines[i];
      if Trim(line) == [] {
        BlankHasNoWords(line);
        continue;
      }
      var parts := Words(line);
      if |parts| >= 2 {
        var model := ModelFromParts(parts);
        devices := devices + [Device(parts[0], parts[1], model)];
      }
    }
    assert lines[..|lines|] == lines;
    return Ok(devices);
  }

  /** Strategy A over `ip route get 1`: the token after the first `src` that has one
      after it; empty when there is none. */
  function AfterSrc(parts: seq<string>): string
  {
    if |parts| < 2 then ""
    else if parts[0] == "src" then parts[1]
    else AfterSrc(parts[1..])
  }

  /** The first `src` with a follower decides; none decides nothing. */
  lemma {:induction false} AfterSrcFirst(parts: seq<string>, i: nat)
    requires i + 1 < |parts| && parts[i] == "src"
    requires forall k :: 0 <= k < i ==> parts[k] != "src"
    ensures AfterSrc(parts) == parts[i + 1]
  {
    if i > 0 {
      AfterSrcFirst(parts[1..], i - 1);
    }
  }

  lemma {:induction false} AfterSrcNone(parts: seq<string>)
    requires forall k :: 0 <= k < |parts| - 1 ==> parts[k] != "src"
    ensures AfterSrc(parts) == ""
  {
    if |parts| >= 2 {
      AfterSrcNone(parts[1..]);
    }
  }

  /** The loop of strategy A, which stops at the first `src` with a follower. */
  method StrategyA(stdout: string) returns (ip: string)
    ensures ip == AfterSrc(Words(stdout))
  {
    var parts := Words(stdout);
    ip := "";
    var i := 0;
    var going := true;
    while going && i < |parts|
      invariant i <= |parts|
      invariant going ==> ip == "" && AfterSrc(parts[i..]) == AfterSrc(parts)
      invariant !going ==> ip == AfterSrc(parts)
      decreases |parts| - i, going
    {
      var rest := parts[i..];
      if parts[i] == "src" && i + 1 < |parts| {
        ip := parts[i + 1];
        assert rest[0] == "src" && rest[1] == parts[i + 1];
        going := false;
      } else {
        assert i + 1 < |parts| ==> rest[1..] == parts[i + 1..];
        i := i + 1;
      }
    }
    if going {
      assert |parts[i..]| == 0;
    }
  }

  /** Strategy B on one line of `ip -f inet addr show wlan0`: the address before the
      `/` of the second token of an `inet ` line. */
  function InetCandidate(line: string): string
  {
    var t := Trim(line);
    if StartsWith(t, "inet ") then
      var parts := Words(t);
      if |parts| >= 2 then Split(parts[1], '/')[0] else ""
    else ""
  }

  /** Strategy C on one line of `ifconfig wlan0`: the first token after `inet addr:`. */
  function InetAddrCandidate(line: string): string
  {
    var t := Trim(line);
    if Contains(t, "inet addr:") then
      var parts := SplitStr(t, "inet addr:");
      if |parts| > 1 then
        var w := Words(parts[1]);
        if w != [] then w[0] else ""
      else ""
    else ""
  }

  /** The first line whose candidate is non-empty decides; otherwise nothing is found. */
  function FirstFound(lines: seq<string>, candidate: string -> string): string
  {
    if lines == [] then ""
    else if candidate(lines[0]) != "" then candidate(lines[0])
    else FirstFound(lines[1..], candidate)
  }

  lemma {:induction false} FirstFoundIs(lines: seq<string>, candidate: string -> string, j: nat)
    requires j < |lines| && candidate(lines[j]) != ""
    requires forall k :: 0 <= k < j ==> candidate(lines[k]) == ""
    ensures FirstFound(lines, candidate) == candidate(lines[j])
  {
    if j > 0 {
      FirstFoundIs(lines[1..], candidate, j - 1);
    }
  }

  lemma {:induction false} FirstFoundNone(lines: seq<string>, candidate: string -> string)
    requires forall k :: 0 <= k < |lines| ==> candidate(lines[k]) == ""
    ensures FirstFound(lines, candidate) == ""
  {
    if lines != [] {
      FirstFoundNone(lines[1..], candidate);
    }
  }

  /** The line loop of strategies B and C, which stops at the first line that yields a
      non-empty address. */
  method ScanLines(stdout: string, candidate: string -> string) returns (ip: string)
    ensures ip == FirstFound(Lines(stdout), candidate)
  {
    var lines := Lines(stdout);
    ip := "";
    var i := 0;
    while i < |lines| && ip == ""
      invariant i <= |lines|
      invariant ip == "" ==> FirstFound(lines[i..], candidate) == FirstFound(lines, candidate)
      invariant ip != "" ==> ip == FirstFound(lines, candidate)
      decreases |lines| - i
    {
      var rest := lines[i..];
      assert rest[0] == lines[i] && rest[1..] == lines[i + 1..];
      ip := candidate(lines[i]);
      i := i + 1;
    }
    if ip == "" {
      assert lines[i..] == [];
    }
  }

  /** The adb commands `enable_wifi` runs, in order. */
  datatype WifiCommand = RouteGet | AddrShow | Ifconfig | Tcpip

  /** The address found, or the report that detection failed (whose debug log is not
      modelled). */
  datatype Enabled = Address(ip: string) | DetectionFailed

  /** The address the three strategies find; each output is `None` when its command
      could not be run. */
  function DetectedIp(outA: Option<string>, outB: Option<string>, outC: Option<string>): string
  {
    var a := if outA.Some? then AfterSrc(Words(outA.value)) else "";
    if a != "" then a
    else
      var b := if outB.Some? then FirstFound(Lines(outB.value), InetCandidate) else "";
      if b != "" then b
      else if outC.Some? then FirstFound(Lines(outC.value), InetAddrCandidate) else ""
  }

  /** The result of `enable_wifi`: `tcpip` is `None` when `adb tcpip 5555` could not be
      run, else its exit status and standard error. */
  function WifiResult(ip: string, tcpip: Option<(bool, string)>, runError: string): Result<Enabled>
  {
    if tcpip.None? then Err(runError)
    else if !tcpip.value.0 then Err(tcpip.value.1)
    else if ip != "" then Ok(Address(ip))
    else Ok(DetectionFailed)
  }

  /** Each strategy runs only when the earlier ones found nothing, the switch to TCP/IP
      comes last whatever was found, and a failed switch is an error even when an
      address was found. */
  method EnableWifi(outA: Option<string>, outB: Option<string>, outC: Option<string>,
                    tcpip: Option<(bool, string)>, runError: string)
    returns (r: Result<Enabled>, ran: seq<WifiCommand>)
    ensures r == WifiResult(DetectedIp(outA, outB, outC), tcpip, runError)
    ensures ran == [RouteGet] +
      (if outA.Some? && AfterSrc(Words(outA.value)) != "" then [] else [AddrShow]) +
      (if DetectedIp(outA, outB, None) != "" then [] else [Ifconfig]) + [Tcpip]
  {
    var ip := "";
    ran := [RouteGet];
    if outA.Some? {
      ip := StrategyA(outA.value);
    }
    if ip == "" {
      ran := ran + [AddrShow];
      if outB.Some? {
        ip := ScanLines(outB.value, InetCandidate);
      }
    }
    if ip == "" {
      ran := ran + [Ifconfig];
      if outC.Some? {
        ip := ScanLines(outC.value, InetAddrCandidate);
      }
    }
    ran := ran + [Tcpip];
    if tcpip.None? {
      return Err(runError), ran;
    }
    if !tcpip.value.0 {
      return Err(tcpip.value.1), ran;
    }
    if ip != "" {
      r := Ok(Address(ip));
    } else {
      r := Ok(DetectionFailed);
    }
  }

  /** `ip route get 1` naming a source address is enough: the later strategies are not
      consulted. */
  lemma RouteDecides(outA: string, outB: Option<string>, outC: Option<string>)
    requires AfterSrc(Words(outA)) != ""
    ensures DetectedIp(Some(outA), outB, outC) == AfterSrc(Words(outA))
    ensures forall b, c :: DetectedIp(Some(outA), b, c) == DetectedIp(Some(outA), outB, outC)
  {
  }

  /** The size adb reports for the APK on the device: its trimmed output read as an
      unsigned 64-bit number, 0 when that fails. */
  function DeviceSize(statOut: string): (n: nat)
    ensures ParseUnsigned(Trim(statOut), U64_MAX).None? ==> n == 0
    ensures ParseUnsigned(Trim(statOut), U64_MAX).Some? ==> n == ParseUnsigned(Trim(statOut), U64_MAX).value
  {
    ParseUnsigned(Trim(statOut), U64_MAX).GetOr(0)
  }

  /** `init_session` pushes the bundled APK exactly when the sizes differ. */
  predicate NeedsPush(localSize: nat, statOut: string)
  {
    localSize != DeviceSize(statOut)
  }

  /** A device copy of the same size, as `stat` prints it, is not pushed again; one of
      any other size is. */
  lemma SameSizeNotPushed(localSize: nat, deviceSize: nat)
    requires localSize <= U64_MAX && deviceSize <= U64_MAX
    ensures NeedsPush(localSize, NatToString(deviceSize) + "\n") <==> localSize != deviceSize
  {
    var s := NatToString(deviceSize);
    DigitsOfNatToString(deviceSize);
    TrimDigits(s);
    ParseUnsignedOfNatToString(deviceSize, U64_MAX);
  }

  /** Decimal digits followed by a line feed trim to the digits. */
  lemma TrimDigits(s: string)
    requires |s| >= 1 && AllDigits(s)
    ensures Trim(s + "\n") == s
  {
    var t := s + "\n";
    assert !IsSpace(t[0]) by {
      assert t[0] == s[0];
      assert IsDigit(s[0]);
    }
    assert TrimStart(t) == t;
    assert t[..|t| - 1] == s;
    assert !IsSpace(s[|s| - 1]) by {
      assert IsDigit(s[|s| - 1]);
    }
    assert TrimEnd(s) == s;
  }

  /** When the size cannot be read (no file, an error message), the APK is pushed
      unless the bundled one is empty. */
  lemma UnreadableSizePushed(localSize: nat, statOut: string)
    requires ParseUnsigned(Trim(statOut), U64_MAX).None?
    ensures NeedsPush(localSize, statOut) <==> localSize != 0
  {
  }
}
