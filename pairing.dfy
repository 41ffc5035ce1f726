/** The launcher's pairing server: a small HTTP listener a phone opens from a QR code.
    `/status` reports whether a phone has connected, `/pair` starts `adb connect` to
    the phone (by its peer address or an explicit `?ip=`), and the favicon request is
    ignored. */
module Pairing {
  import opened Base
  import opened Text

  const PAIRING_PORT: nat := 27015
  const STATUS_HEADER: string := "HTTP/1.1 200 OK\r\nContent-Type: application/json\r\nAccess-Control-Allow-Origin: *\r\n\r\n"
  const CONNECTED_JSON: string := "{\"status\":\"connected\"}"
  const PENDING_JSON: string := "{\"status\":\"pending\"}"
  const IP_MARKER: string := "?ip="

  /** The reply to `GET /status`. */
  function StatusResponse(connected: bool): string
  {
    STATUS_HEADER + (if connected then CONNECTED_JSON else PENDING_JSON)
  }

  /** A poll tells the phone apart: the two replies differ. */
  lemma StatusDistinguishes()
    ensures StatusResponse(true) != StatusResponse(false)
  {
    assert StatusResponse(true)[|STATUS_HEADER| + 11] == 'c';
    assert StatusResponse(false)[|STATUS_HEADER| + 11] == 'p';
  }

  /** The text between the first `?ip=` and the next space, when there is such a
      space and the text is not empty. */
  function IpOverride(request: string): (r: Option<string>)
    ensures r.Some? ==> r.value != [] && ' ' !in r.value
  {
    match Find(request, IP_MARKER)
    case None => None
    case Some(start) =>
      match Find(request[start..], " ")
      case None => None
      case Some(end) =>
        MarkerBeforeSpace(request, start, end);
        ParamAt(request, start, end)
  }

  /** The field between the marker at `start` and the space `end` places after it. */
  function ParamAt(request: string, start: nat, end: nat): Option<string>
    requires 4 <= end && start + end <= |request|
  {
    var param := request[start + 4..start + end];
    if param != [] then Some(param) else None
  }

  /** The first space after the marker comes after the whole marker, and none comes
      between. */
  lemma MarkerBeforeSpace(request: string, start: nat, end: nat)
    requires OccursAt(request, IP_MARKER, start) && Find(request[start..], " ") == Some(end)
    ensures start + 4 <= start + end <= |request|
    ensures ' ' !in request[start + 4..start + end]
  {
    var tail := request[start..];
    assert tail[..4] == IP_MARKER;
    assert forall k :: 0 <= k < 4 ==> tail[k] != ' ' by {
      forall k | 0 <= k < 4 ensures tail[k] != ' ' {
        assert tail[k] == IP_MARKER[k];
      }
    }
    assert tail[end..end + 1] == " ";
    assert tail[end] == ' ';
    forall k | 4 <= k < end ensures tail[k] != ' ' {
      assert !OccursAt(tail, " ", k);
      assert tail[k..k + 1] == [tail[k]];
    }
    assert request[start + 4..start + end] == tail[4..end];
  }

  /** Where `/pair` sends `adb connect`: the override if any, else the peer's address
      (empty when it cannot be read). */
  function PairTarget(request: string, peer: Option<string>): string
  {
    match IpOverride(request)
    case Some(ip) => ip
    case None => peer.GetOr("")
  }

  /** The port `adb connect` is pointed at on the target. */
  const ADB_PORT: string := ":5555"

  /** The argument list the `adb` sidecar is started with for a target. */
  function ConnectArgs(target: string): seq<string>
  {
    ["connect", target + ADB_PORT]
  }

  /** The argument list names its target: the target is the address argument with the
      port suffix taken off, so two pairings run the same command only for one target. */
  lemma ConnectArgsNameTarget(t1: string, t2: string)
    ensures |ConnectArgs(t1)| == 2 && ConnectArgs(t1)[0] == "connect"
    ensures ConnectArgs(t1)[1][..|t1|] == t1 && ConnectArgs(t1)[1][|t1|..] == ":5555"
    ensures ConnectArgs(t1) == ConnectArgs(t2) <==> t1 == t2
  {
    if ConnectArgs(t1) == ConnectArgs(t2) {
      var a := ConnectArgs(t1)[1];
      assert |t1| == |t2| by { assert |a| == |t1| + 5 == |t2| + 5; }
      assert t1 == a[..|t1|] == t2;
    }
  }

  /** An `?ip=` field written out before any other `?` is the target. */
  lemma OverrideExtracted(before: string, ip: string, rest: string, peer: Option<string>)
    requires '?' !in before && ' ' !in ip && ip != []
    ensures PairTarget(before + IP_MARKER + ip + " " + rest, peer) == ip
  {
    var request := before + IP_MARKER + ip + " " + rest;
    FieldFound(before, ip, rest);
    MarkerBeforeSpace(request, |before|, 4 + |ip|);
    IpOverrideOf(request, |before|, 4 + |ip|);
    FieldSlice(before, ip, rest);
  }

  /** Both searches of `IpOverride` on a request with the field written out. */
  lemma FieldFound(before: string, ip: string, rest: string)
    requires '?' !in before && ' ' !in ip
    ensures var request := before + IP_MARKER + ip + " " + rest;
      Find(request, IP_MARKER) == Some(|before|) && |before| <= |request| &&
      Find(request[|before|..], " ") == Some(4 + |ip|)
  {
    var request := before + IP_MARKER + ip + " " + rest;
    assert request == before + IP_MARKER + (ip + " " + rest);
    FirstMarker(before, ip + " " + rest);
    assert request[|before|..] == IP_MARKER + ip + " " + rest;
    FirstSpace(IP_MARKER + ip, rest);
  }

  lemma FieldSlice(before: string, ip: string, rest: string)
    ensures var request := before + IP_MARKER + ip + " " + rest;
      request[|before| + 4..|before| + 4 + |ip|] == ip
  {
    var request := before + IP_MARKER + ip + " " + rest;
    assert request == (before + IP_MARKER) + ip + (" " + rest);
  }

  /** Without an `?ip=` field, or with an empty one, the peer's address is the target. */
  lemma PeerByDefault(request: string, before: string, rest: string, peer: Option<string>)
    requires !Contains(request, IP_MARKER) || ('?' !in before && request == before + IP_MARKER + " " + rest)
    ensures PairTarget(request, peer) == peer.GetOr("")
  {
    if Contains(request, IP_MARKER) {
      var tail := IP_MARKER + " " + rest;
      assert request == before + IP_MARKER + (" " + rest);
      FirstMarker(before, " " + rest);
      assert request[|before|..] == tail;
      FirstSpace(IP_MARKER, rest);
      MarkerBeforeSpace(request, |before|, 4);
      IpOverrideOf(request, |before|, 4);
    }
  }

  /** `IpOverride` once both searches are known. */
  lemma IpOverrideOf(request: string, start: nat, end: nat)
    requires Find(request, IP_MARKER) == Some(start) && Find(request[start..], " ") == Some(end)
    requires 4 <= end && start + end <= |request|
    ensures IpOverride(request) == ParamAt(request, start, end)
  {
  }

  /** The marker is found where it is written when no `?` comes before it. */
  lemma FirstMarker(before: string, after: string)
    requires '?' !in before
    ensures Find(before + IP_MARKER + after, IP_MARKER) == Some(|before|)
  {
    var s := before + IP_MARKER + after;
    assert OccursAt(s, IP_MARKER, |before|) by {
      assert s[|before|..|before| + 4] == IP_MARKER;
    }
    var r := Find(s, IP_MARKER);
    assert s[r.value] == '?' by {
      assert s[r.value..r.value + 4][0] == s[r.value];
    }
    assert r.value >= |before| by {
      assert forall k :: 0 <= k < |before| ==> s[k] == before[k];
    }
  }

  /** The first space after a space-free prefix is the one that ends it. */
  lemma FirstSpace(prefix: string, rest: string)
    requires ' ' !in prefix
    ensures Find(prefix + " " + rest, " ") == Some(|prefix|)
  {
    var s := prefix + " " + rest;
    assert OccursAt(s, " ", |prefix|) by {
      assert s[|prefix|..|prefix| + 1] == " ";
    }
    var r := Find(s, " ");
    assert s[r.value] == ' ' by {
      assert s[r.value..r.value + 1][0] == s[r.value];
    }
    assert r.value >= |prefix| by {
      assert forall k :: 0 <= k < |prefix| ==> s[k] == prefix[k];
    }
  }

  /** What the accept loop does with one request. */
  datatype Routed =
    | Favicon
    | Status(response: string)
    | Pair(target: string)
    | Unmatched

  /** The favicon first, then `/status`, then `/pair`; anything else gets no reply. */
  function Route(request: string, connected: bool, peer: Option<string>): Routed
  {
    if Contains(request, "GET /favicon.ico") then Favicon
    else if Contains(request, "GET /status") then Status(StatusResponse(connected))
    else if Contains(request, "GET /pair") then Pair(PairTarget(request, peer))
    else Unmatched
  }

  /** The routing precedence: a favicon request is never answered and never pairs, a
      status poll is never taken for a pairing, and pairing happens exactly for the
      remaining `/pair` requests. */
  lemma RoutePrecedence(request: string, connected: bool, peer: Option<string>)
    ensures Route(request, connected, peer) == Favicon <==> Contains(request, "GET /favicon.ico")
    ensures Route(request, connected, peer).Status? <==>
      !Contains(request, "GET /favicon.ico") && Contains(request, "GET /status")
    ensures Route(request, connected, peer).Pair? <==>
      !Contains(request, "GET /favicon.ico") && !Contains(request, "GET /status") && Contains(request, "GET /pair")
    ensures Route(request, connected, peer).Status? ==>
      Route(request, connected, peer).response == StatusResponse(connected)
  {
  }

  /** The events the `adb connect` task emits. */
  datatype PairEvent = PairSuccess(ip: string) | PairError(msg: string)

  /** The output of `adb connect`: `None` when it could not be run. */
  datatype ConnectOutput = ConnectOutput(stdout: string, stderr: string)

  /** What the background `adb connect` job reports: success exactly when standard output says `connected`. */
  function ConnectEvent(target: string, out: Option<ConnectOutput>, runError: string): (e: PairEvent)
    ensures e.PairSuccess? <==> out.Some? && Contains(out.value.stdout, "connected")
    ensures e.PairSuccess? ==> e.ip == target
  {
    match out
    case None => PairError("Execution error: " + runError)
    case Some(o) =>
      if Contains(o.stdout, "connected") then PairSuccess(target)
      else PairError("Failed: " + Trim(if o.stderr == [] then o.stdout else o.stderr))
  }

  class PairingServer {
    var running: bool
    var stopped: bool
    var lastConnectedIp: Option<string>
    /** The targets `adb connect` was started for, in order. */
    var attempts: seq<string>
    /** The argument lists the `adb` sidecar was started with, in order. */
    var commands: seq<seq<string>>
    /** What each handled request was routed to, in order. */
    var handled: seq<Routed>
    var events: seq<PairEvent>

    /** A recorded address is always one a pairing was attempted for. */
    predicate Valid()
      reads this
    {
      lastConnectedIp.Some? ==> lastConnectedIp.value in attempts
    }

    constructor ()
      ensures Valid() && !running && stopped && lastConnectedIp == None
      ensures attempts == [] && commands == [] && handled == [] && events == []
    {
      running := false;
      stopped := true;
      lastConnectedIp := None;
      attempts := [];
      commands := [];
      handled := [];
      events := [];
    }

    /** `start_pairing_server`: nothing while running; otherwise the flags are set and
        the listener thread started (the wait for a previous one is not modelled). */
    method Start() returns (spawned: bool)
      modifies this`running, this`stopped
      ensures spawned == !old(running) && running
      ensures stopped == (old(stopped) && old(running))
    {
      if running {
        return false;
      }
      running := true;
      stopped := false;
      spawned := true;
    }

    /** The listener thread could not create, bind or listen on its socket. */
    method ListenFailed()
      modifies this`running
      ensures !running
    {
      running := false;
    }

    /** `stop_pairing_server` only clears the flag; the thread notices it later. */
    method Stop()
      modifies this`running
      ensures !running
    {
      running := false;
    }

    /** The accept loop sees the cleared flag and ends. */
    method LoopEnded()
      requires !running
      modifies this`stopped
      ensures stopped
    {
      stopped := true;
    }

    /** One request read by the accept loop; `peer` is the peer's address when it can
        be read. A pairing starts an `adb connect` to the target. */
    method HandleRequest(request: string, peer: Option<string>) returns (r: Routed)
      requires Valid()
      modifies this`handled, this`attempts, this`commands
      ensures Valid()
      ensures r == Route(request, old(lastConnectedIp).Some?, peer)
      ensures handled == old(handled) + [r]
      ensures attempts == old(attempts) + if r.Pair? then [r.target] else []
      ensures commands == old(commands) + if r.Pair? then [ConnectArgs(r.target)] else []
    {
      if Contains(request, "GET /favicon.ico") {
        r := Favicon;
      } else if Contains(request, "GET /status") {
        var isConnected := lastConnectedIp.Some?;
        r := Status(StatusResponse(isConnected));
      } else if Contains(request, "GET /pair") {
        var target := PairTarget(request, peer);
        r := Pair(target);
        attempts := attempts + [target];
        commands := commands + [ConnectArgs(target)];
      } else {
        r := Unmatched;
      }
      handled := handled + [r];
    }

    /** The `adb connect` task for an attempted target finishes. */
    method ConnectFinished(target: string, out: Option<ConnectOutput>, runError: string)
      requires Valid() && target in attempts
      modifies this`lastConnectedIp, this`events
      ensures Valid()
      ensures events == old(events) + [ConnectEvent(target, out, runError)]
      ensures lastConnectedIp == if ConnectEvent(target, out, runError).PairSuccess? then Some(target) else old(lastConnectedIp)
    {
      var e := ConnectEvent(target, out, runError);
      if e.PairSuccess? {
        lastConnectedIp := Some(target);
      }
      events := events + [e];
    }
  }
}
