/** The host's video connection: the configuration line it sends, the reconnect delays
    between attempts, and the loop that reads framed packets and forwards each payload
    to the decoder channel. */
module VideoReceiver {
  import opened Base
  import opened Bytes
  import opened Numbers
  import Framing

  /** Largest payload accepted; a larger declared size ends the connection. */
  const MAX_BODY: nat := 10 * 1024 * 1024
  /** Consecutive header-read timeouts tolerated; the next one ends the connection. */
  const MAX_TIMEOUTS: nat := 10
  /** Ceiling of the reconnect delay, in seconds. */
  const MAX_DELAY: nat := 10

  /** The configuration line sent right after connecting. */
  function Handshake(bitrate: nat, maxSize: nat): (line: string)
    requires bitrate <= U32_MAX && maxSize <= U32_MAX
    ensures |line| >= 1 && line[|line| - 1] == '\n' && '\n' !in line[..|line| - 1]
  {
    "bitrate=" + NatToString(bitrate) + "&max_size=" + NatToString(maxSize) + "\n"
  }

  /** Attempts since the last successful connection: 0 at a success. */
  function Streak(attempts: seq<bool>, i: nat): nat
    requires i < |attempts|
  {
    if attempts[i] || i == 0 then 0 else Streak(attempts, i - 1) + 1
  }

  /** The reconnect loop: after every connection attempt, successful or not, it sleeps;
      the delay restarts at 1 s on a successful connection and doubles after each
      attempt up to 10 s. Returns the sleep, in seconds, after each attempt. */
  method ReconnectSleeps(attempts: seq<bool>) returns (sleeps: seq<nat>)
    ensures |sleeps| == |attempts|
    ensures forall i :: 0 <= i < |attempts| ==> sleeps[i] == Min(Pow2(Streak(attempts, i)), MAX_DELAY)
  {
    var delay := 1;
    sleeps := [];
    var i := 0;
    while i < |attempts|
      invariant 0 <= i <= |attempts| && |sleeps| == i
      invariant forall j :: 0 <= j < i ==> sleeps[j] == Min(Pow2(Streak(attempts, j)), MAX_DELAY)
      invariant i == 0 ==> delay == 1
      invariant i > 0 ==> delay == Min(2 * Pow2(Streak(attempts, i - 1)), MAX_DELAY)
    {
      if attempts[i] {
        delay := 1;
      }
      SleepAt(attempts, i, delay);
      sleeps := sleeps + [delay];
      DoubleSaturated(Pow2(Streak(attempts, i)));
      delay := Min(delay * 2, MAX_DELAY);
      i := i + 1;
    }
  }

  /** The delay slept after attempt i, once a success has reset it. */
  lemma SleepAt(attempts: seq<bool>, i: nat, delay: nat)
    requires i < |attempts|
    requires attempts[i] || i == 0 ==> delay == 1
    requires !attempts[i] && i > 0 ==> delay == Min(2 * Pow2(Streak(attempts, i - 1)), MAX_DELAY)
    ensures delay == Min(Pow2(Streak(attempts, i)), MAX_DELAY)
  {
    if i > 0 && !attempts[i] {
      assert Pow2(Streak(attempts, i)) == 2 * Pow2(Streak(attempts, i - 1));
    }
  }

  lemma DoubleSaturated(p: nat)
    ensures Min(Min(p, MAX_DELAY) * 2, MAX_DELAY) == Min(2 * p, MAX_DELAY)
  {
  }

  /** Every sleep is one of 1, 2, 4, 8 or 10 seconds, and 1 s right after a success. */
  lemma {:induction false} SleepValues(attempts: seq<bool>, i: nat)
    requires i < |attempts|
    ensures Min(Pow2(Streak(attempts, i)), MAX_DELAY) in {1, 2, 4, 8, 10}
    ensures attempts[i] ==> Min(Pow2(Streak(attempts, i)), MAX_DELAY) == 1
  {
    var k := Streak(attempts, i);
    if k >= 4 {
      Pow2Grows(k);
    } else {
      assert k == 0 || k == 1 || k == 2 || k == 3;
    }
  }

  type Header12 = h: bytes | |h| == Framing.HEADER_SIZE witness [0, 0, 0, 0, 0, 0, 0, 0, 0, 0, 0, 0]

  /** What reading the packet body gave: the bytes, or an I/O error (a short read included). */
  datatype BodyRead = Body(data: bytes) | BodyError

  /** What `try_send` on the bounded decoder channel answered. */
  datatype Delivery = Sent | Full | Disconnected

  /** One attempt to read a header from the socket, and what followed it. */
  datatype Arrival =
    | Packet(header: Header12, body: BodyRead, delivery: Delivery)
    | HeaderTimeout
    | HeaderEof
    | HeaderError

  datatype Ending = StoppedCleanly | ConnectionLost

  datatype Received = Received(ending: Ending, forwarded: seq<bytes>, timeouts: nat)

  /** The receive loop's reference meaning, with t consecutive timeouts already counted.
      When the arrivals run out, the running flag was cleared and the loop returns Ok. */
  function Receive(arrivals: seq<Arrival>, t: nat): Received
  {
    if arrivals == [] then Received(StoppedCleanly, [], t)
    else match arrivals[0]
      case HeaderTimeout =>
        if t + 1 > MAX_TIMEOUTS then Received(ConnectionLost, [], t + 1)
        else Receive(arrivals[1..], t + 1)
      case HeaderEof => Received(ConnectionLost, [], t)
      case HeaderError => Received(ConnectionLost, [], t)
      case Packet(h, body, delivery) =>
        var size := Framing.ParseHeader(h).size;
        if size > MAX_BODY then Received(ConnectionLost, [], t)
        else if body.BodyError? || |body.data| != size then Received(ConnectionLost, [], t)
        else if delivery == Disconnected then Received(ConnectionLost, [], 0)
        else
          var rest := Receive(arrivals[1..], 0);
          rest.(forwarded := (if delivery == Sent then [body.data] else []) + rest.forwarded)
  }

  method ReceivePackets(arrivals: seq<Arrival>) returns (r: Received)
    ensures r == Receive(arrivals, 0)
  {
    var timeouts := 0;
    var forwarded: seq<bytes> := [];
    var i := 0;
    while i < |arrivals|
      invariant 0 <= i <= |arrivals|
      invariant Receive(arrivals, 0) == Receive(arrivals[i..], timeouts).(forwarded := forwarded + Receive(arrivals[i..], timeouts).forwarded)
    {
      assert arrivals[i..][1..] == arrivals[i + 1..];
      match arrivals[i] {
        case HeaderTimeout =>
          timeouts := timeouts + 1;
          if timeouts > MAX_TIMEOUTS {
            return Received(ConnectionLost, forwarded, timeouts);
          }
        case HeaderEof =>
          return Received(ConnectionLost, forwarded, timeouts);
        case HeaderError =>
          return Received(ConnectionLost, forwarded, timeouts);
        case Packet(h, body, delivery) =>
          var size := FromBE(h[8..12]);
          if size > MAX_BODY {
            return Received(ConnectionLost, forwarded, timeouts);
          }
          if body.BodyError? || |body.data| != size {
            return Received(ConnectionLost, forwarded, timeouts);
          }
          timeouts := 0;
          if delivery == Disconnected {
            return Received(ConnectionLost, forwarded, timeouts);
          }
          if delivery == Sent {
            forwarded := forwarded + [body.data];
          }
      }
      i := i + 1;
    }
    return Received(StoppedCleanly, forwarded, timeouts);
  }

  function Timeouts(k: nat): (s: seq<Arrival>)
    ensures |s| == k && forall i :: 0 <= i < k ==> s[i] == HeaderTimeout
  {
    if k == 0 then [] else [HeaderTimeout] + Timeouts(k - 1)
  }

  /** A run of header timeouts is absorbed while the count stays within 10; one more
      ends the connection. */
  lemma {:induction false} TimeoutRun(k: nat, t: nat, rest: seq<Arrival>)
    ensures t + k <= MAX_TIMEOUTS ==> Receive(Timeouts(k) + rest, t) == Receive(rest, t + k)
    ensures t + k > MAX_TIMEOUTS && t <= MAX_TIMEOUTS ==> Receive(Timeouts(k) + rest, t).ending == ConnectionLost
    ensures t + k > MAX_TIMEOUTS && t <= MAX_TIMEOUTS ==> Receive(Timeouts(k) + rest, t).forwarded == []
  {
    if k > 0 {
      var s := Timeouts(k) + rest;
      assert s[0] == HeaderTimeout;
      assert s[1..] == Timeouts(k - 1) + rest;
      if t + 1 <= MAX_TIMEOUTS {
        TimeoutRun(k - 1, t + 1, rest);
      }
    } else {
      assert Timeouts(k) + rest == rest;
    }
  }

  /** A packet framed by a device writer, received whole, is forwarded byte for byte and
      resets the timeout count. */
  lemma FramedPacketForwarded(pts: int, payload: bytes, rest: seq<Arrival>, t: nat)
    requires |payload| <= MAX_BODY
    ensures Receive([Packet(Framing.Frame(pts, payload)[..12], Body(payload), Sent)] + rest, t)
      == Receive(rest, 0).(forwarded := [payload] + Receive(rest, 0).forwarded)
  {
    Framing.FrameRoundTrip(pts, payload);
    var s := [Packet(Framing.Frame(pts, payload)[..12], Body(payload), Sent)] + rest;
    assert s[1..] == rest;
  }

  /** The arrival is a packet whose header declared the length of payload p and whose
      body was p. */
  predicate Declares(a: Arrival, p: bytes)
  {
    a.Packet? && a.body == Body(p) && Framing.ParseHeader(a.header).size == |p|
  }

  /** Everything forwarded is a payload of at most 10 MiB that some packet's header declared. */
  lemma {:induction false} ForwardedBounded(arrivals: seq<Arrival>, t: nat)
    ensures forall p :: p in Receive(arrivals, t).forwarded ==>
      |p| <= MAX_BODY && exists a :: a in arrivals && Declares(a, p)
  {
    if arrivals != [] {
      var tail := if arrivals[0].HeaderTimeout? then Receive(arrivals[1..], t + 1) else Receive(arrivals[1..], 0);
      if arrivals[0].HeaderTimeout? {
        if t + 1 <= MAX_TIMEOUTS {
          ForwardedBounded(arrivals[1..], t + 1);
        }
      } else {
        ForwardedBounded(arrivals[1..], 0);
      }
      var r := Receive(arrivals, t);
      forall p | p in r.forwarded
        ensures |p| <= MAX_BODY && exists a :: a in arrivals && Declares(a, p)
      {
        if arrivals[0].Packet? && p == arrivals[0].body.data && Declares(arrivals[0], p) {
        } else {
          assert p in tail.forwarded;
          var a :| a in arrivals[1..] && Declares(a, p);
          assert a in arrivals;
        }
      }
    }
  }
}
