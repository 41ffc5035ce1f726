/** The iOS app group store shared by the broadcast extension and the main app: a list
    of the most recent framed packets, and the last SPS and PPS written. */
module SharedBuffer {
  import opened Base
  import opened Bytes
  import opened Framing

  /** At most this many packets are kept. */
  const KEEP: nat := 30

  /** The newest `KEEP` packets of `ps`, oldest first. */
  function Newest(ps: seq<bytes>): (r: seq<bytes>)
    ensures |r| == Min(|ps|, KEEP) && r == ps[|ps| - |r|..]
  {
    if |ps| > KEEP then ps[|ps| - KEEP..] else ps
  }

  /** Trimming after every write is trimming once at the end: a list built by writes is
      always the newest packets of everything written. */
  lemma NewestAppend(ps: seq<bytes>, p: bytes)
    ensures Newest(Newest(ps) + [p]) == Newest(ps + [p])
  {
    var a := Newest(ps) + [p];
    var b := ps + [p];
    assert a == b[|b| - |a|..];
  }

  /** The list after a run of writes, each trimmed. */
  function WriteAll(stored: seq<bytes>, entries: seq<bytes>): seq<bytes>
    decreases |entries|
  {
    if entries == [] then stored else WriteAll(Newest(stored + [entries[0]]), entries[1..])
  }

  /** However many writes, the list holds the newest `KEEP` of the packets stored and
      written, oldest first. */
  lemma {:induction false} WriteAllKeepsNewest(stored: seq<bytes>, entries: seq<bytes>)
    requires |stored| <= KEEP
    ensures WriteAll(stored, entries) == Newest(stored + entries)
    decreases |entries|
  {
    if entries == [] {
      assert stored + entries == stored;
    } else {
      var s := stored + [entries[0]];
      WriteAllKeepsNewest(Newest(s), entries[1..]);
      NewestShift(s, entries[1..]);
      assert s + entries[1..] == stored + entries;
    }
  }

  /** Trimming the front early loses nothing the final trim would keep. */
  lemma {:induction false} NewestShift(s: seq<bytes>, rest: seq<bytes>)
    ensures Newest(Newest(s) + rest) == Newest(s + rest)
    decreases |rest|
  {
    var a := Newest(s) + rest;
    var b := s + rest;
    assert a == b[|b| - |a|..];
  }

  class Store {
    /** Whether the app group's defaults can be opened. */
    const available: bool
    /** The `video_packets` list; an absent key reads as the empty list. */
    var packets: seq<bytes>
    var sps: Option<bytes>
    var pps: Option<bytes>

    constructor (available: bool)
      ensures this.available == available && packets == [] && sps == None && pps == None
    {
      this.available := available;
      packets := [];
      sps := None;
      pps := None;
    }

    /** `write`: the framed packet appended, then the oldest dropped down to `KEEP`.
        `Int32(packet.count)` traps on packets of 2^31 bytes or more. */
    method Write(packet: bytes, pts: int)
      requires |packet| < MAX_FIELD_SIZE
      modifies this`packets
      ensures packets == if available then Newest(old(packets) + [Frame(pts, packet)]) else old(packets)
      ensures |packets| <= KEEP || !available
    {
      if !available {
        return;
      }
      var data: bytes := [];
      data := data + BE(pts, 8);
      data := data + BE(|packet|, 4);
      data := data + packet;
      assert data == Frame(pts, packet);
      var list := packets;
      list := list + [data];
      if |list| > KEEP {
        list := list[|list| - KEEP..];
      }
      packets := list;
    }

    method WriteSpsPps(sps: bytes, pps: bytes)
      modifies this`sps, this`pps
      ensures this.sps == (if available then Some(sps) else old(this.sps))
      ensures this.pps == (if available then Some(pps) else old(this.pps))
    {
      if !available {
        return;
      }
      this.sps := Some(sps);
      this.pps := Some(pps);
    }

    /** `readPackets`: the list is returned and removed. */
    method ReadPackets() returns (r: seq<bytes>)
      modifies this`packets
      ensures r == (if available then old(packets) else [])
      ensures packets == (if available then [] else old(packets))
    {
      if !available {
        return [];
      }
      r := packets;
      packets := [];
    }

    method ReadSpsPps() returns (s: Option<bytes>, p: Option<bytes>)
      ensures (s, p) == if available then (sps, pps) else (None, None)
    {
      if !available {
        return None, None;
      }
      s, p := sps, pps;
    }

    method Clear()
      modifies this`packets, this`sps, this`pps
      ensures available ==> packets == [] && sps == None && pps == None
      ensures !available ==> packets == old(packets) && sps == old(sps) && pps == old(pps)
    {
      if !available {
        return;
      }
      packets := [];
      sps := None;
      pps := None;
    }
  }
}
