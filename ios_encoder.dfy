/** The iOS broadcast extension's hardware H.264 encoder: the compression session it
    opens and closes, the settings it gives it, and what it hands its delegate for each
    encoded frame, with the frame's NAL units rewritten from length-prefixed AVC sample
    layout (ISO/IEC 14496-15) into the start-code form of Annex B of ITU-T H.264. */
module H264Encoder {
  import opened Base
  import opened Bytes
  import opened Numbers

  const START_CODE: bytes := [0, 0, 0, 1]

  /** The length-prefixed layout: each NAL unit preceded by its length as a 4-byte
      big-endian number. */
  function Avcc(units: seq<bytes>): (r: bytes)
    requires forall i :: 0 <= i < |units| ==> |units[i]| < Pow256(4)
  {
    if units == [] then [] else BE(|units[0]|, 4) + units[0] + Avcc(units[1..])
  }

  /** The start-code layout: each NAL unit preceded by `00 00 00 01`. */
  function AnnexB(units: seq<bytes>): (r: bytes)
  {
    if units == [] then [] else START_CODE + units[0] + AnnexB(units[1..])
  }

  /** The length prefixes exactly tile the buffer: each one is followed by at least as
      many bytes as it announces, and the last unit ends at the end. */
  predicate WellFormed(data: bytes)
    decreases |data|
  {
    data == [] || (|data| >= 4 && 4 + FromBE(data[..4]) <= |data| && WellFormed(data[4 + FromBE(data[..4])..]))
  }

  /** What `convertToAnnexB` builds from well-formed input. */
  function Converted(data: bytes): (r: bytes)
    requires WellFormed(data)
    decreases |data|
  {
    if data == [] then []
    else
      var n := FromBE(data[..4]);
      START_CODE + data[4..4 + n] + Converted(data[4 + n..])
  }

  /** The NAL units of well-formed input, in order. */
  function Units(data: bytes): (units: seq<bytes>)
    requires WellFormed(data)
    ensures forall i :: 0 <= i < |units| ==> |units[i]| < Pow256(4)
    decreases |data|
  {
    if data == [] then []
    else
      var n := FromBE(data[..4]);
      [data[4..4 + n]] + Units(data[4 + n..])
  }

  /** Only the prefixes change, each into a start code of the same size, so the output
      is exactly as long as the input. */
  lemma {:induction false} ConvertedLength(data: bytes)
    requires WellFormed(data)
    ensures |Converted(data)| == |data|
    decreases |data|
  {
    if data != [] {
      ConvertedLength(data[4 + FromBE(data[..4])..]);
    }
  }

  /** Every unit keeps its bytes and its place: the output is the start-code layout of
      the units the prefixes delimit, and those units, length-prefixed again, are the
      input. */
  lemma ConvertedIsAnnexB(data: bytes)
    requires WellFormed(data)
    ensures Converted(data) == AnnexB(Units(data))
    ensures Avcc(Units(data)) == data
  {
    ConvertedOfUnits(data);
    AvccOfUnits(data);
  }

  lemma {:induction false} ConvertedOfUnits(data: bytes)
    requires WellFormed(data)
    ensures Converted(data) == AnnexB(Units(data))
    decreases |data|
  {
    if data != [] {
      var n := FromBE(data[..4]);
      var tail := data[4 + n..];
      ConvertedOfUnits(tail);
      var units := Units(data);
      assert units[0] == data[4..4 + n] && units[1..] == Units(tail);
    }
  }

  lemma {:induction false} AvccOfUnits(data: bytes)
    requires WellFormed(data)
    ensures Avcc(Units(data)) == data
    decreases |data|
  {
    if data != [] {
      var n := FromBE(data[..4]);
      var tail := data[4 + n..];
      AvccOfUnits(tail);
      var u := data[4..4 + n];
      assert Units(data) == [u] + Units(tail);
      PrefixRestored(data, n);
      assert Avcc([u] + Units(tail)) == BE(|u|, 4) + u + Avcc(Units(tail));
    }
  }

  /** A prefix and the unit it announces, put back in front of the rest, give the
      buffer back. */
  lemma PrefixRestored(data: bytes, n: nat)
    requires |data| >= 4 && n == FromBE(data[..4]) && 4 + n <= |data|
    ensures BE(|data[4..4 + n]|, 4) + data[4..4 + n] + data[4 + n..] == data
  {
    BEOfFromBE(data[..4]);
    assert data == data[..4] + data[4..4 + n] + data[4 + n..];
  }

  /** The other direction: any units short enough to be length-prefixed come out of the
      conversion in start-code form, one for one. */
  lemma {:induction false} AvccConverts(units: seq<bytes>)
    requires forall i :: 0 <= i < |units| ==> |units[i]| < Pow256(4)
    ensures WellFormed(Avcc(units))
    ensures Units(Avcc(units)) == units
    ensures Converted(Avcc(units)) == AnnexB(units)
    decreases |units|
  {
    if units != [] {
      var data := Avcc(units);
      var u := units[0];
      AvccConverts(units[1..]);
      BEInRange(|u|, 4);
      assert data[..4] == BE(|u|, 4);
      assert data[4..4 + |u|] == u;
      assert data[4 + |u|..] == Avcc(units[1..]);
    }
  }

  /** `convertToAnnexB`: read a prefix, append the start code and the unit, move on. */
  method ConvertToAnnexB(data: bytes) returns (result: bytes)
    requires WellFormed(data)
    ensures result == Converted(data)
  {
    result := [];
    var offset := 0;
    while offset < |data|
      invariant offset <= |data| && WellFormed(data[offset..])
      invariant result + Converted(data[offset..]) == Converted(data)
      decreases |data| - offset
    {
      ghost var rest := data[offset..];
      ghost var before := result;
      assert |rest| >= 4;
      var prefix := data[offset..offset + 4];
      assert rest[..4] == prefix;
      var nalLength := FromBE(prefix);
      ghost var piece := rest[4..4 + nalLength];
      ghost var tail := rest[4 + nalLength..];
      assert Converted(rest) == START_CODE + piece + Converted(tail);
      offset := offset + 4;
      result := result + START_CODE;
      result := result + data[offset..offset + nalLength];
      assert data[offset..offset + nalLength] == piece;
      offset := offset + nalLength;
      assert data[offset..] == tail;
      AppendPieces(before, piece, Converted(tail));
    }
  }

  lemma AppendPieces(before: bytes, piece: bytes, rest: bytes)
    ensures before + START_CODE + piece + rest == before + (START_CODE + piece + rest)
  {
  }

  /** The settings `configureSession` gives a session. */
  datatype SessionConfig = SessionConfig(
    width: int, height: int,
    realTime: bool,
    averageBitRate: int,
    maxKeyFrameInterval: nat,
    allowFrameReordering: bool,
    expectedFrameRate: nat,
    /** Bytes allowed, and the window in seconds they are allowed in. */
    dataRateLimits: seq<int>)

  const KEYFRAME_INTERVAL: nat := 60
  const EXPECTED_FRAME_RATE: nat := 60

  function Configure(width: int, height: int, bitrate: int): SessionConfig
  {
    SessionConfig(width, height, true, bitrate, KEYFRAME_INTERVAL, false, EXPECTED_FRAME_RATE,
                  [TruncDiv(bitrate, 8), 1])
  }

  /** The data-rate limit is the bit rate in whole bytes per one second, rounded down,
      and the session is real-time, without frame reordering, with a keyframe at least
      every 60 frames. */
  lemma ByteLimit(width: int, height: int, bitrate: nat)
    ensures var c := Configure(width, height, bitrate);
      |c.dataRateLimits| == 2 && c.dataRateLimits[1] == 1 &&
      8 * c.dataRateLimits[0] <= bitrate < 8 * (c.dataRateLimits[0] + 1) &&
      c.averageBitRate == bitrate && c.realTime && !c.allowFrameReordering && c.maxKeyFrameInterval == 60
  {
  }

  /** The first sample attachment, when there is one, and its NotSync entry. */
  datatype Attachments = NoAttachments | FirstAttachment(notSync: Option<bool>)

  /** `isKeyFrame`: a frame is a keyframe unless it has no attachments or is marked
      NotSync. */
  function IsKeyFrame(a: Attachments): (key: bool)
    ensures key <==> a.FirstAttachment? && a.notSync != Some(true)
  {
    match a
    case NoAttachments => false
    case FirstAttachment(notSync) => !notSync.GetOr(false)
  }

  /** What the output callback receives for an encoded frame: the attachments, the
      parameter sets 0 and 1 of its format description when they can be read, its
      data when the block buffer can be read, and its presentation time. */
  datatype EncodedSample = EncodedSample(attachments: Attachments, sps: Option<bytes>, pps: Option<bytes>,
                                         data: Option<bytes>, ptsUs: int)

  /** What the delegate is told. */
  datatype EncoderEvent =
    | ParameterSets(sps: bytes, pps: bytes)
    | Packet(data: bytes, ptsUs: int, isKeyframe: bool)

  /** Block buffers from the hardware encoder are well-formed. */
  predicate SampleWellFormed(s: EncodedSample)
  {
    s.data.Some? ==> WellFormed(s.data.value)
  }

  /** `handleEncodedFrame`: the parameter sets on a keyframe, then the converted data. */
  function FrameEvents(s: EncodedSample): seq<EncoderEvent>
    requires SampleWellFormed(s)
  {
    var key := IsKeyFrame(s.attachments);
    (if key && s.sps.Some? && s.pps.Some? then [ParameterSets(s.sps.value, s.pps.value)] else []) +
    (if s.data.Some? then [Packet(Converted(s.data.value), s.ptsUs, key)] else [])
  }

  /** Parameter sets are delivered only for keyframes, and always ahead of that frame's
      packet, which carries the frame's data in start-code form and its keyframe flag. */
  lemma FrameEventsOrder(s: EncodedSample)
    requires SampleWellFormed(s)
    ensures var r := FrameEvents(s);
      |r| <= 2 &&
      (forall i :: 0 <= i < |r| && r[i].ParameterSets? ==> i == 0 && IsKeyFrame(s.attachments)) &&
      (forall i :: 0 <= i < |r| && r[i].Packet? ==>
         i == |r| - 1 && r[i].data == Converted(s.data.value) && r[i].isKeyframe == IsKeyFrame(s.attachments)) &&
      (s.data.Some? <==> |r| > 0 && r[|r| - 1].Packet?)
  {
  }

  class Encoder {
    const width: int
    const height: int
    const bitrate: int
    /** The compression session, by its settings. */
    var session: Option<SessionConfig>
    /** Frames handed to the session. */
    var submitted: nat
    /** What the delegate has been told, in order. */
    var events: seq<EncoderEvent>

    constructor (width: int, height: int, bitrate: int)
      ensures this.width == width && this.height == height && this.bitrate == bitrate
      ensures session == None && submitted == 0 && events == []
    {
      this.width := width;
      this.height := height;
      this.bitrate := bitrate;
      session := None;
      submitted := 0;
      events := [];
    }

    /** `start`: `created` is whether the platform could create the session; a failed
        creation leaves no session. */
    method Start(created: bool)
      modifies this`session
      ensures session == if created then Some(Configure(width, height, bitrate)) else None
    {
      if !created {
        session := None;
        return;
      }
      session := Some(Configure(width, height, bitrate));
    }

    /** `stop`: nothing without a session; otherwise it is flushed and dropped. */
    method Stop()
      modifies this`session
      ensures session == None
    {
      if session.None? {
        return;
      }
      session := None;
    }

    /** `encode`: a frame with an image is handed to the session, if there is one. */
    method Encode(hasImage: bool)
      modifies this`submitted
      ensures submitted == old(submitted) + if session.Some? && hasImage then 1 else 0
    {
      if session.None? || !hasImage {
        return;
      }
      submitted := submitted + 1;
    }

    /** The output callback: a failed status or a missing sample buffer is ignored. */
    method OutputCallback(sample: Option<EncodedSample>)
      requires sample.Some? ==> SampleWellFormed(sample.value)
      modifies this`events
      ensures events == old(events) + if sample.Some? then FrameEvents(sample.value) else []
    {
      if sample.None? {
        return;
      }
      var s := sample.value;
      var key := IsKeyFrame(s.attachments);
      if key && s.sps.Some? && s.pps.Some? {
        events := events + [ParameterSets(s.sps.value, s.pps.value)];
      }
      if s.data.None? {
        return;
      }
      var data := ConvertToAnnexB(s.data.value);
      events := events + [Packet(data, s.ptsUs, key)];
    }
  }
}
