/** The host's audio decoder thread: each packet's little-endian 16-bit PCM becomes a
    batch of signed samples, offered to the playback channel without waiting. */
module AudioDecoder {
  import opened Bytes

  type i16 = x: int | -0x8000 <= x < 0x8000

  /** `i16::from_le_bytes([lo, hi])`: the two's-complement reading of `lo + 256 * hi`. */
  function Sample(lo: byte, hi: byte): (s: i16)
    ensures (s + 0x1_0000) % 0x1_0000 == lo + 256 * hi
    ensures s < 0 <==> hi >= 0x80
  {
    var u := lo + 256 * hi;
    if u >= 0x8000 then u - 0x1_0000 else u
  }

  /** The two bytes a sample is stored as, low byte first. */
  function SampleBytes(s: i16): (b: bytes)
    ensures |b| == 2
  {
    var u := if s < 0 then s + 0x1_0000 else s;
    [u % 256, u / 256]
  }

  lemma SampleOfBytes(s: i16)
    ensures Sample(SampleBytes(s)[0], SampleBytes(s)[1]) == s
  {
    var u := if s < 0 then s + 0x1_0000 else s;
    assert u == u % 256 + 256 * (u / 256);
  }

  lemma BytesOfSample(lo: byte, hi: byte)
    ensures SampleBytes(Sample(lo, hi)) == [lo, hi]
  {
    var u := lo + 256 * hi;
    assert u % 256 == lo && u / 256 == hi;
  }

  /** `chunks_exact(2)` with `from_le_bytes`: one sample per whole byte pair. */
  function DecodePcm(data: bytes): (r: seq<i16>)
    ensures |r| == |data| / 2
  {
    if |data| < 2 then [] else [Sample(data[0], data[1])] + DecodePcm(data[2..])
  }

  /** Sample `i` is read from bytes `2i` and `2i + 1`. */
  lemma {:induction false} DecodePcmAt(data: bytes, i: nat)
    requires i < |data| / 2
    ensures DecodePcm(data)[i] == Sample(data[2 * i], data[2 * i + 1])
  {
    if i > 0 {
      DecodePcmAt(data[2..], i - 1);
    }
  }

  /** Decoding a packet made of two parts, the first of even length, decodes the parts
      in order. */
  lemma {:induction false} DecodePcmAppend(a: bytes, b: bytes)
    requires |a| % 2 == 0
    ensures DecodePcm(a + b) == DecodePcm(a) + DecodePcm(b)
  {
    if a != [] {
      assert (a + b)[2..] == a[2..] + b;
      assert (a + b)[0] == a[0] && (a + b)[1] == a[1];
      DecodePcmAppend(a[2..], b);
    } else {
      assert a + b == b;
    }
  }

  /** A trailing odd byte yields no sample. */
  lemma OddByteIgnored(data: bytes, x: byte)
    requires |data| % 2 == 0
    ensures DecodePcm(data + [x]) == DecodePcm(data)
  {
    DecodePcmAppend(data, [x]);
  }

  /** The byte stream a run of samples is written as. */
  function EncodePcm(samples: seq<i16>): (data: bytes)
    ensures |data| == 2 * |samples|
  {
    if samples == [] then [] else SampleBytes(samples[0]) + EncodePcm(samples[1..])
  }

  /** Round trip: the samples written out are the samples read back. */
  lemma {:induction false} DecodeEncode(samples: seq<i16>)
    ensures DecodePcm(EncodePcm(samples)) == samples
  {
    if samples != [] {
      var d := EncodePcm(samples);
      SampleOfBytes(samples[0]);
      assert d[2..] == EncodePcm(samples[1..]);
      DecodeEncode(samples[1..]);
      assert samples == [samples[0]] + samples[1..];
    }
  }

  /** Round trip the other way: an even-length byte stream is rewritten unchanged. */
  lemma {:induction false} EncodeDecode(data: bytes)
    requires |data| % 2 == 0
    ensures EncodePcm(DecodePcm(data)) == data
  {
    if data != [] {
      BytesOfSample(data[0], data[1]);
      EncodeDecode(data[2..]);
      assert data == [data[0], data[1]] + data[2..];
    }
  }

  /** The batches that reach playback: `full[k]` says that the channel had no room when
      packet `k` was offered, and then that whole batch is lost. */
  function Forwarded(packets: seq<bytes>, full: seq<bool>): seq<seq<i16>>
    requires |full| == |packets|
  {
    if packets == [] then []
    else (if full[0] then [] else [DecodePcm(packets[0])]) + Forwarded(packets[1..], full[1..])
  }

  /** The channel can only drop whole batches: at most one batch per packet. */
  lemma {:induction false} ForwardedAtMostOnePerPacket(packets: seq<bytes>, full: seq<bool>)
    requires |full| == |packets|
    ensures |Forwarded(packets, full)| <= |packets|
    ensures (forall k :: 0 <= k < |full| ==> !full[k]) ==> |Forwarded(packets, full)| == |packets|
  {
    if packets != [] {
      ForwardedAtMostOnePerPacket(packets[1..], full[1..]);
      assert forall k :: 0 <= k < |full| - 1 ==> full[1..][k] == full[k + 1];
    }
  }

  function Flatten(batches: seq<seq<i16>>): seq<i16>
  {
    if batches == [] then [] else batches[0] + Flatten(batches[1..])
  }

  /** With room in the channel and whole samples in each packet, the samples reaching
      playback are the byte stream read in order, across packet boundaries. */
  lemma {:induction false} OrderPreserved(packets: seq<bytes>, full: seq<bool>)
    requires |full| == |packets|
    requires forall k :: 0 <= k < |full| ==> !full[k]
    requires forall k :: 0 <= k < |packets| ==> |packets[k]| % 2 == 0
    ensures Flatten(Forwarded(packets, full)) == DecodePcm(Concat(packets))
  {
    if packets != [] {
      assert forall k :: 0 <= k < |full| - 1 ==> full[1..][k] == full[k + 1];
      assert forall k :: 0 <= k < |packets| - 1 ==> packets[1..][k] == packets[k + 1];
      OrderPreserved(packets[1..], full[1..]);
      DecodePcmAppend(packets[0], Concat(packets[1..]));
      assert Forwarded(packets, full) == [DecodePcm(packets[0])] + Forwarded(packets[1..], full[1..]);
      assert ([DecodePcm(packets[0])] + Forwarded(packets[1..], full[1..]))[1..] == Forwarded(packets[1..], full[1..]);
    }
  }

  /** The decoder thread: received packets in order, each converted and offered once. */
  method DecodeLoop(packets: seq<bytes>, full: seq<bool>) returns (sent: seq<seq<i16>>)
    requires |full| == |packets|
    ensures sent == Forwarded(packets, full)
  {
    sent := [];
    var k := 0;
    while k < |packets|
      invariant k <= |packets|
      invariant sent + Forwarded(packets[k..], full[k..]) == Forwarded(packets, full)
    {
      var samples := DecodePcm(packets[k]);
      ForwardedAt(packets, full, k, sent);
      if !full[k] {
        sent := sent + [samples];
      }
      k := k + 1;
    }
    assert packets[k..] == [] && full[k..] == [];
  }

  /** Packet k is forwarded, or dropped, ahead of the packets after it. */
  lemma ForwardedAt(packets: seq<bytes>, full: seq<bool>, k: nat, sent: seq<seq<i16>>)
    requires |full| == |packets| && k < |packets|
    ensures var next := sent + (if full[k] then [] else [DecodePcm(packets[k])]);
      sent + Forwarded(packets[k..], full[k..]) == next + Forwarded(packets[k + 1..], full[k + 1..])
  {
    assert packets[k..][1..] == packets[k + 1..] && full[k..][1..] == full[k + 1..];
  }
}
