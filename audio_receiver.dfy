/** The host's audio connection: the 12-byte stream header, the loop that reads framed
    packets and offers each to the decoder channel, and the reconnect delays. */
module AudioReceiver {
  import opened Base
  import opened Bytes
  import opened Numbers
  import Framing
  import PacketChannel
  import AudioCapture
  import AudioEncoder
  import VideoReceiver

  const MAGIC: bytes := [0x41, 0x55, 0x44, 0x49, 0x4F, 0x00]
  /** Largest packet accepted; a larger declared size ends the connection. */
  const MAX_PACKET: nat := 1024 * 1024

  datatype AudioHeader = AudioHeader(sampleRate: nat, channels: byte, codecType: byte)

  datatype AudioPacket = AudioPacket(pts: nat, data: bytes)

  /** `read_header` on a connection whose bytes, up to its end, are `stream`: None when
      fewer than 12 bytes arrive or the magic is wrong. */
  function ReadHeader(stream: bytes): (r: Option<AudioHeader>)
    ensures r.Some? <==> |stream| >= 12 && stream[..6] == MAGIC
    ensures r.Some? ==> r.value.sampleRate < Pow256(4)
  {
    if |stream| < 12 || stream[..6] != MAGIC then None
    else Some(AudioHeader(FromBE(stream[6..10]), stream[10], stream[11]))
  }

  /** Round trip: the header the device writes reads back as 48000 Hz, two channels,
      codec 0, whatever follows it. */
  lemma HeaderRoundTrip(rest: bytes)
    ensures ReadHeader(AudioEncoder.AudioHeader() + rest)
      == Some(AudioHeader(AudioCapture.SAMPLE_RATE, AudioCapture.CHANNELS as byte, AudioEncoder.CODEC_RAW_PCM))
  {
    var h := AudioEncoder.AudioHeader();
    var s := h + rest;
    assert s[..6] == h[..6] && s[6..10] == h[6..10] && s[10] == h[10] && s[11] == h[11];
    assert AudioEncoder.MAGIC == MAGIC;
    assert Pow256(4) == 0x1_0000_0000;
    BEInRange(AudioCapture.SAMPLE_RATE, 4);
  }

  /** One turn of `receive_packets` on the unread bytes `rest`: the packet at the front
      and the number of bytes it takes up, or None when the loop ends there (a short
      header, a declared size over 1 MiB, or a short body). */
  function NextPacket(rest: bytes): (r: Option<(AudioPacket, nat)>)
    ensures r.Some? ==> Framing.HEADER_SIZE <= r.value.1 <= |rest|
  {
    if |rest| < Framing.HEADER_SIZE then None
    else
      var h := Framing.ParseHeader(rest[..Framing.HEADER_SIZE]);
      if h.size > MAX_PACKET || |rest| < Framing.HEADER_SIZE + h.size then None
      else Some((AudioPacket(h.pts, rest[Framing.HEADER_SIZE..Framing.HEADER_SIZE + h.size]), Framing.HEADER_SIZE + h.size))
  }

  /** The packets offered to the channel, in order, for a connection whose remaining
      bytes are `stream` after `k` packets were read. `full` holds the numbers of the
      packets for which the channel had no room. Every ending looks alike to the caller. */
  function Receive(stream: bytes, full: set<nat>, k: nat): seq<AudioPacket>
    decreases |stream|
  {
    match NextPacket(stream)
    case None => []
    case Some((p, used)) => (if k in full then [] else [p]) + Receive(stream[used..], full, k + 1)
  }

  /** The reads of one turn: the 12-byte header, the size check, the body. */
  method ReadPacket(rest: bytes) returns (r: Option<(AudioPacket, nat)>)
    ensures r == NextPacket(rest)
  {
    if |rest| < 12 {
      return None;
    }
    var header := rest[..12];
    var pts := FromBE(header[..8]);
    var size := FromBE(header[8..12]);
    if size > MAX_PACKET {
      return None;
    }
    if |rest| - 12 < size {
      return None;
    }
    var data := rest[12..12 + size];
    return Some((AudioPacket(pts, data), 12 + size));
  }

  /** `rest` is what is still unread on the socket. */
  method ReceivePackets(stream: bytes, full: set<nat>) returns (offered: seq<AudioPacket>)
    ensures offered == Receive(stream, full, 0)
  {
    offered := [];
    var rest := stream;
    var k := 0;
    while true
      invariant offered + Receive(rest, full, k) == Receive(stream, full, 0)
      decreases |rest|
    {
      var next := ReadPacket(rest);
      if next.None? {
        return;
      }
      var (packet, used) := next.value;
      if k !in full {
        offered := offered + [packet];
      }
      rest := rest[used..];
      k := k + 1;
    }
  }

  /** The 12-byte header and payload of each packet, in order. */
  function FrameList(sent: seq<(int, bytes)>): (r: seq<bytes>)
    requires AudioEncoder.Small(sent)
  {
    seq(|sent|, i requires 0 <= i < |sent| => Framing.Frame(sent[i].0, sent[i].1))
  }

  /** The packets the receiver makes of the frames, with the timestamps read back. */
  function Offered(sent: seq<(int, bytes)>, full: set<nat>, k: nat): seq<AudioPacket>
  {
    if sent == [] then []
    else (if k in full then [] else [AudioPacket(sent[0].0 % Pow256(8), sent[0].1)]) + Offered(sent[1..], full, k + 1)
  }

  lemma ReceiveFrame(pts: int, data: bytes, rest: bytes, full: set<nat>, k: nat)
    requires |data| <= MAX_PACKET
    ensures Receive(Framing.Frame(pts, data) + rest, full, k)
      == (if k in full then [] else [AudioPacket(pts % Pow256(8), data)]) + Receive(rest, full, k + 1)
  {
    var f := Framing.Frame(pts, data);
    var s := f + rest;
    Framing.FrameRoundTrip(pts, data);
    assert s[..12] == f[..12];
    assert s[12..12 + |data|] == data;
    assert s[12 + |data|..] == rest;
  }

  lemma FrameListTail(sent: seq<(int, bytes)>)
    requires AudioEncoder.Small(sent) && sent != []
    ensures AudioEncoder.Small(sent[1..]) && FrameList(sent)[1..] == FrameList(sent[1..])
  {
    assert forall i :: 0 <= i < |sent| - 1 ==> sent[1..][i] == sent[i + 1];
  }

  lemma FrameListInit(sent: seq<(int, bytes)>)
    requires AudioEncoder.Small(sent) && sent != []
    ensures AudioEncoder.Small(sent[..|sent| - 1])
    ensures FrameList(sent) == FrameList(sent[..|sent| - 1]) + [Framing.Frame(sent[|sent| - 1].0, sent[|sent| - 1].1)]
  {
  }

  /** Every packet the device frames, each within 1 MiB, is read back whole and in order:
      exactly the ones the channel had room for reach the decoder. */
  lemma {:induction false} FramedStreamReceived(sent: seq<(int, bytes)>, full: set<nat>, k: nat)
    requires AudioEncoder.Small(sent)
    requires forall i :: 0 <= i < |sent| ==> |sent[i].1| <= MAX_PACKET
    ensures Receive(Concat(FrameList(sent)), full, k) == Offered(sent, full, k)
    decreases |sent|
  {
    if sent != [] {
      FrameListTail(sent);
      ReceiveFrame(sent[0].0, sent[0].1, Concat(FrameList(sent[1..])), full, k);
      FramedStreamReceived(sent[1..], full, k + 1);
    }
  }

  /** A packet's writes carry its frame once; the flush carries no data. */
  lemma PacketWritten(pts: int, data: bytes, k: nat)
    requires |data| < Framing.MAX_FIELD_SIZE
    ensures PacketChannel.WrittenData(AudioEncoder.PacketOps(pts, data, k)) == [Framing.Frame(pts, data)]
  {
    var ops := AudioEncoder.PacketOps(pts, data, k);
    assert ops[1..] == [] || ops[1..] == [PacketChannel.Flush];
    assert PacketChannel.WrittenData(ops[1..]) == [];
  }

  /** The device writes exactly one frame per packet, in order. */
  lemma {:induction false} WrittenFrames(sent: seq<(int, bytes)>)
    requires AudioEncoder.Small(sent)
    ensures PacketChannel.WrittenData(AudioEncoder.StreamOps(sent)) == FrameList(sent)
    decreases |sent|
  {
    if sent != [] {
      var n := |sent|;
      FrameListInit(sent);
      var init := sent[..n - 1];
      var ops := AudioEncoder.PacketOps(sent[n - 1].0, sent[n - 1].1, n - 1);
      assert AudioEncoder.StreamOps(sent) == AudioEncoder.StreamOps(init) + ops;
      WrittenFrames(init);
      PacketWritten(sent[n - 1].0, sent[n - 1].1, n - 1);
      PacketChannel.WrittenDataAppend(AudioEncoder.StreamOps(init), ops);
    }
  }

  /** End to end: the bytes the device's audio encoder writes are accepted as a 48 kHz
      stereo header followed by exactly the packets it sent, less those the decoder
      channel had no room for. */
  lemma DeviceStreamReceived(sent: seq<(int, bytes)>, full: set<nat>)
    requires AudioEncoder.Small(sent)
    requires forall i :: 0 <= i < |sent| ==> |sent[i].1| <= MAX_PACKET
    ensures var stream := AudioEncoder.AudioHeader() + Concat(PacketChannel.WrittenData(AudioEncoder.StreamOps(sent)));
      ReadHeader(stream) == Some(AudioHeader(48000, 2, 0)) &&
      Receive(stream[12..], full, 0) == Offered(sent, full, 0)
  {
    var body := Concat(PacketChannel.WrittenData(AudioEncoder.StreamOps(sent)));
    HeaderRoundTrip(body);
    WrittenFrames(sent);
    FramedStreamReceived(sent, full, 0);
    assert (AudioEncoder.AudioHeader() + body)[12..] == body;
  }

  /** A header declaring more than 1 MiB ends the loop: nothing after it is offered. */
  lemma OversizeEndsLoop(header: bytes, rest: bytes, full: set<nat>, k: nat)
    requires |header| == 12 && FromBE(header[8..12]) > MAX_PACKET
    ensures Receive(header + rest, full, k) == []
  {
    assert (header + rest)[..12] == header;
  }

  /** A packet meeting a full channel is dropped and the loop reads on. */
  lemma FullChannelDropsOne(pts: int, data: bytes, rest: bytes, full: set<nat>, k: nat)
    requires |data| <= MAX_PACKET && k in full
    ensures Receive(Framing.Frame(pts, data) + rest, full, k) == Receive(rest, full, k + 1)
  {
    ReceiveFrame(pts, data, rest, full, k);
  }

  /** Whether connection attempt `i` got a valid header: None for a failed connect,
      else the bytes the connection delivered. */
  function HeaderAccepted(attempts: seq<Option<bytes>>): (ok: seq<bool>)
    ensures |ok| == |attempts|
    ensures forall i :: 0 <= i < |attempts| ==> (ok[i] <==> attempts[i].Some? && ReadHeader(attempts[i].value).Some?)
  {
    seq(|attempts|, i requires 0 <= i < |attempts| => attempts[i].Some? && ReadHeader(attempts[i].value).Some?)
  }

  /** The reconnect loop: the delay restarts at 1 s only after a valid header and doubles
      after every attempt up to 10 s. It is the video receiver's loop with "connected"
      read as "valid header". */
  method ReconnectSleeps(attempts: seq<Option<bytes>>) returns (sleeps: seq<nat>)
    ensures |sleeps| == |attempts|
    ensures forall i :: 0 <= i < |attempts| ==>
      sleeps[i] == Min(Pow2(VideoReceiver.Streak(HeaderAccepted(attempts), i)), VideoReceiver.MAX_DELAY)
  {
    sleeps := VideoReceiver.ReconnectSleeps(HeaderAccepted(attempts));
  }

  /** A connection whose header is rejected does not reset the delay: after a valid
      header and k rejected or failed attempts the sleep is min(2^k, 10) seconds. */
  lemma {:induction false} RejectedHeaderKeepsBackoff(attempts: seq<Option<bytes>>, i: nat, k: nat)
    requires i + k < |attempts|
    requires HeaderAccepted(attempts)[i]
    requires forall j :: i < j <= i + k ==> !HeaderAccepted(attempts)[j]
    ensures VideoReceiver.Streak(HeaderAccepted(attempts), i + k) == k
    decreases k
  {
    if k > 0 {
      RejectedHeaderKeepsBackoff(attempts, i, k - 1);
    }
  }
}
