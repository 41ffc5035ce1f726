/** The packet framing shared by every video and audio stream of the system: an 8-byte
    big-endian presentation timestamp, a 4-byte big-endian payload size, the payload. */
module Framing {
  import opened Bytes

  const HEADER_SIZE: nat := 12
  /** A payload size must fit the signed 32-bit size field. */
  const MAX_FIELD_SIZE: nat := 0x8000_0000

  /** One framed packet. The timestamp is a signed 64-bit value written in two's complement. */
  function Frame(pts: int, payload: bytes): (f: bytes)
    requires |payload| < MAX_FIELD_SIZE
    ensures |f| == HEADER_SIZE + |payload| && f[HEADER_SIZE..] == payload
  {
    BE(pts, 8) + BE(|payload|, 4) + payload
  }

  datatype Header = Header(pts: nat, size: nat)

  /** The reader's view of a 12-byte header: both fields unsigned big-endian. */
  function ParseHeader(h: bytes): (r: Header)
    requires |h| == HEADER_SIZE
    ensures r.pts < Pow256(8) && r.size < Pow256(4)
  {
    Header(FromBE(h[..8]), FromBE(h[8..12]))
  }

  /** A reader recovers the payload size exactly and the timestamp modulo 2^64. */
  lemma FrameRoundTrip(pts: int, payload: bytes)
    requires |payload| < MAX_FIELD_SIZE
    ensures ParseHeader(Frame(pts, payload)[..HEADER_SIZE]) == Header(pts % Pow256(8), |payload|)
  {
    var f := Frame(pts, payload);
    assert f[..HEADER_SIZE][..8] == BE(pts, 8);
    assert f[..HEADER_SIZE][8..12] == BE(|payload|, 4);
    FromBEOfBE(pts, 8);
    assert Pow256(4) == 0x1_0000_0000;
    BEInRange(|payload|, 4);
  }
}
