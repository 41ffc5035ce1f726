/** The host's H.264 stream splitter: bytes from the network are buffered, cut into NAL
    units at 4-byte Annex B start codes (ITU-T H.264 Annex B, clause B.1, the 4-byte form
    only), gated on a keyframe after a reset, and handed one by one to the codec, whose
    pictures are repacked without row padding. */
module VideoDecoder {
  import opened Base
  import opened Bytes

  const START_CODE: bytes := [0, 0, 0, 1]
  const MAX_BUFFER_SIZE: nat := 4 * 1024 * 1024
  const OVERFLOW_KEEP: nat := 256 * 1024
  /** nal_unit_type values of section 7.4.1 and Table 7-1 of H.264. */
  const NAL_IDR_SLICE: nat := 5
  const NAL_SPS: nat := 7
  const NAL_PPS: nat := 8

  predicate StartCodeAt(b: bytes, i: nat)
  {
    i + 4 <= |b| && b[i..i + 4] == START_CODE
  }

  /** The first start code at or after i: the `windows(4).position` search. */
  function FindFrom(b: bytes, i: nat): (r: Option<nat>)
    ensures r.Some? ==> i <= r.value && StartCodeAt(b, r.value)
    ensures r.Some? ==> forall j: nat :: i <= j < r.value ==> !StartCodeAt(b, j)
    ensures r.None? ==> forall j: nat :: i <= j ==> !StartCodeAt(b, j)
    decreases |b| - i
  {
    if i + 4 > |b| then None
    else if StartCodeAt(b, i) then Some(i)
    else FindFrom(b, i + 1)
  }

  /** nal_unit_type: the low five bits of the NAL header byte. */
  function NalType(header: byte): (t: nat)
    ensures t < 32
  {
    header % 32
  }

  /** A unit with its start code is a keyframe when the header after the start code
      says IDR slice, sequence parameter set or picture parameter set. */
  predicate IsKeyframe(nal: bytes)
  {
    |nal| > 4 && NalType(nal[4]) in {NAL_IDR_SLICE, NAL_SPS, NAL_PPS}
  }

  /** IDR slices and parameter sets are keyframes whatever the nal_ref_idc bits say;
      a non-IDR slice and a bare start code are not. */
  lemma KeyframeKinds()
    ensures IsKeyframe([0, 0, 0, 1, 0x65]) && IsKeyframe([0, 0, 0, 1, 0x67]) && IsKeyframe([0, 0, 0, 1, 0x68])
    ensures IsKeyframe([0, 0, 0, 1, 0x25]) && IsKeyframe([0, 0, 0, 1, 0x05])
    ensures !IsKeyframe([0, 0, 0, 1, 0x41]) && !IsKeyframe([0, 0, 0, 1, 0x61]) && !IsKeyframe([0, 0, 0, 1])
  {
  }

  /** A picture as the codec returns it, with padded rows. */
  datatype Picture = Picture(width: nat, height: nat, y: bytes, u: bytes, v: bytes,
                             yStride: nat, uStride: nat, vStride: nat)

  /** A picture whose planes hold every row its dimensions and strides say. */
  type FitPicture = p: Picture | Fits(p) witness Picture(0, 0, [], [], [], 0, 0, 0)

  /** What the codec makes of one unit. */
  datatype Outcome = Decoded(pic: FitPicture) | NeedMore | Failed

  /** A packed frame for the renderer. */
  datatype YuvFrame = YuvFrame(width: nat, height: nat, yPlane: bytes, uPlane: bytes, vPlane: bytes,
                               yStride: nat, uvStride: nat)

  /** The codec: what it answers for the k-th unit handed to it. */
  type Codec = (nat, bytes) -> Outcome

  /** Every row the copy reads lies inside the plane. */
  predicate PlaneFits(plane: bytes, stride: nat, w: nat, rows: nat)
  {
    rows == 0 || (rows - 1) * stride + w <= |plane|
  }

  /** The chroma planes are both read with the U stride. */
  predicate Fits(p: Picture)
  {
    PlaneFits(p.y, p.yStride, p.width, p.height)
    && PlaneFits(p.u, p.uStride, p.width / 2, p.height / 2)
    && PlaneFits(p.v, p.uStride, p.width / 2, p.height / 2)
  }

  lemma RowFits(plane: bytes, stride: nat, w: nat, rows: nat, row: nat)
    requires PlaneFits(plane, stride, w, rows) && row < rows
    ensures row * stride + w <= |plane|
  {
    assert row * stride <= (rows - 1) * stride by {
      assert row <= rows - 1;
    }
  }

  /** The first `rows` rows of w bytes each, one after another. */
  function Packed(plane: bytes, stride: nat, w: nat, rows: nat): (r: bytes)
    requires PlaneFits(plane, stride, w, rows)
    ensures |r| == rows * w
  {
    if rows == 0 then []
    else
      RowFits(plane, stride, w, rows, rows - 1);
      assert PlaneFits(plane, stride, w, rows - 1) by {
        if rows - 1 > 0 { RowFits(plane, stride, w, rows, rows - 2); }
      }
      Packed(plane, stride, w, rows - 1) + plane[(rows - 1) * stride..(rows - 1) * stride + w]
  }

  lemma RowBound(r: nat, c: nat, w: nat, rows: nat)
    requires r < rows && c < w
    ensures r * w + c < rows * w
  {
    assert (r + 1) * w == r * w + w;
    assert (r + 1) * w <= rows * w by {
      assert r + 1 <= rows;
    }
  }

  /** Byte c of row r of the packed plane is byte c of row r of the padded one. */
  lemma {:induction false} PackedAt(plane: bytes, stride: nat, w: nat, rows: nat, r: nat, c: nat)
    requires PlaneFits(plane, stride, w, rows) && r < rows && c < w
    ensures r * w + c < rows * w && r * stride + c < |plane|
    ensures Packed(plane, stride, w, rows)[r * w + c] == plane[r * stride + c]
  {
    RowFits(plane, stride, w, rows, r);
    RowFits(plane, stride, w, rows, rows - 1);
    FitsFewer(plane, stride, w, rows);
    RowBound(r, c, w, rows);
    var prev := Packed(plane, stride, w, rows - 1);
    var row := plane[(rows - 1) * stride..(rows - 1) * stride + w];
    assert Packed(plane, stride, w, rows) == prev + row;
    if r < rows - 1 {
      RowBound(r, c, w, rows - 1);
      PackedAt(plane, stride, w, rows - 1, r, c);
      assert (prev + row)[r * w + c] == prev[r * w + c];
    } else {
      assert |prev| == r * w;
      assert (prev + row)[r * w + c] == row[c];
    }
  }

  lemma FitsFewer(plane: bytes, stride: nat, w: nat, rows: nat)
    requires PlaneFits(plane, stride, w, rows) && rows > 0
    ensures PlaneFits(plane, stride, w, rows - 1)
  {
    if rows - 1 > 0 { RowFits(plane, stride, w, rows, rows - 2); }
  }

  /** The copy loop of one plane. */
  method PackPlane(plane: bytes, stride: nat, w: nat, rows: nat) returns (packed: bytes)
    requires PlaneFits(plane, stride, w, rows)
    ensures packed == Packed(plane, stride, w, rows)
  {
    packed := [];
    for row := 0 to rows
      invariant PlaneFits(plane, stride, w, row)
      invariant packed == Packed(plane, stride, w, row)
    {
      RowFits(plane, stride, w, rows, row);
      packed := packed + plane[row * stride..row * stride + w];
      assert PlaneFits(plane, stride, w, row + 1);
    }
  }

  function FrameOf(p: Picture): (f: YuvFrame)
    requires Fits(p)
  {
    YuvFrame(p.width, p.height,
             Packed(p.y, p.yStride, p.width, p.height),
             Packed(p.u, p.uStride, p.width / 2, p.height / 2),
             Packed(p.v, p.uStride, p.width / 2, p.height / 2),
             p.width, p.width / 2)
  }

  /** A packed frame has a w*h luma plane and two (w/2)*(h/2) chroma planes, and its
      strides are the plane widths. */
  lemma FrameSizes(p: Picture)
    requires Fits(p)
    ensures var f := FrameOf(p);
      |f.yPlane| == p.width * p.height
      && |f.uPlane| == (p.width / 2) * (p.height / 2) && |f.vPlane| == (p.width / 2) * (p.height / 2)
      && f.yStride == p.width && f.uvStride == p.width / 2
  {
  }

  /** The splitter's state as the loop sees it: the buffer, the unit counter, the frame
      counter, the keyframe flag, the units handed to the codec, the pictures of this call
      and every unit cut so far. */
  datatype Scan = Scan(buffer: bytes, packets: nat, frameCount: nat, waiting: bool,
                       fed: seq<bytes>, pictures: seq<Picture>, nals: seq<bytes>)

  /** With no start code only the last three bytes stay, since a start code could begin
      in them. */
  function KeepTail(b: bytes): (r: bytes)
    ensures |r| <= 3 && |r| <= |b| && r == b[|b| - |r|..]
  {
    if |b| > 3 then b[|b| - 3..] else b
  }

  /** One unit, from the start code at 0 to just before the one at e: it is counted and
      cut off; while waiting, a unit that is not a keyframe is skipped; otherwise it goes
      to the codec. A failure on every 50th unit resets the codec and ends the loop. The
      result says whether the loop ends. */
  function TakeNal(s: Scan, e: nat, codec: Codec, resetOk: bool): (r: (Scan, bool))
    requires 4 <= e <= |s.buffer|
    ensures r.0.buffer == s.buffer[e..]
    ensures r.0.nals == s.nals + [s.buffer[..e]] && r.0.packets == s.packets + 1
  {
    var nal := s.buffer[..e];
    var t := s.(buffer := s.buffer[e..], packets := s.packets + 1, nals := s.nals + [nal]);
    if t.waiting && !IsKeyframe(nal) then (t, false) else Feed(t, nal, codec, resetOk)
  }

  /** The gate: a unit is handed to the codec unless the decoder waits for a keyframe
      and it is not one; handing it over ends the wait unless a reset on a failure
      starts it again, which is the only way the loop ends here. */
  lemma TakeNalGate(s: Scan, e: nat, codec: Codec, resetOk: bool)
    requires 4 <= e <= |s.buffer|
    ensures var r := TakeNal(s, e, codec, resetOk);
      (r.0.fed == s.fed || r.0.fed == s.fed + [s.buffer[..e]])
      && (r.0.fed == s.fed <==> s.waiting && !IsKeyframe(s.buffer[..e]))
      && (r.1 ==> r.0.fed != s.fed && codec(|s.fed|, s.buffer[..e]).Failed?)
      && (r.0.fed == s.fed ==> r.0.waiting == s.waiting && !r.1)
      && (r.0.fed != s.fed && !r.1 ==> !r.0.waiting)
  {
  }

  /** A unit handed over adds the codec's picture, if any, and counts it. */
  lemma TakeNalPictures(s: Scan, e: nat, codec: Codec, resetOk: bool)
    requires 4 <= e <= |s.buffer|
    ensures var r := TakeNal(s, e, codec, resetOk);
      s.fed <= r.0.fed
      && r.0.pictures == s.pictures + PicturesOf(r.0.fed[|s.fed|..], |s.fed|, codec)
      && r.0.frameCount == s.frameCount + |r.0.pictures| - |s.pictures|
  {
    var nal: bytes := s.buffer[..e];
    var one: seq<bytes> := [nal];
    assert (s.fed + one)[|s.fed|..] == one && one[1..] == [];
  }

  /** A unit that passed the gate goes to the codec. */
  function Feed(t: Scan, nal: bytes, codec: Codec, resetOk: bool): (r: (Scan, bool))
  {
    var u := t.(waiting := false, fed := t.fed + [nal]);
    match codec(|t.fed|, nal)
    case Failed => if u.packets % 50 == 0 then (u.(waiting := resetOk), true) else (u, false)
    case NeedMore => (u, false)
    case Decoded(p) => (u.(frameCount := u.frameCount + 1, pictures := u.pictures + [p]), false)
  }

  /** The picture an answer yields, if any. */
  function PictureFor(o: Outcome): (r: seq<Picture>)
    ensures |r| <= 1 && (|r| == 1 <==> o.Decoded?)
  {
    if o.Decoded? then [o.pic] else []
  }

  /** The pictures the codec gives for a run of units, the first being its base-th. */
  function PicturesOf(fed: seq<bytes>, base: nat, codec: Codec): seq<Picture>
  {
    if fed == [] then [] else PictureFor(codec(base, fed[0])) + PicturesOf(fed[1..], base + 1, codec)
  }

  /** The splitting loop, run until it breaks. */
  function ScanLoop(s: Scan, codec: Codec, resetOk: bool): Scan
    decreases |s.buffer|
  {
    match FindFrom(s.buffer, 0)
    case None => s.(buffer := KeepTail(s.buffer))
    case Some(p) =>
      if p > 0 then ScanLoop(s.(buffer := s.buffer[p..]), codec, resetOk)
      else
        match FindFrom(s.buffer, 4)
        case None => s
        case Some(e) =>
          var t := TakeNal(s, e, codec, resetOk);
          if t.1 then t.0 else ScanLoop(t.0, codec, resetOk)
  }

  /** One call: append the input; past 4 MiB reset the codec, keep the last 256 KiB and
      return no pictures; otherwise split. */
  function DecodeSpec(s: Scan, data: bytes, codec: Codec, resetOk: bool): (r: Scan)
    ensures |s.buffer + data| > MAX_BUFFER_SIZE ==>
      r.pictures == s.pictures && r.buffer == (s.buffer + data)[|s.buffer + data| - OVERFLOW_KEEP..]
      && r.waiting == (s.waiting || resetOk) && r.packets == s.packets && r.fed == s.fed
  {
    var b := s.buffer + data;
    if |b| > MAX_BUFFER_SIZE then
      s.(buffer := b[|b| - OVERFLOW_KEEP..], waiting := s.waiting || resetOk)
    else
      ScanLoop(s.(buffer := b), codec, resetOk)
  }

  /** A unit as the loop cuts it: its own start code first and no other start code
      inside. */
  ghost predicate WellCut(nal: bytes)
  {
    StartCodeAt(nal, 0) && forall j: nat :: 4 <= j ==> !StartCodeAt(nal, j)
  }

  /** Where the first keyframe is in a run of units, or its length when there is none. */
  function FirstKey(units: seq<bytes>): (k: nat)
    ensures k <= |units|
    ensures forall i :: 0 <= i < k ==> !IsKeyframe(units[i])
    ensures k < |units| ==> IsKeyframe(units[k])
  {
    if units == [] then 0 else if IsKeyframe(units[0]) then 0 else 1 + FirstKey(units[1..])
  }

  lemma {:induction false} PicturesOfAppend(a: seq<bytes>, b: seq<bytes>, base: nat, next: nat, codec: Codec)
    requires next == base + |a|
    ensures PicturesOf(a + b, base, codec) == PicturesOf(a, base, codec) + PicturesOf(b, next, codec)
  {
    if a == [] {
      assert a + b == b;
    } else {
      assert (a + b)[1..] == a[1..] + b;
      PicturesOfAppend(a[1..], b, base + 1, next, codec);
    }
  }

  /** A start code at 0 is the first one found. */
  lemma FirstAtZero(b: bytes)
    requires StartCodeAt(b, 0)
    ensures FindFrom(b, 0) == Some(0)
  {
  }

  /** Counting: the loop only adds units and handed units; the unit counter grows by
      one per unit cut and the frame counter by one per picture. */
  lemma {:induction false} LoopHistory(s: Scan, codec: Codec, resetOk: bool)
    ensures var r := ScanLoop(s, codec, resetOk);
      s.nals <= r.nals && s.fed <= r.fed && s.pictures <= r.pictures
      && r.packets == s.packets + (|r.nals| - |s.nals|)
      && r.frameCount == s.frameCount + (|r.pictures| - |s.pictures|)
    decreases |s.buffer|
  {
    match FindFrom(s.buffer, 0)
    case None =>
    case Some(p) =>
      if p > 0 {
        LoopHistory(s.(buffer := s.buffer[p..]), codec, resetOk);
      } else {
        match FindFrom(s.buffer, 4)
        case None =>
        case Some(e) =>
          var t := TakeNal(s, e, codec, resetOk);
          TakeNalPictures(s, e, codec, resetOk);
          if !t.1 {
            LoopHistory(t.0, codec, resetOk);
          }
      }
  }

  lemma SuffixSplit<T>(a: seq<T>, b: seq<T>, c: seq<T>)
    requires a <= b <= c
    ensures c[|a|..] == b[|a|..] + c[|b|..]
  {
    forall i | 0 <= i < |c| - |a|
      ensures c[|a|..][i] == (b[|a|..] + c[|b|..])[i]
    {
      if i < |b| - |a| {
        assert b[|a| + i] == c[|a| + i];
      }
    }
  }

  lemma PicturesStep(base: nat, next: nat, x: seq<bytes>, y: seq<bytes>,
                     sp: seq<Picture>, up: seq<Picture>, rp: seq<Picture>, codec: Codec)
    requires next == base + |x|
    requires up == sp + PicturesOf(x, base, codec) && rp == up + PicturesOf(y, next, codec)
    ensures rp == sp + PicturesOf(x + y, base, codec)
  {
    PicturesOfAppend(x, y, base, next, codec);
  }

  /** The pictures are the codec's answers for the units handed to it, in order. */
  lemma {:induction false} LoopPictures(s: Scan, codec: Codec, resetOk: bool)
    ensures var r := ScanLoop(s, codec, resetOk);
      s.fed <= r.fed && r.pictures == s.pictures + PicturesOf(r.fed[|s.fed|..], |s.fed|, codec)
    decreases |s.buffer|
  {
    var r := ScanLoop(s, codec, resetOk);
    match FindFrom(s.buffer, 0)
    case None =>
      assert r.fed[|s.fed|..] == [] && r.pictures == s.pictures + [];
    case Some(p) =>
      if p > 0 {
        LoopPictures(s.(buffer := s.buffer[p..]), codec, resetOk);
      } else {
        match FindFrom(s.buffer, 4)
        case None =>
          assert r.fed[|s.fed|..] == [] && r.pictures == s.pictures + [];
        case Some(e) =>
          var t := TakeNal(s, e, codec, resetOk);
          TakeNalPictures(s, e, codec, resetOk);
          if !t.1 {
            LoopPictures(t.0, codec, resetOk);
            SuffixSplit(s.fed, t.0.fed, r.fed);
            PicturesStep(|s.fed|, |t.0.fed|, t.0.fed[|s.fed|..], r.fed[|t.0.fed|..], s.pictures, t.0.pictures, r.pictures, codec);
          }
      }
  }

  lemma ShapeStep(whole: bytes, nal: bytes, after: bytes, left: bytes,
                  sn: seq<bytes>, un: seq<bytes>, rn: seq<bytes>)
    requires whole == nal + after && un == sn + [nal] && un <= rn
    requires after == Concat(rn[|un|..]) + left
    ensures sn <= rn && whole == Concat(rn[|sn|..]) + left
  {
    SuffixSplit(sn, un, rn);
    var rest := rn[|un|..];
    assert un[|sn|..] == [nal];
    assert rn[|sn|..] == [nal] + rest;
    assert ([nal] + rest)[1..] == rest;
  }

  /** A unit cut at the first start code after the one at 0 is well cut, and what stays
      begins with a start code. */
  lemma CutIsWell(b: bytes, e: nat)
    requires StartCodeAt(b, 0) && FindFrom(b, 4) == Some(e)
    ensures WellCut(b[..e]) && FindFrom(b[e..], 0) == Some(0)
  {
    var nal := b[..e];
    assert nal[0..4] == b[0..4];
    forall j: nat | 4 <= j
      ensures !StartCodeAt(nal, j)
    {
      if j + 4 <= e {
        assert !StartCodeAt(b, j);
        assert nal[j..j + 4] == b[j..j + 4];
      }
    }
    assert b[e..][0..4] == b[e..e + 4];
    FirstAtZero(b[e..]);
  }

  /** Shape from a buffer that begins with a start code: the buffer is the units cut,
      then what stays buffered, which begins with a start code. */
  lemma {:induction false} LoopShapeAtStart(s: Scan, codec: Codec, resetOk: bool)
    requires FindFrom(s.buffer, 0) == Some(0)
    ensures var r := ScanLoop(s, codec, resetOk);
      s.nals <= r.nals && s.buffer == Concat(r.nals[|s.nals|..]) + r.buffer && StartCodeAt(r.buffer, 0)
    decreases |s.buffer|
  {
    var r := ScanLoop(s, codec, resetOk);
    match FindFrom(s.buffer, 4)
    case None =>
      assert r == s;
      assert r.nals[|s.nals|..] == [];
      assert s.buffer == Concat([]) + r.buffer;
    case Some(e) =>
      var t := TakeNal(s, e, codec, resetOk);
      var nal := s.buffer[..e];
      var u := t.0;
      CutIsWell(s.buffer, e);
      assert s.buffer == nal + u.buffer;
      if t.1 {
        assert u.nals[|u.nals|..] == [];
        assert u.buffer == Concat([]) + u.buffer;
        ShapeStep(s.buffer, nal, u.buffer, u.buffer, s.nals, u.nals, u.nals);
      } else {
        LoopShapeAtStart(u, codec, resetOk);
        ShapeStep(s.buffer, nal, u.buffer, r.buffer, s.nals, u.nals, r.nals);
      }
  }

  /** The bytes before the first start code are dropped and the loop goes on from it. */
  lemma SkipGarbage(s: Scan, p: nat, codec: Codec, resetOk: bool)
    requires FindFrom(s.buffer, 0) == Some(p)
    ensures p <= |s.buffer| && FindFrom(s.buffer[p..], 0) == Some(0)
    ensures ScanLoop(s, codec, resetOk) == ScanLoop(s.(buffer := s.buffer[p..]), codec, resetOk)
  {
    assert s.buffer[p..][0..4] == s.buffer[p..p + 4];
    FirstAtZero(s.buffer[p..]);
    if p == 0 {
      assert s.(buffer := s.buffer[p..]) == s;
    }
  }

  /** Shape: once the buffer holds a start code, first at p, the buffer is the bytes
      before it, then the units cut, then what stays buffered, which begins with a start
      code. (Without one, only the tail is kept.) */
  lemma LoopShape(s: Scan, p: nat, codec: Codec, resetOk: bool)
    requires FindFrom(s.buffer, 0) == Some(p)
    ensures var r := ScanLoop(s, codec, resetOk);
      s.nals <= r.nals && s.buffer == s.buffer[..p] + Concat(r.nals[|s.nals|..]) + r.buffer
      && StartCodeAt(r.buffer, 0)
  {
    var s1 := s.(buffer := s.buffer[p..]);
    SkipGarbage(s, p, codec, resetOk);
    LoopShapeAtStart(s1, codec, resetOk);
    var r := ScanLoop(s1, codec, resetOk);
    Regroup(s.buffer, p, Concat(r.nals[|s.nals|..]), r.buffer);
  }

  lemma Regroup(whole: bytes, p: nat, cut: bytes, left: bytes)
    requires p <= |whole| && whole[p..] == cut + left
    ensures whole == whole[..p] + cut + left
  {
    assert whole == whole[..p] + whole[p..];
  }

  /** Every unit cut runs from its start code to just before the next one. */
  lemma {:induction false} LoopCuts(s: Scan, codec: Codec, resetOk: bool)
    ensures var r := ScanLoop(s, codec, resetOk);
      s.nals <= r.nals && forall k :: |s.nals| <= k < |r.nals| ==> WellCut(r.nals[k])
    decreases |s.buffer|
  {
    match FindFrom(s.buffer, 0)
    case None =>
    case Some(p) =>
      if p > 0 {
        LoopCuts(s.(buffer := s.buffer[p..]), codec, resetOk);
      } else {
        match FindFrom(s.buffer, 4)
        case None =>
        case Some(e) =>
          var t := TakeNal(s, e, codec, resetOk);
          CutIsWell(s.buffer, e);
          if !t.1 {
            LoopCuts(t.0, codec, resetOk);
          }
      }
  }

  lemma GatingSkip(nal: bytes, restFed: seq<bytes>, restCut: seq<bytes>)
    requires !IsKeyframe(nal) && restFed == restCut[FirstKey(restCut)..]
    ensures restFed == ([nal] + restCut)[FirstKey([nal] + restCut)..]
  {
    assert ([nal] + restCut)[1..] == restCut;
  }

  lemma GatingFeed(waiting: bool, nal: bytes, restFed: seq<bytes>, restCut: seq<bytes>)
    requires (waiting ==> IsKeyframe(nal)) && restFed == restCut
    ensures [nal] + restFed == (if waiting then ([nal] + restCut)[FirstKey([nal] + restCut)..] else [nal] + restCut)
  {
  }

  /** Keyframe gating: units reach the codec in the order cut; while the decoder waits
      for a keyframe, the units before the first keyframe are dropped and that keyframe
      is the first unit handed over. */
  lemma {:induction false} LoopGating(s: Scan, codec: Codec, resetOk: bool)
    ensures var r := ScanLoop(s, codec, resetOk);
      s.nals <= r.nals && s.fed <= r.fed
      && r.fed[|s.fed|..] == (if s.waiting then r.nals[|s.nals|..][FirstKey(r.nals[|s.nals|..])..] else r.nals[|s.nals|..])
    decreases |s.buffer|
  {
    var r := ScanLoop(s, codec, resetOk);
    match FindFrom(s.buffer, 0)
    case None =>
      assert r.fed[|s.fed|..] == [] && r.nals[|s.nals|..] == [];
    case Some(p) =>
      if p > 0 {
        LoopGating(s.(buffer := s.buffer[p..]), codec, resetOk);
      } else {
        match FindFrom(s.buffer, 4)
        case None =>
          assert r.fed[|s.fed|..] == [] && r.nals[|s.nals|..] == [];
        case Some(e) =>
          var t := TakeNal(s, e, codec, resetOk);
          TakeNalGate(s, e, codec, resetOk);
          var nal := s.buffer[..e];
          if t.1 {
            assert r.nals[|s.nals|..] == [nal];
            assert r.fed[|s.fed|..] == [nal] + [];
            GatingFeed(s.waiting, nal, [], []);
          } else {
            var u := t.0;
            LoopGating(u, codec, resetOk);
            SuffixSplit(s.nals, u.nals, r.nals);
            SuffixSplit(s.fed, u.fed, r.fed);
            assert u.nals[|s.nals|..] == [nal];
            if u.fed == s.fed {
              assert u.fed[|s.fed|..] == [];
              GatingSkip(nal, r.fed[|u.fed|..], r.nals[|u.nals|..]);
            } else {
              assert u.fed[|s.fed|..] == [nal];
              GatingFeed(s.waiting, nal, r.fed[|u.fed|..], r.nals[|u.nals|..]);
            }
          }
      }
  }

  lemma StartCodeShift(x: bytes, y: bytes, k: nat, i: nat)
    requires k <= |y| && x == y[k..] && k <= i && StartCodeAt(y, i)
    ensures StartCodeAt(x, i - k)
  {
    assert x[i - k..i - k + 4] == y[i..i + 4];
  }

  lemma StartCodeInPrefix(b: bytes, d: bytes, i: nat)
    requires StartCodeAt(b + d, i) && i + 4 <= |b|
    ensures StartCodeAt(b, i)
  {
    assert (b + d)[i..i + 4] == b[i..i + 4];
  }

  /** With no start code in the buffer, a start code that a later input completes is
      still found in what was kept. */
  lemma KeptTailFindsSplitCode(b: bytes, d: bytes, i: nat)
    requires FindFrom(b, 0).None? && StartCodeAt(b + d, i)
    ensures |b| - |KeepTail(b)| <= i
    ensures StartCodeAt(KeepTail(b) + d, i - (|b| - |KeepTail(b)|))
  {
    NoCodeInBuffer(b, d, i);
    KeepTailShift(b, d);
    StartCodeShift(KeepTail(b) + d, b + d, |b| - |KeepTail(b)|, i);
  }

  /** A start code found after new input arrived ends past the old buffer. */
  lemma NoCodeInBuffer(b: bytes, d: bytes, i: nat)
    requires FindFrom(b, 0).None? && StartCodeAt(b + d, i)
    ensures |b| < i + 4
  {
    if i + 4 <= |b| {
      StartCodeInPrefix(b, d, i);
    }
  }

  /** The kept tail followed by new input is the whole input with the dropped front cut. */
  lemma KeepTailShift(b: bytes, d: bytes)
    ensures KeepTail(b) + d == (b + d)[|b| - |KeepTail(b)|..]
  {
  }

  /** The packed frames of a run of pictures, in order. */
  function PackAll(pictures: seq<FitPicture>): (r: seq<YuvFrame>)
    ensures |r| == |pictures|
  {
    if pictures == [] then []
    else PackAll(pictures[..|pictures| - 1]) + [FrameOf(pictures[|pictures| - 1])]
  }

  lemma PackAllAt(pictures: seq<FitPicture>, i: nat)
    requires i < |pictures|
    ensures PackAll(pictures)[i] == FrameOf(pictures[i])
    decreases |pictures|
  {
    if i < |pictures| - 1 {
      PackAllAt(pictures[..|pictures| - 1], i);
    }
  }

  class Decoder {
    var buffer: bytes
    var packetCount: nat
    var frameCount: nat
    var waitingForKeyframe: bool
    /** The units handed to the codec, in order. */
    var fed: seq<bytes>
    ghost var nals: seq<bytes>

    ghost function State(pictures: seq<Picture>): Scan
      reads this
    {
      Scan(buffer, packetCount, frameCount, waitingForKeyframe, fed, pictures, nals)
    }

    constructor ()
      ensures buffer == [] && packetCount == 0 && frameCount == 0 && !waitingForKeyframe
      ensures fed == [] && nals == []
    {
      buffer, packetCount, frameCount, waitingForKeyframe, fed, nals := [], 0, 0, false, [], [];
    }

    /** `decode_nal`: the codec's answer for the unit, and the packed frame when it
        gave a picture. */
    method DecodeNal(nal: bytes, codec: Codec) returns (frame: Option<YuvFrame>, failed: bool)
      modifies this
      ensures fed == old(fed) + [nal]
      ensures failed <==> codec(|old(fed)|, nal).Failed?
      ensures frame.Some? <==> codec(|old(fed)|, nal).Decoded?
      ensures frame.Some? ==> frame.value == FrameOf(codec(|old(fed)|, nal).pic)
      ensures frameCount == old(frameCount) + (if frame.Some? then 1 else 0)
      ensures buffer == old(buffer) && packetCount == old(packetCount)
      ensures waitingForKeyframe == old(waitingForKeyframe) && nals == old(nals)
    {
      var outcome := codec(|fed|, nal);
      fed := fed + [nal];
      frame, failed := None, false;
      match outcome {
        case Failed => failed := true;
        case NeedMore =>
        case Decoded(p) =>
          frameCount := frameCount + 1;
          var y := PackPlane(p.y, p.yStride, p.width, p.height);
          var u := PackPlane(p.u, p.uStride, p.width / 2, p.height / 2);
          var v := PackPlane(p.v, p.uStride, p.width / 2, p.height / 2);
          frame := Some(YuvFrame(p.width, p.height, y, u, v, p.width, p.width / 2));
      }
    }

    /** The codec call and the failure handling for a unit that passed the gate. */
    method FeedUnit(nal: bytes, codec: Codec, resetOk: bool, ghost pictures: seq<FitPicture>, frames: seq<YuvFrame>)
      returns (ghost morePictures: seq<FitPicture>, more: seq<YuvFrame>, stop: bool)
      requires frames == PackAll(pictures)
      modifies this
      ensures (State(morePictures), stop) == Feed(old(State(pictures)), nal, codec, resetOk)
      ensures more == PackAll(morePictures)
    {
      morePictures, more, stop := pictures, frames, false;
      waitingForKeyframe := false;
      var frame, failed := DecodeNal(nal, codec);
      if failed {
        if packetCount % 50 == 0 {
          if resetOk {
            waitingForKeyframe := true;
          }
          stop := true;
        }
      } else if frame.Some? {
        morePictures := pictures + [codec(|fed| - 1, nal).pic];
        more := frames + [frame.value];
        assert morePictures[..|pictures|] == pictures;
      }
    }

    /** The body of the loop once a unit lies between the start code at 0 and the one
        at e. */
    method TakeUnit(e: nat, codec: Codec, resetOk: bool, ghost pictures: seq<FitPicture>, frames: seq<YuvFrame>)
      returns (ghost morePictures: seq<FitPicture>, more: seq<YuvFrame>, stop: bool)
      requires 4 <= e <= |buffer| && frames == PackAll(pictures)
      modifies this
      ensures (State(morePictures), stop) == TakeNal(old(State(pictures)), e, codec, resetOk)
      ensures more == PackAll(morePictures)
    {
      ghost var s := State(pictures);
      morePictures, more, stop := pictures, frames, false;
      var nal := buffer[..e];
      buffer := buffer[e..];
      packetCount := packetCount + 1;
      nals := nals + [nal];
      ghost var t := s.(buffer := s.buffer[e..], packets := s.packets + 1, nals := s.nals + [nal]);
      assert State(pictures) == t;
      if waitingForKeyframe && !IsKeyframe(nal) {
        return;
      }
      morePictures, more, stop := FeedUnit(nal, codec, resetOk, pictures, frames);
    }

    /** `decode`, without the clock-driven watchdog: `codec` answers the units and
        `resetOk` says whether re-creating the codec succeeds. The frames returned are
        the packed pictures of the splitter's specification. */
    method Decode(data: bytes, codec: Codec, resetOk: bool) returns (frames: seq<YuvFrame>, ghost pictures: seq<FitPicture>)
      modifies this
      ensures State(pictures) == DecodeSpec(old(State([])), data, codec, resetOk)
      ensures frames == PackAll(pictures)
    {
      frames, pictures := [], [];
      buffer := buffer + data;
      if |buffer| > MAX_BUFFER_SIZE {
        if resetOk {
          waitingForKeyframe := true;
        }
        buffer := buffer[|buffer| - OVERFLOW_KEEP..];
        return;
      }
      ghost var target := ScanLoop(State(pictures), codec, resetOk);
      while true
        invariant ScanLoop(State(pictures), codec, resetOk) == target
        invariant frames == PackAll(pictures)
        decreases |buffer|
      {
        var start := FindFrom(buffer, 0);
        if start.None? {
          if |buffer| > 3 {
            buffer := buffer[|buffer| - 3..];
          }
          break;
        }
        if start.value > 0 {
          buffer := buffer[start.value..];
          continue;
        }
        var next := FindFrom(buffer, 4);
        if next.None? {
          break;
        }
        var morePictures, more, stop := TakeUnit(next.value, codec, resetOk, pictures, frames);
        pictures, frames := morePictures, more;
        if stop {
          break;
        }
      }
    }
  }
}
