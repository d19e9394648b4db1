/**
 * The untiled branch of im2col_general_device (taken when NUM_IM_BLKS == 1
 * and STRIDE_GT_1 == 0): work group gid stages its NUM_CH_PER_WG whole
 * planes into a 256-slot local buffer, one slot per thread, then each
 * thread handles one output position of one plane (THREADS_PER_CH =
 * 256 / NUM_CH_PER_WG threads per plane) and writes its whole window.
 *
 * The read of the staged image is `local_im[witem_ch*h*w + im_off_h*h +
 * im_off_w]`: rows h apart, although the image is stored with rows w apart.
 * The row stride is therefore a parameter rs here; the kernel as written
 * passes h, and only rs == w reproduces direct im2col.
 */
module Im2colUntiled {
  import opened IndexArith
  import opened Im2colIndex

  /** NUM_CH_PER_WG divides the 256 threads evenly. */
  predicate UntiledConfigOk(cfg: Im2colConfig)
  {
    1 <= cfg.chPerWg <= GroupSize && Rem(GroupSize, cfg.chPerWg) == 0
  }

  /** THREADS_PER_CH: the threads that serve one plane. */
  function ThreadsPerCh(cfg: Im2colConfig): (r: int)
    requires UntiledConfigOk(cfg)
    ensures r >= 1 && r * cfg.chPerWg == GroupSize
  {
    var q := Quot(GroupSize, cfg.chPerWg);
    assert q * cfg.chPerWg == GroupSize;
    PositiveFactors(q, cfg.chPerWg);
    q
  }

  /** The first plane of work group gid. */
  function FirstPlane(cfg: Im2colConfig, gid: int): (r: int)
    requires gid >= 0 && cfg.chPerWg >= 0
    ensures r >= 0
  {
    gid * cfg.chPerWg
  }

  /** Work group gid can run: its planes exist, they fit the 256-slot local
      buffer, and reads with row stride rs stay inside a plane. */
  predicate UntiledGroupOk(cfg: Im2colConfig, g: Geometry, s: Source, rs: int, gid: int)
  {
    UntiledConfigOk(cfg) && SourceOk(g, s) && RowStrideOk(g, rs) && gid >= 0
    && FirstPlane(cfg, gid) + cfg.chPerWg <= s.planes
    && cfg.chPerWg * PlaneSize(g) <= GroupSize
  }

  /** Slot i of the group's planes is image element FirstPlane*h*w + i. */
  lemma StagedIndex(cfg: Im2colConfig, g: Geometry, s: Source, rs: int, gid: int, i: int)
    requires UntiledGroupOk(cfg, g, s, rs, gid) && 0 <= i < cfg.chPerWg * PlaneSize(g)
    ensures 0 <= FirstPlane(cfg, gid) * PlaneSize(g) + i < s.planes * PlaneSize(g)
  {
    Distrib(FirstPlane(cfg, gid), cfg.chPerWg, PlaneSize(g));
    MulMono(FirstPlane(cfg, gid) + cfg.chPerWg, s.planes, PlaneSize(g));
  }

  /** The staged buffer: its first NUM_CH_PER_WG*h*w slots hold the group's planes. */
  predicate Staged(cfg: Im2colConfig, g: Geometry, s: Source, rs: int, gid: int, l: seq<int>)
    requires UntiledGroupOk(cfg, g, s, rs, gid)
  {
    |l| == GroupSize
    && forall i | 0 <= i < cfg.chPerWg * PlaneSize(g) ::
         (StagedIndex(cfg, g, s, rs, gid, i);
          l[i] == ImAt(g, s, FirstPlane(cfg, gid) * PlaneSize(g) + i))
  }

  /** The staging step `if(lid < NUM_CH_PER_WG*h*w) local_im[lid] = IM_OFF_GUARD(...)`,
      one thread after the other. Slots past the planes keep what they held. */
  method StageImage(cfg: Im2colConfig, g: Geometry, s: Source, rs: int, gid: int, local: array<int>)
    requires UntiledGroupOk(cfg, g, s, rs, gid) && local.Length == GroupSize
    modifies local
    ensures Staged(cfg, g, s, rs, gid, local[..])
    ensures local[cfg.chPerWg * PlaneSize(g)..] == old(local[..])[cfg.chPerWg * PlaneSize(g)..]
  {
    var n := cfg.chPerWg * PlaneSize(g);
    for lid := 0 to GroupSize
      invariant forall i | 0 <= i < lid && i < n ::
                  (StagedIndex(cfg, g, s, rs, gid, i);
                   local[i] == ImAt(g, s, FirstPlane(cfg, gid) * PlaneSize(g) + i))
      invariant forall i | lid <= i < GroupSize || n <= i < GroupSize :: local[i] == old(local[i])
    {
      if lid < n {
        StagedIndex(cfg, g, s, rs, gid, lid);
        local[lid] := ImAt(g, s, FirstPlane(cfg, gid) * PlaneSize(g) + lid);
      }
    }
  }

  /** The plane and the output position thread lid serves, and whether it
      writes at all (lid % THREADS_PER_CH < out_h*out_w). */
  function LanePlane(cfg: Im2colConfig, gid: int, lid: int): int
    requires UntiledConfigOk(cfg) && gid >= 0
  {
    FirstPlane(cfg, gid) + Quot(lid, ThreadsPerCh(cfg))
  }

  /** Offset o holds a position this work group writes: one of its planes,
      and an output position a thread serves. */
  predicate InGroup(cfg: Im2colConfig, g: Geometry, s: Source, rs: int, gid: int, o: int)
    requires UntiledGroupOk(cfg, g, s, rs, gid) && Positive(g) && o >= 0
  {
    FirstPlane(cfg, gid) <= DecodeCol(g, o).ch < FirstPlane(cfg, gid) + cfg.chPerWg
    && DecodeCol(g, o).inner < ThreadsPerCh(cfg)
  }

  /** The thread that writes such an offset. */
  function LaneOfPos(cfg: Im2colConfig, g: Geometry, s: Source, rs: int, gid: int, o: int): (lid: int)
    requires UntiledGroupOk(cfg, g, s, rs, gid) && Positive(g) && o >= 0 && InGroup(cfg, g, s, rs, gid, o)
    ensures 0 <= lid < GroupSize
  {
    var pos := DecodeCol(g, o);
    OffsetBelow(pos.inner, pos.ch - FirstPlane(cfg, gid), ThreadsPerCh(cfg), cfg.chPerWg);
    (pos.ch - FirstPlane(cfg, gid)) * ThreadsPerCh(cfg) + pos.inner
  }

  /** col after threads 0 .. lane-1 have written their windows, reading rows
      rs apart. */
  function UntiledPartial(cfg: Im2colConfig, g: Geometry, s: Source, rs: int, gid: int, c: seq<int>, lane: int): (r: seq<int>)
    requires UntiledGroupOk(cfg, g, s, rs, gid)
    ensures |r| == |c|
  {
    if !Positive(g) then c else
    seq(|c|, o requires 0 <= o < |c| =>
      if InGroup(cfg, g, s, rs, gid, o) && LaneOfPos(cfg, g, s, rs, gid, o) < lane
      then WindowValue(g, s, rs, DecodeCol(g, o)) else c[o])
  }

  /** col once the whole work group has run: every output position below
      min(THREADS_PER_CH, out_h*out_w) of each of its planes holds its
      window, read with row stride rs; everything else is kept. */
  function UntiledDone(cfg: Im2colConfig, g: Geometry, s: Source, rs: int, gid: int, c: seq<int>): (r: seq<int>)
    requires UntiledGroupOk(cfg, g, s, rs, gid)
    ensures |r| == |c|
  {
    if !Positive(g) then c else
    seq(|c|, o requires 0 <= o < |c| =>
      if InGroup(cfg, g, s, rs, gid, o) then WindowValue(g, s, rs, DecodeCol(g, o)) else c[o])
  }

  /** Thread lid writes exactly the cell (LanePlane, lid % THREADS_PER_CH). */
  lemma NextLane(cfg: Im2colConfig, g: Geometry, s: Source, rs: int, gid: int, c: seq<int>, lid: int)
    requires UntiledGroupOk(cfg, g, s, rs, gid) && Positive(g) && 0 <= lid < GroupSize
    requires Rem(lid, ThreadsPerCh(cfg)) < OutSize(g)
    ensures LanePlane(cfg, gid, lid) < s.planes
    ensures CellPartial(g, s, rs, UntiledPartial(cfg, g, s, rs, gid, c, lid), LanePlane(cfg, gid, lid),
                        Rem(lid, ThreadsPerCh(cfg)), WinSize(g))
            == UntiledPartial(cfg, g, s, rs, gid, c, lid + 1)
  {
    var tpc := ThreadsPerCh(cfg);
    QuotBelow(lid, tpc, cfg.chPerWg);
    forall o | 0 <= o < |c|
      ensures (InGroup(cfg, g, s, rs, gid, o) && LaneOfPos(cfg, g, s, rs, gid, o) == lid)
              <==> (DecodeCol(g, o).ch == LanePlane(cfg, gid, lid) && DecodeCol(g, o).inner == Rem(lid, tpc))
    {
      var pos := DecodeCol(g, o);
      if InGroup(cfg, g, s, rs, gid, o) && LaneOfPos(cfg, g, s, rs, gid, o) == lid {
        QuotRemOf(pos.ch - FirstPlane(cfg, gid), tpc, pos.inner);
      }
    }
  }

  /** A thread whose position is past out_h*out_w writes nothing, and no
      offset belongs to it. */
  lemma IdleLane(cfg: Im2colConfig, g: Geometry, s: Source, rs: int, gid: int, c: seq<int>, lid: int)
    requires UntiledGroupOk(cfg, g, s, rs, gid) && 0 <= lid < GroupSize
    requires !(Rem(lid, ThreadsPerCh(cfg)) < OutSize(g))
    ensures UntiledPartial(cfg, g, s, rs, gid, c, lid) == UntiledPartial(cfg, g, s, rs, gid, c, lid + 1)
  {
    if Positive(g) {
      forall o | 0 <= o < |c| && InGroup(cfg, g, s, rs, gid, o)
        ensures LaneOfPos(cfg, g, s, rs, gid, o) != lid
      {
        var pos := DecodeCol(g, o);
        if LaneOfPos(cfg, g, s, rs, gid, o) == lid {
          QuotRemOf(pos.ch - FirstPlane(cfg, gid), ThreadsPerCh(cfg), pos.inner);
        }
      }
    }
  }

  /** The staged slot a thread reads for an in-image pixel (ih, iw) holds
      image element PixelIndex with row stride rs. */
  lemma UntiledReadIsPixel(cfg: Im2colConfig, g: Geometry, s: Source, rs: int, gid: int, l: seq<int>,
                           witem: int, ih: int, iw: int)
    requires UntiledGroupOk(cfg, g, s, rs, gid) && Staged(cfg, g, s, rs, gid, l)
    requires 0 <= witem < cfg.chPerWg && 0 <= ih < g.h && 0 <= iw < g.w
    ensures FirstPlane(cfg, gid) + witem < s.planes
    ensures 0 <= witem * PlaneSize(g) + ih * rs + iw < GroupSize
    ensures l[witem * PlaneSize(g) + ih * rs + iw]
            == ImAt(g, s, PixelIndex(g, s, rs, FirstPlane(cfg, gid) + witem, ih, iw))
  {
    var fp, ps := FirstPlane(cfg, gid), PlaneSize(g);
    var p := PixelIndex(g, s, rs, fp + witem, ih, iw);
    SlotArith(fp, witem, ps, cfg.chPerWg, ih * rs + iw);
    assert p == fp * ps + (witem * ps + ih * rs + iw);
  }

  /** Slot witem*ps + off of the staged planes is element off of plane
      fp + witem. */
  lemma SlotArith(fp: int, witem: int, ps: int, nch: int, off: int)
    requires fp >= 0 && 0 <= witem < nch && 0 <= off < ps
    ensures fp * ps + (witem * ps + off) == (fp + witem) * ps + off
    ensures 0 <= witem * ps + off < nch * ps
  {
    Distrib(fp, witem, ps);
    OffsetBelow(off, witem, ps, nch);
  }

  /** The body of the window loops of the thread serving output position
      inner of staged plane witem, for window element (y, x): the col offset
      col_y + col_x + (y*wei_w + x)*out_h*out_w, and either
      local_im[witem_ch*h*w + im_off_h*rs + im_off_w] or 0 in the padding. */
  method UntiledElement(cfg: Im2colConfig, g: Geometry, s: Source, rs: int, gid: int, local: array<int>,
                        witem: int, inner: int, y: int, x: int) returns (off: int, v: int)
    requires UntiledGroupOk(cfg, g, s, rs, gid) && Positive(g) && Staged(cfg, g, s, rs, gid, local[..])
    requires 0 <= witem < cfg.chPerWg && 0 <= inner < OutSize(g)
    requires 0 <= y < g.weiH && 0 <= x < g.weiW
    ensures FirstPlane(cfg, gid) + witem < s.planes
    ensures off == ColOffset(g, ColPos(FirstPlane(cfg, gid) + witem, y * g.weiW + x, inner))
    ensures v == WindowValue(g, s, rs, ColPos(FirstPlane(cfg, gid) + witem, y * g.weiW + x, inner))
  {
    var witemChOffset := witem * PlaneSize(g);
    var outX := Rem(inner, g.outW);
    var outY := Quot(inner, g.outW);
    QuotBelow(inner, g.outW, g.outH);
    var colX := outY * g.outW + outX;
    var ch := FirstPlane(cfg, gid) + witem;
    var colY := ch * g.outH * g.outW * g.weiH * g.weiW;
    ColOffsetAsWritten(g, ch, y * g.weiW + x, colX);
    off := colY + colX + (y * g.weiW + x) * g.outH * g.outW;
    WindowValueAt(g, s, rs, ch, y, x, outY, outX);
    var imOffH := outY * g.strideH - g.padH + y;
    var imOffW := outX * g.strideW - g.padW + x;
    if imOffH >= 0 && imOffH < g.h && imOffW >= 0 && imOffW < g.w {
      UntiledReadIsPixel(cfg, g, s, rs, gid, local[..], witem, imOffH, imOffW);
      v := local[witemChOffset + imOffH * rs + imOffW];
    } else {
      v := 0;
    }
  }

  /** One pass of the window loops: write element (y, x) of the window of
      output position inner of staged plane witem. */
  method UntiledWrite(cfg: Im2colConfig, g: Geometry, s: Source, rs: int, gid: int, local: array<int>,
                      col: array<int>, witem: int, inner: int, y: int, x: int, ghost c0: seq<int>)
    requires UntiledGroupOk(cfg, g, s, rs, gid) && Positive(g) && Staged(cfg, g, s, rs, gid, local[..])
    requires local != col && col.Length >= s.planes * ChannelCols(g) && |c0| == col.Length
    requires 0 <= witem < cfg.chPerWg && 0 <= inner < OutSize(g) && 0 <= y < g.weiH && 0 <= x < g.weiW
    requires FirstPlane(cfg, gid) + witem < s.planes
    requires col[..] == CellPartial(g, s, rs, c0, FirstPlane(cfg, gid) + witem, inner, y * g.weiW + x)
    modifies col
    ensures col[..] == CellPartial(g, s, rs, c0, FirstPlane(cfg, gid) + witem, inner, y * g.weiW + x + 1)
  {
    ghost var pos := ColPos(FirstPlane(cfg, gid) + witem, y * g.weiW + x, inner);
    WindowElement(g, y, x);
    var off, v := UntiledElement(cfg, g, s, rs, gid, local, witem, inner, y, x);
    ColOffsetRange(g, s, pos);
    NextCellElement(g, s, rs, c0, pos.ch, inner, pos.k);
    col[off] := v;
  }

  /** The window loops of the thread serving output position inner of
      staged plane witem. */
  method UntiledCell(cfg: Im2colConfig, g: Geometry, s: Source, rs: int, gid: int, local: array<int>,
                     col: array<int>, witem: int, inner: int)
    requires UntiledGroupOk(cfg, g, s, rs, gid) && Staged(cfg, g, s, rs, gid, local[..]) && local != col
    requires 0 <= witem < cfg.chPerWg && 0 <= inner < OutSize(g)
    requires col.Length >= s.planes * ChannelCols(g)
    modifies col
    ensures FirstPlane(cfg, gid) + witem < s.planes
    ensures col[..] == CellPartial(g, s, rs, old(col[..]), FirstPlane(cfg, gid) + witem, inner, WinSize(g))
  {
    ghost var c0 := col[..];
    ghost var l0 := local[..];
    ghost var ch := FirstPlane(cfg, gid) + witem;
    assert g.weiH * g.weiW == WinSize(g);
    OutSizePositive(g);
    for y := 0 to g.weiH
      invariant col[..] == CellPartial(g, s, rs, c0, ch, inner, y * g.weiW)
      invariant local[..] == l0
    {
      ghost var rowStart := y * g.weiW;
      for x := 0 to g.weiW
        invariant col[..] == CellPartial(g, s, rs, c0, ch, inner, rowStart + x)
        invariant local[..] == l0
      {
        assert Positive(g);
        UntiledWrite(cfg, g, s, rs, gid, local, col, witem, inner, y, x, c0);
      }
      assert rowStart + g.weiW == (y + 1) * g.weiW;
    }
  }

  /** One work group of the untiled branch: stage the planes, then let each
      thread lid (serving plane lid / THREADS_PER_CH at output position
      lid % THREADS_PER_CH) write its window. */
  method UntiledWorkGroup(cfg: Im2colConfig, g: Geometry, s: Source, rs: int, gid: int, col: array<int>)
    requires UntiledGroupOk(cfg, g, s, rs, gid) && col.Length >= s.planes * ChannelCols(g)
    modifies col
    ensures col[..] == UntiledDone(cfg, g, s, rs, gid, old(col[..]))
  {
    ghost var c0 := col[..];
    var local := new int[GroupSize];
    StageImage(cfg, g, s, rs, gid, local);
    for lid := 0 to GroupSize
      invariant col[..] == UntiledPartial(cfg, g, s, rs, gid, c0, lid)
      invariant Staged(cfg, g, s, rs, gid, local[..])
    {
      var witemCh := Quot(lid, ThreadsPerCh(cfg));
      var innerLid := Rem(lid, ThreadsPerCh(cfg));
      if innerLid < OutSize(g) {
        QuotBelow(lid, ThreadsPerCh(cfg), cfg.chPerWg);
        UntiledCell(cfg, g, s, rs, gid, local, col, witemCh, innerLid);
        if Positive(g) {
          NextLane(cfg, g, s, rs, gid, c0, lid);
        }
      } else {
        IdleLane(cfg, g, s, rs, gid, c0, lid);
      }
    }
  }

  /** For a square image the stride the kernel uses, h, is the storage
      stride w, so the branch as written computes direct im2col there. */
  lemma SquareImageIsDirect(cfg: Im2colConfig, g: Geometry, s: Source, gid: int, c: seq<int>, o: int)
    requires g.h == g.w && UntiledGroupOk(cfg, g, s, g.h, gid) && Positive(g)
    requires 0 <= o < |c| && InGroup(cfg, g, s, g.h, gid, o)
    ensures UntiledDone(cfg, g, s, g.h, gid, c)[o] == Direct(g, s, DecodeCol(g, o))
  {
  }

  /** A 2 x 3 image in one plane, a 1 x 1 window, no padding, stride 1. */
  const WideImage := Geometry(2, 3, 1, 1, 2, 3, 0, 0, 1, 1)
  const WideSource := Source([0, 1, 2, 3, 4, 5], 0, 1, 0, false)
  const OnePlanePerGroup := Im2colConfig(1, 1, 1, 0, 1, 1, false)

  lemma WideImageGroup()
    ensures UntiledGroupOk(OnePlanePerGroup, WideImage, WideSource, WideImage.h, 0) && Positive(WideImage)
    ensures ThreadsPerCh(OnePlanePerGroup) == 256
  {
    assert Rem(GroupSize, 1) == 0;
    assert ThreadsPerCh(OnePlanePerGroup) * 1 == 256;
  }

  lemma WideImageDecode()
    ensures Positive(WideImage) && DecodeCol(WideImage, 3) == ColPos(0, 0, 3)
  {
    ColOffsetRoundTrip(WideImage, ColPos(0, 0, 3));
  }

  /** Output position 3 is pixel (1, 0): index 3 with rows w apart, index 2
      with rows h apart. */
  lemma WideImageAt()
    ensures SourceOk(WideImage, WideSource) && PlaneSize(WideImage) == 6
    ensures ImAt(WideImage, WideSource, 2) == 2 && ImAt(WideImage, WideSource, 3) == 3
  {
  }

  /** Output position 3, pixel (1, 0), is image element rs when rows are
      read rs apart: 3 with rows w apart, 2 with rows h apart. */
  lemma WideImageWindow(rs: int)
    requires rs == WideImage.h || rs == WideImage.w
    ensures Positive(WideImage) && SourceOk(WideImage, WideSource) && RowStrideOk(WideImage, rs)
    ensures WindowValue(WideImage, WideSource, rs, ColPos(0, 0, 3)) == rs
  {
    var g, s := WideImage, WideSource;
    assert SourceOk(g, s) && RowStrideOk(g, rs);
    assert g.weiW == 1 && g.outW == 3;
    WindowValueAt(g, s, rs, 0, 0, 0, 1, 0);
    assert ColPos(0, 0 * g.weiW + 0, 1 * g.outW + 0) == ColPos(0, 0, 3);
    assert WindowPixel(g, s, rs, 0, 0, 0, 1, 0) == PaddedPixel(g, s, rs, 0, 1, 0);
    assert PixelIndex(g, s, rs, 0, 1, 0) == rs;
    WideImageAt();
    assert PaddedPixel(g, s, rs, 0, 1, 0) == rs;
  }

  /** The kernel as written reads rows h apart. On the 2 x 3 image, output
      position 3 (row 1, column 0) receives pixel 2 (row 0, column 2)
      where direct im2col places pixel 3. */
  lemma RowStrideHCounterexample()
    ensures UntiledGroupOk(OnePlanePerGroup, WideImage, WideSource, WideImage.h, 0) && Positive(WideImage)
    ensures DecodeCol(WideImage, 3) == ColPos(0, 0, 3)
    ensures WindowValue(WideImage, WideSource, WideImage.h, ColPos(0, 0, 3)) == 2
    ensures Direct(WideImage, WideSource, ColPos(0, 0, 3)) == 3
  {
    WideImageGroup();
    WideImageDecode();
    WideImageWindow(WideImage.h);
    WideImageWindow(WideImage.w);
  }

  /** The same discrepancy on the kernel's output itself: whatever col held
      before, the work group of plane 0 leaves pixel 2 at offset 3, where
      direct im2col (RowStrideHCounterexample) places pixel 3. */
  lemma RowStrideHOutput()
    ensures forall c: seq<int> :: |c| >= 6 ==>
              UntiledDone(OnePlanePerGroup, WideImage, WideSource, WideImage.h, 0, c)[3] == 2
  {
    forall c: seq<int> | |c| >= 6
      ensures UntiledDone(OnePlanePerGroup, WideImage, WideSource, WideImage.h, 0, c)[3] == 2
    {
      WideImageOutput(c);
    }
  }

  /** Offset 3 of the output for one col. */
  lemma WideImageOutput(c: seq<int>)
    requires |c| >= 6
    ensures UntiledDone(OnePlanePerGroup, WideImage, WideSource, WideImage.h, 0, c)[3] == 2
  {
    WideImageGroup();
    WideImageDecode();
    WideImageWindow(WideImage.h);
    OnePlaneGroupAt(OnePlanePerGroup, WideImage, WideSource, WideImage.h, 0, c, 3);
  }

  /** With one plane per work group every output position of plane gid
      below 256 has a thread, so the group leaves the window read with
      row stride rs there. */
  lemma OnePlaneGroupAt(cfg: Im2colConfig, g: Geometry, s: Source, rs: int, gid: int, c: seq<int>, o: int)
    requires UntiledGroupOk(cfg, g, s, rs, gid) && Positive(g) && cfg.chPerWg == 1
    requires 0 <= o < |c| && DecodeCol(g, o).ch == gid && DecodeCol(g, o).inner < GroupSize
    ensures InGroup(cfg, g, s, rs, gid, o)
    ensures UntiledDone(cfg, g, s, rs, gid, c)[o] == WindowValue(g, s, rs, DecodeCol(g, o))
  {
    assert ThreadsPerCh(cfg) * 1 == GroupSize;
  }

  /** With the storage stride w, the stride the image is written with, the
      work group writes direct im2col at every position it serves and
      leaves every other entry of col as it was. */
  lemma StorageStrideIsDirect(cfg: Im2colConfig, g: Geometry, s: Source, gid: int, c: seq<int>, o: int)
    requires UntiledGroupOk(cfg, g, s, g.w, gid) && 0 <= o < |c|
    ensures Positive(g) && InGroup(cfg, g, s, g.w, gid, o) ==>
              UntiledDone(cfg, g, s, g.w, gid, c)[o] == Direct(g, s, DecodeCol(g, o))
    ensures !(Positive(g) && InGroup(cfg, g, s, g.w, gid, o)) ==> UntiledDone(cfg, g, s, g.w, gid, c)[o] == c[o]
  {
  }
}
