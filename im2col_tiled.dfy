/**
 * The tiled branch of im2col_general_device (taken when NUM_IM_BLKS > 1 or
 * STRIDE_GT_1): work group gid owns a TILE_SZ_Y x TILE_SZ_X tile of output
 * positions of one channel plane. Its 256 threads first stage the padded
 * input patch the tile needs into the local buffer (a loop strided by 256
 * over LOCAL_MEM_SIZE slots), then scatter each output position's window
 * into col (a second loop strided by 256 over the tile's cells). Threads are
 * run one after the other; the barrier between the phases becomes sequencing.
 */
module Im2colTiled {
  import opened IndexArith
  import opened Im2colIndex

  /** im_cols_wg: the width of the staged patch, TILE_SZ_X*stride_w + wei_w. */
  function TileCols(cfg: Im2colConfig, g: Geometry): int
  {
    cfg.tileX * g.strideW + g.weiW
  }

  /** What the branch needs of its compile-time parameters: positive block
      counts and tile sizes, a patch at least one element wide (the branch
      divides by it) and a local buffer of at least lds_size elements. */
  predicate TiledConfigOk(cfg: Im2colConfig, g: Geometry)
  {
    GeometryOk(g) && cfg.imBlks >= 1 && cfg.imBlksX >= 1 && cfg.tileX >= 1 && cfg.tileY >= 1
    && TileCols(cfg, g) >= 1 && cfg.localMemSize >= LdsSize(cfg.tileX, cfg.tileY, g)
  }

  /** wg_ch: the plane of work group gid. */
  function WgChannel(cfg: Im2colConfig, gid: int): (r: int)
    requires cfg.imBlks >= 1 && gid >= 0
    ensures r >= 0
  {
    Quot(gid, cfg.imBlks)
  }

  /** im_x, im_y: the output column and row where the tile of gid starts. */
  function TileX(cfg: Im2colConfig, gid: int): (r: int)
    requires cfg.imBlks >= 1 && cfg.imBlksX >= 1 && cfg.tileX >= 1
    ensures r >= 0
  {
    MulMono(0, Rem(Rem(gid, cfg.imBlks), cfg.imBlksX), cfg.tileX);
    Rem(Rem(gid, cfg.imBlks), cfg.imBlksX) * cfg.tileX
  }

  function TileY(cfg: Im2colConfig, gid: int): (r: int)
    requires cfg.imBlks >= 1 && cfg.imBlksX >= 1 && cfg.tileY >= 1
    ensures r >= 0
  {
    MulMono(0, Quot(Rem(gid, cfg.imBlks), cfg.imBlksX), cfg.tileY);
    Quot(Rem(gid, cfg.imBlks), cfg.imBlksX) * cfg.tileY
  }

  /** Work group gid can run: its plane exists and its tile starts inside
      (or at the edge of) the output. */
  predicate GroupOk(cfg: Im2colConfig, g: Geometry, s: Source, gid: int)
  {
    TiledConfigOk(cfg, g) && SourceOk(g, s) && gid >= 0 && WgChannel(cfg, gid) < s.planes
    && TileX(cfg, gid) <= g.outW && TileY(cfg, gid) <= g.outH
  }

  /** out_cols_wg: the tile is TILE_SZ_X wide unless it is cut off by the
      right edge of the output. */
  function OutColsWg(cfg: Im2colConfig, g: Geometry, gid: int): (r: int)
    requires TiledConfigOk(cfg, g) && TileX(cfg, gid) <= g.outW
    ensures 0 <= r <= cfg.tileX && TileX(cfg, gid) + r <= g.outW
    ensures r == cfg.tileX || TileX(cfg, gid) + r == g.outW
  {
    if TileX(cfg, gid) + cfg.tileX <= g.outW then cfg.tileX else g.outW - TileX(cfg, gid)
  }

  /** out_rows_wg, likewise against the bottom edge. */
  function OutRowsWg(cfg: Im2colConfig, g: Geometry, gid: int): (r: int)
    requires TiledConfigOk(cfg, g) && TileY(cfg, gid) <= g.outH
    ensures 0 <= r <= cfg.tileY && TileY(cfg, gid) + r <= g.outH
    ensures r == cfg.tileY || TileY(cfg, gid) + r == g.outH
  {
    if TileY(cfg, gid) + cfg.tileY <= g.outH then cfg.tileY else g.outH - TileY(cfg, gid)
  }

  /** Cells of the tile. */
  function TileCells(cfg: Im2colConfig, g: Geometry, gid: int): (r: int)
    requires TiledConfigOk(cfg, g) && TileX(cfg, gid) <= g.outW && TileY(cfg, gid) <= g.outH
    ensures r >= 0
  {
    MulMono(0, OutColsWg(cfg, g, gid), OutRowsWg(cfg, g, gid));
    OutColsWg(cfg, g, gid) * OutRowsWg(cfg, g, gid)
  }

  // ---------------------------------------------------------------------
  // Staging

  /** The value staged at local slot i = row*im_cols_wg + col: pixel
      (im_y*stride_h + row - pad_h, im_x*stride_w + col - pad_w) of plane
      wg_ch, or 0 when that falls outside the image. */
  function StageValue(cfg: Im2colConfig, g: Geometry, s: Source, gid: int, i: int): int
    requires GroupOk(cfg, g, s, gid)
  {
    var row := Quot(i, TileCols(cfg, g));
    var col := Rem(i, TileCols(cfg, g));
    PaddedPixel(g, s, g.w, WgChannel(cfg, gid),
                TileY(cfg, gid) * g.strideH + row - g.padH, TileX(cfg, gid) * g.strideW + col - g.padW)
  }

  /** The local buffer once staging is complete. */
  function StagedTile(cfg: Im2colConfig, g: Geometry, s: Source, gid: int): (r: seq<int>)
    requires GroupOk(cfg, g, s, gid)
    ensures |r| == cfg.localMemSize
  {
    seq(cfg.localMemSize, i requires 0 <= i < cfg.localMemSize => StageValue(cfg, g, s, gid, i))
  }

  /** The local buffer after threads 0 .. lane-1 have staged all their slots
      and thread `lane` those below `bound`. */
  function StagePartial(cfg: Im2colConfig, g: Geometry, s: Source, gid: int, c: seq<int>, lane: int, bound: int): (r: seq<int>)
    requires GroupOk(cfg, g, s, gid)
    ensures |r| == |c|
  {
    seq(|c|, i requires 0 <= i < |c| =>
      if Rem(i, GroupSize) < lane || (Rem(i, GroupSize) == lane && i < bound)
      then StageValue(cfg, g, s, gid, i) else c[i])
  }

  /** Staging slot i, the next one of its thread, extends the thread's work by one stride. */
  lemma NextStaged(cfg: Im2colConfig, g: Geometry, s: Source, gid: int, c: seq<int>, lane: int, i: int)
    requires GroupOk(cfg, g, s, gid) && 0 <= lane < GroupSize && 0 <= i < |c| && Rem(i, GroupSize) == lane
    ensures StagePartial(cfg, g, s, gid, c, lane, i)[i := StageValue(cfg, g, s, gid, i)]
            == StagePartial(cfg, g, s, gid, c, lane, i + GroupSize)
  {
    forall j | 0 <= j < |c| && Rem(j, GroupSize) == lane && i <= j < i + GroupSize
      ensures j == i
    {
      StrideStep(j, i, GroupSize);
    }
  }

  /** A thread whose index has passed the buffer is done. */
  lemma StageLaneDone(cfg: Im2colConfig, g: Geometry, s: Source, gid: int, c: seq<int>, lane: int, i: int)
    requires GroupOk(cfg, g, s, gid) && i >= |c|
    ensures StagePartial(cfg, g, s, gid, c, lane, i) == StagePartial(cfg, g, s, gid, c, lane + 1, 0)
  {
  }

  /** All 256 threads together stage every slot. */
  lemma StageComplete(cfg: Im2colConfig, g: Geometry, s: Source, gid: int, c: seq<int>)
    requires GroupOk(cfg, g, s, gid) && |c| == cfg.localMemSize
    ensures StagePartial(cfg, g, s, gid, c, GroupSize, 0) == StagedTile(cfg, g, s, gid)
  {
  }

  /** The body of the staging loop for slot inner_lid: it splits the slot
      into patch row and column, and loads the pixel there or 0 in the
      padding. The slot it writes is inner_lid itself. */
  method StageSlot(cfg: Im2colConfig, g: Geometry, s: Source, gid: int, innerLid: int) returns (lmOffset: int, v: int)
    requires GroupOk(cfg, g, s, gid) && innerLid >= 0
    ensures lmOffset == innerLid
    ensures v == StageValue(cfg, g, s, gid, innerLid)
  {
    var wgCh := WgChannel(cfg, gid);
    var imX := TileX(cfg, gid);
    var imY := TileY(cfg, gid);
    var imColsWg := TileCols(cfg, g);
    var rowToUse := Quot(innerLid, imColsWg);
    var colToUse := Rem(innerLid, imColsWg);
    lmOffset := rowToUse * imColsWg + colToUse;
    if imY * g.strideH + rowToUse >= g.padH && imY * g.strideH + rowToUse < g.h + g.padH
       && imX * g.strideW + colToUse >= g.padW && imX * g.strideW + colToUse < g.w + g.padW
    {
      var imOffH := imY * g.strideH + rowToUse - g.padH;
      var imOffW := imX * g.strideW + colToUse - g.padW;
      v := ImAt(g, s, PixelIndex(g, s, g.w, wgCh, imOffH, imOffW));
    } else {
      v := 0;
    }
  }

  /** The staging loop `inner_lid = lid; inner_lid < LOCAL_MEM_SIZE; inner_lid += 256`. */
  method StageTile(cfg: Im2colConfig, g: Geometry, s: Source, gid: int, local: array<int>)
    requires GroupOk(cfg, g, s, gid) && local.Length == cfg.localMemSize
    modifies local
    ensures local[..] == StagedTile(cfg, g, s, gid)
  {
    ghost var c0 := local[..];
    for lid := 0 to GroupSize
      invariant local[..] == StagePartial(cfg, g, s, gid, c0, lid, 0)
    {
      var innerLid := lid;
      FirstLane(lid, GroupSize);
      while innerLid < cfg.localMemSize
        invariant innerLid >= 0 && Rem(innerLid, GroupSize) == lid
        invariant local[..] == StagePartial(cfg, g, s, gid, c0, lid, innerLid)
        decreases cfg.localMemSize - innerLid
      {
        var lmOffset, v := StageSlot(cfg, g, s, gid, innerLid);
        local[lmOffset] := v;
        NextStaged(cfg, g, s, gid, c0, lid, innerLid);
        StrideResidue(innerLid, GroupSize);
        innerLid := innerLid + GroupSize;
      }
      StageLaneDone(cfg, g, s, gid, c0, lid, innerLid);
    }
    StageComplete(cfg, g, s, gid, c0);
  }

  // ---------------------------------------------------------------------
  // Scatter

  /** Offset o of col holds a position of this work group's tile. */
  predicate InTile(cfg: Im2colConfig, g: Geometry, s: Source, gid: int, o: int)
    requires GroupOk(cfg, g, s, gid) && Positive(g) && o >= 0
  {
    var pos := DecodeCol(g, o);
    var oy := Quot(pos.inner, g.outW);
    var ox := Rem(pos.inner, g.outW);
    pos.ch == WgChannel(cfg, gid)
    && TileY(cfg, gid) <= oy < TileY(cfg, gid) + OutRowsWg(cfg, g, gid)
    && TileX(cfg, gid) <= ox < TileX(cfg, gid) + OutColsWg(cfg, g, gid)
  }

  /** The tile cell (inner_lid of the scatter loop) of such an offset. */
  function TileIndexOf(cfg: Im2colConfig, g: Geometry, s: Source, gid: int, o: int): (t: int)
    requires GroupOk(cfg, g, s, gid) && Positive(g) && o >= 0 && InTile(cfg, g, s, gid, o)
    ensures 0 <= t < TileCells(cfg, g, gid)
  {
    var inner := DecodeCol(g, o).inner;
    var a := Quot(inner, g.outW) - TileY(cfg, gid);
    var b := Rem(inner, g.outW) - TileX(cfg, gid);
    OffsetBelow(b, a, OutColsWg(cfg, g, gid), OutRowsWg(cfg, g, gid));
    a * OutColsWg(cfg, g, gid) + b
  }

  /** col_x: the output position (im_y + out_y)*out_w + im_x + out_x of tile cell t. */
  function TileInner(cfg: Im2colConfig, g: Geometry, gid: int, t: int): (inner: int)
    requires TiledConfigOk(cfg, g) && TileX(cfg, gid) <= g.outW && TileY(cfg, gid) <= g.outH
    requires 0 <= t < TileCells(cfg, g, gid)
    ensures 0 <= inner < OutSize(g)
  {
    var ocw := OutColsWg(cfg, g, gid);
    PositiveFactors(ocw, OutRowsWg(cfg, g, gid));
    var oy := Quot(t, ocw);
    var ox := Rem(t, ocw);
    QuotBelow(t, ocw, OutRowsWg(cfg, g, gid));
    OutputPosition(g, TileY(cfg, gid) + oy, TileX(cfg, gid) + ox);
    (TileY(cfg, gid) + oy) * g.outW + TileX(cfg, gid) + ox
  }

  /** Tile cells and output positions of the tile correspond one to one. */
  lemma TileCellIff(cfg: Im2colConfig, g: Geometry, s: Source, gid: int, o: int, t: int)
    requires GroupOk(cfg, g, s, gid) && Positive(g) && o >= 0 && 0 <= t < TileCells(cfg, g, gid)
    ensures (InTile(cfg, g, s, gid, o) && TileIndexOf(cfg, g, s, gid, o) == t)
            <==> (DecodeCol(g, o).ch == WgChannel(cfg, gid) && DecodeCol(g, o).inner == TileInner(cfg, g, gid, t))
  {
    var ocw := OutColsWg(cfg, g, gid);
    var pos := DecodeCol(g, o);
    var qt, rt := Quot(t, ocw), Rem(t, ocw);
    QuotBelow(t, ocw, OutRowsWg(cfg, g, gid));
    if pos.ch == WgChannel(cfg, gid) && pos.inner == TileInner(cfg, g, gid, t) {
      OutputPosition(g, TileY(cfg, gid) + qt, TileX(cfg, gid) + rt);
    }
    if InTile(cfg, g, s, gid, o) && TileIndexOf(cfg, g, s, gid, o) == t {
      var a := Quot(pos.inner, g.outW) - TileY(cfg, gid);
      var b := Rem(pos.inner, g.outW) - TileX(cfg, gid);
      QuotRemOf(a, ocw, b);
    }
  }

  /** col once the work group has scattered its whole tile: every position
      of the tile holds its direct im2col value, every other entry is kept. */
  function TileDone(cfg: Im2colConfig, g: Geometry, s: Source, gid: int, c: seq<int>): (r: seq<int>)
    requires GroupOk(cfg, g, s, gid)
    ensures |r| == |c|
  {
    if !Positive(g) then c else
    seq(|c|, o requires 0 <= o < |c| =>
      if InTile(cfg, g, s, gid, o) then Direct(g, s, DecodeCol(g, o)) else c[o])
  }

  /** col after threads 0 .. lane-1 have scattered their cells and thread
      `lane` those below `bound`. */
  function TilePartial(cfg: Im2colConfig, g: Geometry, s: Source, gid: int, c: seq<int>, lane: int, bound: int): (r: seq<int>)
    requires GroupOk(cfg, g, s, gid)
    ensures |r| == |c|
  {
    if !Positive(g) then c else
    seq(|c|, o requires 0 <= o < |c| =>
      if InTile(cfg, g, s, gid, o)
         && (Rem(TileIndexOf(cfg, g, s, gid, o), GroupSize) < lane
             || (Rem(TileIndexOf(cfg, g, s, gid, o), GroupSize) == lane && TileIndexOf(cfg, g, s, gid, o) < bound))
      then Direct(g, s, DecodeCol(g, o)) else c[o])
  }

  /** Scattering tile cell t, the next one of its thread, extends the
      thread's work by one stride. */
  lemma NextTileCell(cfg: Im2colConfig, g: Geometry, s: Source, gid: int, c: seq<int>, lane: int, t: int)
    requires GroupOk(cfg, g, s, gid) && 0 <= lane < GroupSize
    requires 0 <= t < TileCells(cfg, g, gid) && Rem(t, GroupSize) == lane
    ensures CellPartial(g, s, g.w, TilePartial(cfg, g, s, gid, c, lane, t), WgChannel(cfg, gid), TileInner(cfg, g, gid, t), WinSize(g))
            == TilePartial(cfg, g, s, gid, c, lane, t + GroupSize)
  {
    if Positive(g) {
      var before := TilePartial(cfg, g, s, gid, c, lane, t);
      forall o | 0 <= o < |c|
        ensures CellPartial(g, s, g.w, before, WgChannel(cfg, gid), TileInner(cfg, g, gid, t), WinSize(g))[o]
                == TilePartial(cfg, g, s, gid, c, lane, t + GroupSize)[o]
      {
        TileCellIff(cfg, g, s, gid, o, t);
        if InTile(cfg, g, s, gid, o) && Rem(TileIndexOf(cfg, g, s, gid, o), GroupSize) == lane
           && t <= TileIndexOf(cfg, g, s, gid, o) < t + GroupSize {
          StrideStep(TileIndexOf(cfg, g, s, gid, o), t, GroupSize);
        }
      }
    }
  }

  lemma TileLaneDone(cfg: Im2colConfig, g: Geometry, s: Source, gid: int, c: seq<int>, lane: int, i: int)
    requires GroupOk(cfg, g, s, gid) && i >= TileCells(cfg, g, gid)
    ensures TilePartial(cfg, g, s, gid, c, lane, i) == TilePartial(cfg, g, s, gid, c, lane + 1, 0)
  {
  }

  lemma TileComplete(cfg: Im2colConfig, g: Geometry, s: Source, gid: int, c: seq<int>)
    requires GroupOk(cfg, g, s, gid)
    ensures TilePartial(cfg, g, s, gid, c, GroupSize, 0) == TileDone(cfg, g, s, gid, c)
    ensures TilePartial(cfg, g, s, gid, c, 0, 0) == c
  {
  }

  /** The tile-relative coordinates (out_y, out_x) of tile cell t. */
  lemma TileCellCoords(cfg: Im2colConfig, g: Geometry, gid: int, t: int)
    requires TiledConfigOk(cfg, g) && TileX(cfg, gid) <= g.outW && TileY(cfg, gid) <= g.outH
    requires 0 <= t < TileCells(cfg, g, gid)
    ensures OutColsWg(cfg, g, gid) >= 1
    ensures 0 <= Quot(t, OutColsWg(cfg, g, gid)) < OutRowsWg(cfg, g, gid)
    ensures 0 <= Rem(t, OutColsWg(cfg, g, gid)) < OutColsWg(cfg, g, gid)
  {
    PositiveFactors(OutColsWg(cfg, g, gid), OutRowsWg(cfg, g, gid));
    QuotBelow(t, OutColsWg(cfg, g, gid), OutRowsWg(cfg, g, gid));
  }

  /** The local slot read for window element (y, x) of tile cell
      (out_y, out_x) is inside the buffer, in patch row out_y*stride_h + y
      and patch column out_x*stride_w + x. */
  lemma TileReadSlot(cfg: Im2colConfig, g: Geometry, outY: int, outX: int, y: int, x: int)
    requires TiledConfigOk(cfg, g) && 0 <= outY < cfg.tileY && 0 <= outX < cfg.tileX
    requires 0 <= y < g.weiH && 0 <= x < g.weiW
    ensures var idx := (outY * g.strideH + y) * TileCols(cfg, g) + outX * g.strideW + x;
            0 <= idx < cfg.localMemSize
            && Quot(idx, TileCols(cfg, g)) == outY * g.strideH + y
            && Rem(idx, TileCols(cfg, g)) == outX * g.strideW + x
  {
    TileReadInLds(cfg.tileX, cfg.tileY, g, outY, outX, y, x);
    TileColumnInRow(cfg.tileX, g, outX, x);
    QuotRemOf(outY * g.strideH + y, TileCols(cfg, g), outX * g.strideW + x);
  }

  /** That slot holds the direct im2col value of the position. */
  lemma TileReadIsDirect(cfg: Im2colConfig, g: Geometry, s: Source, gid: int, t: int, y: int, x: int)
    requires GroupOk(cfg, g, s, gid) && Positive(g) && 0 <= t < TileCells(cfg, g, gid)
    requires 0 <= y < g.weiH && 0 <= x < g.weiW
    requires OutColsWg(cfg, g, gid) >= 1
    ensures var outX := Rem(t, OutColsWg(cfg, g, gid));
            var outY := Quot(t, OutColsWg(cfg, g, gid));
            var idx := (outY * g.strideH + y) * TileCols(cfg, g) + outX * g.strideW + x;
            0 <= idx < cfg.localMemSize
            && StageValue(cfg, g, s, gid, idx)
               == Direct(g, s, ColPos(WgChannel(cfg, gid), y * g.weiW + x, TileInner(cfg, g, gid, t)))
  {
    var ocw := OutColsWg(cfg, g, gid);
    var outX, outY := Rem(t, ocw), Quot(t, ocw);
    TileCellCoords(cfg, g, gid, t);
    TileReadSlot(cfg, g, outY, outX, y, x);
    var imY, imX := TileY(cfg, gid), TileX(cfg, gid);
    var oy, ox := imY + outY, imX + outX;
    WindowValueAt(g, s, g.w, WgChannel(cfg, gid), y, x, oy, ox);
    Distrib(imY, outY, g.strideH);
    Distrib(imX, outX, g.strideW);
  }

  /** The body of the window loops for element (y, x) of tile cell t:
      out_x = t % out_cols_wg, out_y = t / out_cols_wg, the col offset
      col_y + col_x + (y*wei_w + x)*out_h*out_w and the local slot
      (out_y*stride_h + y)*im_cols_wg + out_x*stride_w + x. The offset is
      the position's and the value read is its direct im2col value. */
  method ScatterElement(cfg: Im2colConfig, g: Geometry, s: Source, gid: int, local: array<int>, t: int, y: int, x: int)
    returns (off: int, v: int)
    requires GroupOk(cfg, g, s, gid) && Positive(g) && local[..] == StagedTile(cfg, g, s, gid)
    requires 0 <= t < TileCells(cfg, g, gid) && 0 <= y < g.weiH && 0 <= x < g.weiW
    ensures off == ColOffset(g, ColPos(WgChannel(cfg, gid), y * g.weiW + x, TileInner(cfg, g, gid, t)))
    ensures v == Direct(g, s, ColPos(WgChannel(cfg, gid), y * g.weiW + x, TileInner(cfg, g, gid, t)))
  {
    TileCellCoords(cfg, g, gid, t);
    var ocw := OutColsWg(cfg, g, gid);
    var outX := Rem(t, ocw);
    var outY := Quot(t, ocw);
    var colX := (TileY(cfg, gid) + outY) * g.outW + TileX(cfg, gid) + outX;
    var colY := WgChannel(cfg, gid) * g.outH * g.outW * g.weiH * g.weiW;
    ColOffsetAsWritten(g, WgChannel(cfg, gid), y * g.weiW + x, colX);
    off := colY + colX + (y * g.weiW + x) * g.outH * g.outW;
    TileReadIsDirect(cfg, g, s, gid, t, y, x);
    v := local[(outY * g.strideH + y) * TileCols(cfg, g) + outX * g.strideW + x];
  }

  /** The window loops of tile cell t: every window element of output
      position col_x receives its direct im2col value. */
  method TileCell(cfg: Im2colConfig, g: Geometry, s: Source, gid: int, local: array<int>, col: array<int>, t: int)
    requires GroupOk(cfg, g, s, gid) && local[..] == StagedTile(cfg, g, s, gid) && local != col
    requires 0 <= t < TileCells(cfg, g, gid) && col.Length >= s.planes * ChannelCols(g)
    modifies col
    ensures col[..] == CellPartial(g, s, g.w, old(col[..]), WgChannel(cfg, gid), TileInner(cfg, g, gid, t), WinSize(g))
  {
    ghost var c0 := col[..];
    ghost var wgCh := WgChannel(cfg, gid);
    ghost var colX := TileInner(cfg, g, gid, t);
    TileCellCoords(cfg, g, gid, t);
    for y := 0 to g.weiH
      invariant col[..] == CellPartial(g, s, g.w, c0, wgCh, colX, y * g.weiW)
    {
      ghost var rowStart := y * g.weiW;
      for x := 0 to g.weiW
        invariant col[..] == CellPartial(g, s, g.w, c0, wgCh, colX, rowStart + x)
      {
        assert Positive(g);
        WindowElement(g, y, x);
        ghost var pos := ColPos(wgCh, rowStart + x, colX);
        var off, v := ScatterElement(cfg, g, s, gid, local, t, y, x);
        ColOffsetRange(g, s, pos);
        NextCellElement(g, s, g.w, c0, wgCh, colX, rowStart + x);
        col[off] := v;
      }
      assert rowStart + g.weiW == (y + 1) * g.weiW;
    }
    assert g.weiH * g.weiW == WinSize(g);
  }

  /** The scatter loop `inner_lid = lid; inner_lid < out_cols_wg*out_rows_wg; inner_lid += 256`. */
  method ScatterTile(cfg: Im2colConfig, g: Geometry, s: Source, gid: int, local: array<int>, col: array<int>)
    requires GroupOk(cfg, g, s, gid) && local[..] == StagedTile(cfg, g, s, gid) && local != col
    requires col.Length >= s.planes * ChannelCols(g)
    modifies col
    ensures col[..] == TileDone(cfg, g, s, gid, old(col[..]))
  {
    ghost var c0 := col[..];
    TileComplete(cfg, g, s, gid, c0);
    for lid := 0 to GroupSize
      invariant col[..] == TilePartial(cfg, g, s, gid, c0, lid, 0)
    {
      var innerLid := lid;
      FirstLane(lid, GroupSize);
      while innerLid < OutColsWg(cfg, g, gid) * OutRowsWg(cfg, g, gid)
        invariant innerLid >= 0 && Rem(innerLid, GroupSize) == lid
        invariant col[..] == TilePartial(cfg, g, s, gid, c0, lid, innerLid)
        decreases TileCells(cfg, g, gid) - innerLid
      {
        TileCell(cfg, g, s, gid, local, col, innerLid);
        NextTileCell(cfg, g, s, gid, c0, lid, innerLid);
        StrideResidue(innerLid, GroupSize);
        innerLid := innerLid + GroupSize;
      }
      TileLaneDone(cfg, g, s, gid, c0, lid, innerLid);
    }
  }

  /** One work group of the tiled branch: stage, then scatter. Its tile of
      col ends up holding direct im2col, nothing else in col changes. */
  method TiledWorkGroup(cfg: Im2colConfig, g: Geometry, s: Source, gid: int, col: array<int>)
    requires GroupOk(cfg, g, s, gid) && col.Length >= s.planes * ChannelCols(g)
    modifies col
    ensures col[..] == TileDone(cfg, g, s, gid, old(col[..]))
  {
    var local := new int[cfg.localMemSize];
    StageTile(cfg, g, s, gid, local);
    ScatterTile(cfg, g, s, gid, local, col);
  }
}
