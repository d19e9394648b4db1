/**
 * The index arithmetic of im2col: the image geometry, how a pixel of a
 * channel plane is addressed (with a row stride given explicitly, because
 * the untiled kernel branch reads its staged image with a different stride
 * from the one the image is stored with), the value direct im2col places at
 * each position of the column matrix, and the layout of the column matrix
 * itself: offset ch*wei_h*wei_w*out_h*out_w + (y*wei_w + x)*out_h*out_w +
 * oy*out_w + ox, which is a bijection.
 */
module Im2colIndex {
  import opened IndexArith

  /** Threads per work group. */
  const GroupSize := 256

  /** The compile-time parameters im2col_general_device uses but does not
      define: NUM_CH_PER_WG, NUM_IM_BLKS, NUM_IM_BLKS_X, LOCAL_MEM_SIZE,
      TILE_SZ_X, TILE_SZ_Y and STRIDE_GT_1 (USE_IM_OFF_GUARD is Source.guard). */
  datatype Im2colConfig = Im2colConfig(
    chPerWg: int, imBlks: int, imBlksX: int, localMemSize: int,
    tileX: int, tileY: int, strideGt1: bool)

  /** The scalar arguments of im2col_general_device. */
  datatype Geometry = Geometry(
    h: int, w: int, weiH: int, weiW: int, outH: int, outW: int,
    padH: int, padW: int, strideH: int, strideW: int)

  /** The sizes the host template admits: none negative. */
  predicate GeometryOk(g: Geometry)
  {
    g.h >= 0 && g.w >= 0 && g.weiH >= 0 && g.weiW >= 0 && g.outH >= 0 && g.outW >= 0
    && g.padH >= 0 && g.padW >= 0 && g.strideH >= 0 && g.strideW >= 0
  }

  /** The output and the window are non-empty, so the column matrix has entries. */
  predicate Positive(g: Geometry)
  {
    GeometryOk(g) && g.weiH >= 1 && g.weiW >= 1 && g.outH >= 1 && g.outW >= 1
  }

  /** Elements of one channel plane of the image. */
  function PlaneSize(g: Geometry): (r: int)
    requires GeometryOk(g)
    ensures r >= 0
  {
    g.h * g.w
  }

  /** Output positions per window element: out_h * out_w. */
  function OutSize(g: Geometry): (r: int)
    requires GeometryOk(g)
    ensures r >= 0 && (Positive(g) ==> r >= g.outW)
  {
    if Positive(g) then MulMono(1, g.outH, g.outW); g.outH * g.outW
    else g.outH * g.outW
  }

  /** Window elements: wei_h * wei_w. */
  function WinSize(g: Geometry): (r: int)
    requires GeometryOk(g)
    ensures r >= 0 && (Positive(g) ==> r >= g.weiW)
  {
    if Positive(g) then MulMono(1, g.weiH, g.weiW); g.weiH * g.weiW
    else g.weiH * g.weiW
  }

  /** Column-matrix entries per channel plane. */
  function ChannelCols(g: Geometry): (r: int)
    requires GeometryOk(g)
    ensures r >= 0 && (Positive(g) ==> r >= OutSize(g) >= 1)
  {
    MulMono(if Positive(g) then 1 else 0, WinSize(g), OutSize(g));
    WinSize(g) * OutSize(g)
  }

  /** The image: the buffer `im`, the offset `im_offset` of the first plane,
      the number of channel planes it holds, and IM_OFF_GUARD's bound
      `data_size_off`, which only applies when the guard (USE_IM_OFF_GUARD)
      is compiled in. */
  datatype Source = Source(im: seq<int>, imOffset: int, planes: int, dataSizeOff: int, guard: bool)

  /** How many elements past im_offset are actually read from `im`. */
  function ReadLimit(s: Source, n: int): int
  {
    if s.guard && s.dataSizeOff < n then s.dataSizeOff else n
  }

  /** Every plane-relative index the kernel can read is inside `im`. */
  predicate SourceOk(g: Geometry, s: Source)
  {
    GeometryOk(g) && s.planes >= 0 && s.imOffset >= 0
    && s.imOffset + ReadLimit(s, s.planes * PlaneSize(g)) <= |s.im|
  }

  /** IM_OFF_GUARD(idx): im_off[idx], or 0 at and past data_size_off when the
      guard is compiled in. */
  function ImAt(g: Geometry, s: Source, idx: int): int
    requires SourceOk(g, s) && 0 <= idx < s.planes * PlaneSize(g)
  {
    if s.guard && idx >= s.dataSizeOff then 0 else s.im[s.imOffset + idx]
  }

  /** A row stride under which rows 0 .. h-1 of w elements stay inside one
      plane of h * w elements; w itself, the stride the image is stored
      with, is always one. */
  predicate RowStrideOk(g: Geometry, rs: int)
  {
    GeometryOk(g) && rs >= 0 && (rs == g.w || g.h == 0 || (g.h - 1) * rs + g.w <= PlaneSize(g))
  }

  lemma StorageStride(g: Geometry)
    requires GeometryOk(g) && g.h > 0
    ensures (g.h - 1) * g.w + g.w <= PlaneSize(g)
  {
    assert (g.h - 1) * g.w + g.w == g.h * g.w;
  }

  /** The index of pixel (ih, iw) of plane ch when rows are rs apart. */
  function PixelIndex(g: Geometry, s: Source, rs: int, ch: int, ih: int, iw: int): (r: int)
    requires SourceOk(g, s) && RowStrideOk(g, rs)
    requires 0 <= ch < s.planes && 0 <= ih < g.h && 0 <= iw < g.w
    ensures 0 <= r < s.planes * PlaneSize(g)
    ensures ch * PlaneSize(g) <= r < ch * PlaneSize(g) + PlaneSize(g)
  {
    assert g.h > 0 ==> (g.h - 1) * rs + g.w <= PlaneSize(g) by {
      if rs == g.w && g.h > 0 { StorageStride(g); }
    }
    MulMono(ih, g.h - 1, rs);
    OffsetBelow(ih * rs + iw, ch, PlaneSize(g), s.planes);
    ch * PlaneSize(g) + ih * rs + iw
  }

  /** Pixel (ih, iw) of plane ch, or 0 when it falls in the zero padding
      around the h x w image. */
  function PaddedPixel(g: Geometry, s: Source, rs: int, ch: int, ih: int, iw: int): int
    requires SourceOk(g, s) && RowStrideOk(g, rs) && 0 <= ch < s.planes
  {
    if 0 <= ih < g.h && 0 <= iw < g.w then ImAt(g, s, PixelIndex(g, s, rs, ch, ih, iw)) else 0
  }

  /** A position of the column matrix: the plane, the window element
      k = y*wei_w + x, and the output position inner = oy*out_w + ox. */
  datatype ColPos = ColPos(ch: int, k: int, inner: int)

  predicate ValidPos(g: Geometry, s: Source, pos: ColPos)
    requires GeometryOk(g)
  {
    0 <= pos.ch < s.planes && 0 <= pos.k < WinSize(g) && 0 <= pos.inner < OutSize(g)
  }

  /** Where position pos is stored in `col`. */
  function ColOffset(g: Geometry, pos: ColPos): int
    requires GeometryOk(g)
  {
    pos.ch * ChannelCols(g) + pos.k * OutSize(g) + pos.inner
  }

  /** The position stored at offset o. */
  function DecodeCol(g: Geometry, o: int): (pos: ColPos)
    requires Positive(g) && o >= 0
    ensures pos.ch >= 0 && 0 <= pos.k < WinSize(g) && 0 <= pos.inner < OutSize(g)
    ensures ColOffset(g, pos) == o
  {
    var r := Rem(o, ChannelCols(g));
    QuotBelow(r, OutSize(g), WinSize(g));
    ColPos(Quot(o, ChannelCols(g)), Quot(r, OutSize(g)), Rem(r, OutSize(g)))
  }

  /** Decoding the offset of a position gives the position back. */
  lemma ColOffsetRoundTrip(g: Geometry, pos: ColPos)
    requires Positive(g) && pos.ch >= 0 && 0 <= pos.k < WinSize(g) && 0 <= pos.inner < OutSize(g)
    ensures ColOffset(g, pos) >= 0
    ensures DecodeCol(g, ColOffset(g, pos)) == pos
  {
    var r := pos.k * OutSize(g) + pos.inner;
    OffsetBelow(pos.inner, pos.k, OutSize(g), WinSize(g));
    QuotRemOf(pos.ch, ChannelCols(g), r);
    QuotRemOf(pos.k, OutSize(g), pos.inner);
  }

  /** The offsets of the valid positions are exactly [0, planes * ChannelCols):
      each valid position lands in that range, and each offset in it holds a
      valid position. */
  lemma ColOffsetRange(g: Geometry, s: Source, pos: ColPos)
    requires Positive(g) && ValidPos(g, s, pos)
    ensures 0 <= ColOffset(g, pos) < s.planes * ChannelCols(g)
  {
    OffsetBelow(pos.inner, pos.k, OutSize(g), WinSize(g));
    OffsetBelow(pos.k * OutSize(g) + pos.inner, pos.ch, ChannelCols(g), s.planes);
  }

  lemma ColOffsetOnto(g: Geometry, s: Source, o: int)
    requires Positive(g) && 0 <= o < s.planes * ChannelCols(g)
    ensures ValidPos(g, s, DecodeCol(g, o)) && ColOffset(g, DecodeCol(g, o)) == o
  {
    QuotBelow(o, ChannelCols(g), s.planes);
  }

  /** Distinct positions are stored at distinct offsets. */
  lemma ColOffsetInjective(g: Geometry, p1: ColPos, p2: ColPos)
    requires Positive(g)
    requires p1.ch >= 0 && 0 <= p1.k < WinSize(g) && 0 <= p1.inner < OutSize(g)
    requires p2.ch >= 0 && 0 <= p2.k < WinSize(g) && 0 <= p2.inner < OutSize(g)
    requires ColOffset(g, p1) == ColOffset(g, p2)
    ensures p1 == p2
  {
    ColOffsetRoundTrip(g, p1);
    ColOffsetRoundTrip(g, p2);
  }

  /** The kernel's own spelling of the offset,
      col_y + col_x + (y*wei_w + x)*out_h*out_w with
      col_y = ch*out_h*out_w*wei_h*wei_w, is ColOffset. */
  lemma ColOffsetAsWritten(g: Geometry, ch: int, k: int, colX: int)
    requires GeometryOk(g)
    ensures ch * g.outH * g.outW * g.weiH * g.weiW + colX + k * g.outH * g.outW
            == ColOffset(g, ColPos(ch, k, colX))
  {
    assert ch * g.outH * g.outW * g.weiH * g.weiW == ch * ((g.weiH * g.weiW) * (g.outH * g.outW));
    assert k * g.outH * g.outW == k * (g.outH * g.outW);
  }

  /** The window element k is (y, x) = (k / wei_w, k % wei_w), and back. */
  lemma WindowElement(g: Geometry, y: int, x: int)
    requires Positive(g) && 0 <= y < g.weiH && 0 <= x < g.weiW
    ensures 0 <= y * g.weiW + x < WinSize(g)
    ensures Quot(y * g.weiW + x, g.weiW) == y && Rem(y * g.weiW + x, g.weiW) == x
  {
    OffsetBelow(x, y, g.weiW, g.weiH);
    QuotRemOf(y, g.weiW, x);
  }

  /** The output position inner is (oy, ox) = (inner / out_w, inner % out_w), and back. */
  lemma OutputPosition(g: Geometry, oy: int, ox: int)
    requires GeometryOk(g) && 0 <= oy < g.outH && 0 <= ox < g.outW
    ensures 0 <= oy * g.outW + ox < OutSize(g)
    ensures Quot(oy * g.outW + ox, g.outW) == oy && Rem(oy * g.outW + ox, g.outW) == ox
  {
    OffsetBelow(ox, oy, g.outW, g.outH);
    QuotRemOf(oy, g.outW, ox);
  }

  /** The value im2col places for window element (y, x) of output position
      (oy, ox): pixel (oy*stride_h - pad_h + y, ox*stride_w - pad_w + x), or 0
      in the padding. */
  function WindowPixel(g: Geometry, s: Source, rs: int, ch: int, y: int, x: int, oy: int, ox: int): int
    requires SourceOk(g, s) && RowStrideOk(g, rs) && 0 <= ch < s.planes
  {
    PaddedPixel(g, s, rs, ch, oy * g.strideH - g.padH + y, ox * g.strideW - g.padW + x)
  }

  /** The value im2col places at position pos when image rows are read rs apart. */
  function WindowValue(g: Geometry, s: Source, rs: int, pos: ColPos): int
    requires Positive(g) && SourceOk(g, s) && RowStrideOk(g, rs) && 0 <= pos.ch < s.planes
  {
    WindowPixel(g, s, rs, pos.ch, Quot(pos.k, g.weiW), Rem(pos.k, g.weiW),
                Quot(pos.inner, g.outW), Rem(pos.inner, g.outW))
  }

  /** WindowValue at window element (y, x) of output position (oy, ox). */
  lemma WindowValueAt(g: Geometry, s: Source, rs: int, ch: int, y: int, x: int, oy: int, ox: int)
    requires Positive(g) && SourceOk(g, s) && RowStrideOk(g, rs) && 0 <= ch < s.planes
    requires 0 <= y < g.weiH && 0 <= x < g.weiW && 0 <= oy < g.outH && 0 <= ox < g.outW
    ensures WindowValue(g, s, rs, ColPos(ch, y * g.weiW + x, oy * g.outW + ox))
            == WindowPixel(g, s, rs, ch, y, x, oy, ox)
  {
    WindowElement(g, y, x);
    OutputPosition(g, oy, ox);
  }

  /** Direct im2col: the image read with the stride it is stored with. */
  function Direct(g: Geometry, s: Source, pos: ColPos): int
    requires Positive(g) && SourceOk(g, s) && 0 <= pos.ch < s.planes
  {
    WindowValue(g, s, g.w, pos)
  }

  /** The identity unrolling: with a 1 x 1 window, stride 1 and no padding
      the output is the image itself, so plane ch of the column matrix is
      that plane of the image, element for element, at the same offset. */
  lemma IdentityUnrolling(g: Geometry, s: Source, ch: int, inner: int)
    requires Positive(g) && SourceOk(g, s)
    requires g.weiH == 1 && g.weiW == 1 && g.strideH == 1 && g.strideW == 1 && g.padH == 0 && g.padW == 0
    requires g.outH == g.h && g.outW == g.w
    requires 0 <= ch < s.planes && 0 <= inner < PlaneSize(g)
    ensures ColOffset(g, ColPos(ch, 0, inner)) == ch * PlaneSize(g) + inner
    ensures ch * PlaneSize(g) + inner < s.planes * PlaneSize(g)
            && Direct(g, s, ColPos(ch, 0, inner)) == ImAt(g, s, ch * PlaneSize(g) + inner)
  {
    var oy, ox := Quot(inner, g.w), Rem(inner, g.w);
    QuotBelow(inner, g.w, g.h);
    QuotRemOf(0, 1, 0);
    OffsetBelow(inner, ch, PlaneSize(g), s.planes);
    assert WindowValue(g, s, g.w, ColPos(ch, 0, inner)) == PaddedPixel(g, s, g.w, ch, oy, ox);
    assert PixelIndex(g, s, g.w, ch, oy, ox) == ch * PlaneSize(g) + inner;
  }

  /** The largest local-buffer index the tiled branch reads, plus one, is at
      most lds_size = (TILE_SZ_X*stride_w + wei_w) * (TILE_SZ_Y*stride_h + wei_h):
      a read of tile cell (oy, ox) with oy < TILE_SZ_Y, ox < TILE_SZ_X and
      window element (y, x) stays below it. */
  function LdsSize(tileX: int, tileY: int, g: Geometry): (r: int)
    requires GeometryOk(g) && tileX >= 0 && tileY >= 0
    ensures r >= 0
  {
    (tileX * g.strideW + g.weiW) * (tileY * g.strideH + g.weiH)
  }

  /** The column of the tile buffer a read of (ox, x) lands in is inside its
      row of TILE_SZ_X*stride_w + wei_w elements. */
  lemma TileColumnInRow(tileX: int, g: Geometry, ox: int, x: int)
    requires GeometryOk(g) && 0 <= ox < tileX && 0 <= x < g.weiW
    ensures 0 <= ox * g.strideW + x < tileX * g.strideW + g.weiW
  {
    MulMono(ox, tileX - 1, g.strideW);
  }

  lemma TileReadInLds(tileX: int, tileY: int, g: Geometry, oy: int, ox: int, y: int, x: int)
    requires GeometryOk(g) && 0 <= oy < tileY && 0 <= ox < tileX && 0 <= y < g.weiH && 0 <= x < g.weiW
    ensures 0 <= (oy * g.strideH + y) * (tileX * g.strideW + g.weiW) + ox * g.strideW + x
               < LdsSize(tileX, tileY, g)
  {
    var icw := tileX * g.strideW + g.weiW;
    TileColumnInRow(tileX, g, ox, x);
    MulMono(oy, tileY - 1, g.strideH);
    assert oy * g.strideH + y < tileY * g.strideH + g.weiH;
    OffsetBelow(ox * g.strideW + x, oy * g.strideH + y, icw, tileY * g.strideH + g.weiH);
  }

  /** A non-empty output forces out_h, out_w >= 1. */
  lemma OutSizePositive(g: Geometry)
    requires GeometryOk(g) && OutSize(g) > 0
    ensures g.outH >= 1 && g.outW >= 1
  {
    PositiveFactors(g.outH, g.outW);
  }

  /** col after the window loop for plane ch and output position inner has
      written its window elements k < kBound, reading image rows rs apart. */
  function CellPartial(g: Geometry, s: Source, rs: int, c: seq<int>, ch: int, inner: int, kBound: int): (r: seq<int>)
    requires SourceOk(g, s) && RowStrideOk(g, rs) && 0 <= ch < s.planes
    ensures |r| == |c|
  {
    if !Positive(g) then c else
    seq(|c|, o requires 0 <= o < |c| =>
      if DecodeCol(g, o).ch == ch && DecodeCol(g, o).inner == inner && DecodeCol(g, o).k < kBound
      then WindowValue(g, s, rs, DecodeCol(g, o)) else c[o])
  }

  /** Writing window element k of the cell at its offset extends the cell by k. */
  lemma NextCellElement(g: Geometry, s: Source, rs: int, c: seq<int>, ch: int, inner: int, k: int)
    requires Positive(g) && SourceOk(g, s) && RowStrideOk(g, rs)
    requires 0 <= ch < s.planes && 0 <= k < WinSize(g) && 0 <= inner < OutSize(g)
    requires ColOffset(g, ColPos(ch, k, inner)) < |c|
    ensures ColOffset(g, ColPos(ch, k, inner)) >= 0
    ensures CellPartial(g, s, rs, c, ch, inner, k)[ColOffset(g, ColPos(ch, k, inner)) := WindowValue(g, s, rs, ColPos(ch, k, inner))]
            == CellPartial(g, s, rs, c, ch, inner, k + 1)
  {
    var pos := ColPos(ch, k, inner);
    ColOffsetRoundTrip(g, pos);
    var off := ColOffset(g, pos);
    forall o | 0 <= o < |c| && o != off
      ensures !(DecodeCol(g, o).ch == ch && DecodeCol(g, o).inner == inner && DecodeCol(g, o).k == k)
    {
    }
  }
}
