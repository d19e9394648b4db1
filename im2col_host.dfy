/**
 * The host side of im2col (rocsparse_im2col_template): the argument checks
 * in their fixed order, the quick return, the choice of kernel by layout,
 * the local-memory size and the launch grid of 256-thread blocks.
 */
module Im2colHost {
  import opened IndexArith
  import opened RocsparseTypes
  import opened Im2colIndex

  /** rocsparse_im2col_type; any other value of the enum is Unknown. */
  datatype Layout = Nchw | Nhwc | Unknown

  /** The template's tile: 32 x 8 output positions per work group. */
  const TileSzX := 32
  const TileSzY := 8

  /** The arguments of rocsparse_im2col_template. The image and col buffers
      are represented only by whether they are non-null. */
  datatype Im2colArgs = Im2colArgs(
    handle: bool, im: bool,
    n: int, c: int, h: int, w: int, weiH: int, weiW: int,
    outH: int, outW: int, padH: int, padW: int, strideH: int, strideW: int,
    layout: Layout, col: bool)

  /** What the template decides: an error status, success without a launch,
      or a launch of the layout's kernel with lds_size elements of local
      memory per work group (passed where HIP expects a byte count) on a gridX x gridY grid of 256-thread blocks. */
  datatype Im2colPlan =
    | Im2colFail(status: Status)
    | Im2colDone
    | Im2colLaunch(layout: Layout, ldsSize: int, gridX: int, gridY: int)

  function PlanStatus(r: Im2colPlan): Status
  {
    if r.Im2colFail? then r.status else Success
  }

  /** The twelve integer parameters in the order they are checked. */
  function SizeParams(a: Im2colArgs): (r: seq<int>)
    ensures |r| == 12
  {
    [a.n, a.c, a.h, a.w, a.weiH, a.weiW, a.outH, a.outW, a.padH, a.padW, a.strideH, a.strideW]
  }

  predicate SizesOk(a: Im2colArgs)
  {
    a.n >= 0 && a.c >= 0 && a.h >= 0 && a.w >= 0 && a.weiH >= 0 && a.weiW >= 0
    && a.outH >= 0 && a.outW >= 0 && a.padH >= 0 && a.padW >= 0 && a.strideH >= 0 && a.strideW >= 0
  }

  predicate Degenerate(a: Im2colArgs)
  {
    a.n == 0 || a.c == 0 || a.h == 0 || a.w == 0 || a.weiH == 0 || a.weiW == 0
  }

  /** The per-plane geometry the kernels see. */
  function GeometryOf(a: Im2colArgs): (g: Geometry)
    requires SizesOk(a)
    ensures GeometryOk(g)
  {
    Geometry(a.h, a.w, a.weiH, a.weiW, a.outH, a.outW, a.padH, a.padW, a.strideH, a.strideW)
  }

  /** The launch grid: num_blks = ceil(out_w/32) * ceil(out_h/8) blocks along
      x, one row of blocks per plane (c*n) along y. */
  function Im2colGrid(a: Im2colArgs): (r: (int, int))
    requires SizesOk(a)
  {
    var g := GeometryOf(a);
    (CeilDiv(g.outW, TileSzX) * CeilDiv(g.outH, TileSzY), a.c * a.n)
  }

  /** rocsparse_im2col_template's decision. The ensures clauses state the
      priority of the checks: handle, im, col, the twelve sizes in order,
      the quick return, and the layout. */
  function Im2colTemplate(a: Im2colArgs): (r: Im2colPlan)
    ensures !a.handle ==> r == Im2colFail(InvalidHandle)
    ensures a.handle && !(a.im && a.col) ==> r == Im2colFail(InvalidPointer)
    ensures a.handle && a.im && a.col && !SizesOk(a) ==> r == Im2colFail(InvalidSize)
    ensures r == Im2colDone <==> a.handle && a.im && a.col && SizesOk(a) && Degenerate(a)
    ensures r == Im2colFail(NotImplemented) <==>
              a.handle && a.im && a.col && SizesOk(a) && !Degenerate(a) && a.layout == Unknown
    ensures r.Im2colLaunch? <==>
              a.handle && a.im && a.col && SizesOk(a) && !Degenerate(a) && a.layout != Unknown
    ensures r.Im2colLaunch? ==>
              SizesOk(a) && r.layout == a.layout
              && r.ldsSize == LdsSize(TileSzX, TileSzY, GeometryOf(a))
              && (r.gridX, r.gridY) == Im2colGrid(a)
  {
    if !a.handle then Im2colFail(InvalidHandle)
    else if !a.im then Im2colFail(InvalidPointer)
    else if !a.col then Im2colFail(InvalidPointer)
    else if a.n < 0 then Im2colFail(InvalidSize)
    else if a.c < 0 then Im2colFail(InvalidSize)
    else if a.h < 0 then Im2colFail(InvalidSize)
    else if a.w < 0 then Im2colFail(InvalidSize)
    else if a.weiH < 0 then Im2colFail(InvalidSize)
    else if a.weiW < 0 then Im2colFail(InvalidSize)
    else if a.outH < 0 then Im2colFail(InvalidSize)
    else if a.outW < 0 then Im2colFail(InvalidSize)
    else if a.padH < 0 then Im2colFail(InvalidSize)
    else if a.padW < 0 then Im2colFail(InvalidSize)
    else if a.strideH < 0 then Im2colFail(InvalidSize)
    else if a.strideW < 0 then Im2colFail(InvalidSize)
    else if a.n == 0 || a.c == 0 || a.h == 0 || a.w == 0 || a.weiH == 0 || a.weiW == 0 then Im2colDone
    else
      var g := Im2colGrid(a);
      match a.layout
      case Nchw => Im2colLaunch(Nchw, LdsSize(TileSzX, TileSzY, GeometryOf(a)), g.0, g.1)
      case Nhwc => Im2colLaunch(Nhwc, LdsSize(TileSzX, TileSzY, GeometryOf(a)), g.0, g.1)
      case Unknown => Im2colFail(NotImplemented)
  }

  /** Zero output extents, pads and strides are accepted: with every
      pointer present and the six extents n, c, h, w, wei_h, wei_w
      positive, a known layout launches whatever out_h, out_w, pads and
      strides are, as long as none is negative. */
  lemma ZeroExtentsLaunch(a: Im2colArgs)
    requires a.handle && a.im && a.col && a.layout != Unknown
    requires a.n >= 1 && a.c >= 1 && a.h >= 1 && a.w >= 1 && a.weiH >= 1 && a.weiW >= 1
    requires a.outH == 0 && a.outW == 0 && a.padH == 0 && a.padW == 0 && a.strideH == 0 && a.strideW == 0
    ensures Im2colTemplate(a) == Im2colLaunch(a.layout, a.weiW * a.weiH, 0, a.c * a.n)
  {
  }

  /** The first negative parameter decides: whatever follows it, a negative
      parameter gives invalid_size once the pointers are present. */
  lemma FirstNegativeSize(a: Im2colArgs, i: int)
    requires a.handle && a.im && a.col && 0 <= i < 12 && SizeParams(a)[i] < 0
    ensures Im2colTemplate(a) == Im2colFail(InvalidSize)
  {
    assert SizeParams(a)[i] in SizeParams(a);
  }

  /** The grid covers every output position: the num_blks work groups of a
      plane, TILE_SZ_X x TILE_SZ_Y positions each, number at least
      out_h*out_w positions, with one block column of tiles too few to
      cover out_w and one block row too few to cover out_h. */
  lemma GridCoversOutput(a: Im2colArgs)
    requires Im2colTemplate(a).Im2colLaunch?
    ensures var g := GeometryOf(a);
            var colsOfTiles := CeilDiv(g.outW, TileSzX);
            var rowsOfTiles := CeilDiv(g.outH, TileSzY);
            Im2colTemplate(a).gridX == colsOfTiles * rowsOfTiles
            && colsOfTiles * TileSzX >= g.outW && (colsOfTiles == 0 || (colsOfTiles - 1) * TileSzX < g.outW)
            && rowsOfTiles * TileSzY >= g.outH && (rowsOfTiles == 0 || (rowsOfTiles - 1) * TileSzY < g.outH)
            && Im2colTemplate(a).gridX * (TileSzX * TileSzY) >= g.outH * g.outW
  {
    var g := GeometryOf(a);
    var colsOfTiles := CeilDiv(g.outW, TileSzX);
    var rowsOfTiles := CeilDiv(g.outH, TileSzY);
    MulMono(g.outW, colsOfTiles * TileSzX, g.outH);
    MulMono(g.outH, rowsOfTiles * TileSzY, colsOfTiles * TileSzX);
    assert colsOfTiles * rowsOfTiles * (TileSzX * TileSzY) == (rowsOfTiles * TileSzY) * (colsOfTiles * TileSzX);
  }

  /** The local memory of a launch is the tile extent the device code
      indexes: LOCAL_MEM_SIZE = lds_size gives every read of the tiled
      branch a slot of the buffer. */
  lemma LdsFitsTile(a: Im2colArgs, oy: int, ox: int, y: int, x: int)
    requires Im2colTemplate(a).Im2colLaunch?
    requires 0 <= oy < TileSzY && 0 <= ox < TileSzX && 0 <= y < a.weiH && 0 <= x < a.weiW
    ensures var g := GeometryOf(a);
            0 <= (oy * g.strideH + y) * (TileSzX * g.strideW + g.weiW) + ox * g.strideW + x
              < Im2colTemplate(a).ldsSize
  {
    TileReadInLds(TileSzX, TileSzY, GeometryOf(a), oy, ox, y, x);
  }
}
