/**
 * im2col_general_device: the choice between the untiled branch (one block
 * of image per work group, NUM_IM_BLKS == 1, unit strides) and the tiled
 * branch, and what a whole grid of tiled work groups writes.
 */
module Im2colDevice {
  import opened IndexArith
  import opened Im2colIndex
  import opened Im2colTiled
  import opened Im2colUntiled

  /** `#if NUM_IM_BLKS == 1 && STRIDE_GT_1 == 0`. */
  predicate UseUntiled(cfg: Im2colConfig)
  {
    cfg.imBlks == 1 && !cfg.strideGt1
  }

  /** What the chosen branch needs of work group gid. The untiled branch is
      taken with the image's own row stride w. */
  predicate DeviceOk(cfg: Im2colConfig, g: Geometry, s: Source, gid: int)
  {
    if UseUntiled(cfg) then UntiledGroupOk(cfg, g, s, g.w, gid) else GroupOk(cfg, g, s, gid)
  }

  /** The offsets of col work group gid writes. */
  predicate Serves(cfg: Im2colConfig, g: Geometry, s: Source, gid: int, o: int)
    requires DeviceOk(cfg, g, s, gid)
  {
    Positive(g) && o >= 0
    && if UseUntiled(cfg) then InGroup(cfg, g, s, g.w, gid, o) else InTile(cfg, g, s, gid, o)
  }

  function DeviceDone(cfg: Im2colConfig, g: Geometry, s: Source, gid: int, c: seq<int>): (r: seq<int>)
    requires DeviceOk(cfg, g, s, gid)
    ensures |r| == |c|
  {
    if UseUntiled(cfg) then UntiledDone(cfg, g, s, g.w, gid, c) else TileDone(cfg, g, s, gid, c)
  }

  /** One work group of im2col_general_device. */
  method Im2colGeneralDevice(cfg: Im2colConfig, g: Geometry, s: Source, gid: int, col: array<int>)
    requires DeviceOk(cfg, g, s, gid) && col.Length >= s.planes * ChannelCols(g)
    modifies col
    ensures col[..] == DeviceDone(cfg, g, s, gid, old(col[..]))
  {
    if UseUntiled(cfg) {
      UntiledWorkGroup(cfg, g, s, g.w, gid, col);
    } else {
      TiledWorkGroup(cfg, g, s, gid, col);
    }
  }

  /** Either branch writes direct im2col at the offsets it serves and leaves
      every other entry of col as it was. */
  lemma DeviceIsDirect(cfg: Im2colConfig, g: Geometry, s: Source, gid: int, c: seq<int>, o: int)
    requires DeviceOk(cfg, g, s, gid) && 0 <= o < |c|
    ensures Serves(cfg, g, s, gid, o) ==>
              0 <= DecodeCol(g, o).ch < s.planes && DeviceDone(cfg, g, s, gid, c)[o] == Direct(g, s, DecodeCol(g, o))
    ensures !Serves(cfg, g, s, gid, o) ==> DeviceDone(cfg, g, s, gid, c)[o] == c[o]
  {
    if UseUntiled(cfg) {
      StorageStrideIsDirect(cfg, g, s, gid, c, o);
    }
  }

  /** The tile grid the host sets up: NUM_IM_BLKS_X = ceil(out_w/TILE_SZ_X)
      tiles across, NUM_IM_BLKS = NUM_IM_BLKS_X * ceil(out_h/TILE_SZ_Y)
      tiles per plane. */
  predicate TileGrid(cfg: Im2colConfig, g: Geometry)
  {
    TiledConfigOk(cfg, g)
    && cfg.imBlksX == CeilDiv(g.outW, cfg.tileX)
    && cfg.imBlks == cfg.imBlksX * CeilDiv(g.outH, cfg.tileY)
  }

  /** x lies in block b of width t exactly when it is b*t .. b*t + t - 1. */
  lemma BlockOf(x: int, t: int, b: int)
    requires t >= 1 && b * t <= x < b * t + t
    ensures Quot(x, t) == b
  {
    QuotRemOf(b, t, x - b * t);
  }

  /** The work group whose tile holds output position (oy, ox) of plane ch. */
  function TileOwner(cfg: Im2colConfig, g: Geometry, ch: int, oy: int, ox: int): (gid: int)
    requires TileGrid(cfg, g) && ch >= 0 && 0 <= oy < g.outH && 0 <= ox < g.outW
    ensures 0 <= Quot(ox, cfg.tileX) < cfg.imBlksX
    ensures 0 <= Quot(oy, cfg.tileY) * cfg.imBlksX + Quot(ox, cfg.tileX) < cfg.imBlks
    ensures gid == ch * cfg.imBlks + (Quot(oy, cfg.tileY) * cfg.imBlksX + Quot(ox, cfg.tileX))
  {
    QuotBelow(ox, cfg.tileX, cfg.imBlksX);
    QuotBelow(oy, cfg.tileY, CeilDiv(g.outH, cfg.tileY));
    OffsetBelow(Quot(ox, cfg.tileX), Quot(oy, cfg.tileY), cfg.imBlksX, CeilDiv(g.outH, cfg.tileY));
    ch * cfg.imBlks + (Quot(oy, cfg.tileY) * cfg.imBlksX + Quot(ox, cfg.tileX))
  }

  /** The tile of TileOwner starts at (by*TILE_SZ_Y, bx*TILE_SZ_X). */
  lemma TileOwnerOrigin(cfg: Im2colConfig, g: Geometry, ch: int, oy: int, ox: int)
    requires TileGrid(cfg, g) && ch >= 0 && 0 <= oy < g.outH && 0 <= ox < g.outW
    ensures var gid := TileOwner(cfg, g, ch, oy, ox);
            gid >= 0 && WgChannel(cfg, gid) == ch
            && TileX(cfg, gid) == Quot(ox, cfg.tileX) * cfg.tileX
            && TileY(cfg, gid) == Quot(oy, cfg.tileY) * cfg.tileY
  {
    var gid := TileOwner(cfg, g, ch, oy, ox);
    var b := Quot(oy, cfg.tileY) * cfg.imBlksX + Quot(ox, cfg.tileX);
    MulMono(0, ch, cfg.imBlks);
    QuotRemOf(ch, cfg.imBlks, b);
    QuotRemOf(Quot(oy, cfg.tileY), cfg.imBlksX, Quot(ox, cfg.tileX));
  }

  /** The work group whose tile holds col offset o. */
  function OwnerOf(cfg: Im2colConfig, g: Geometry, o: int): (gid: int)
    requires TileGrid(cfg, g) && Positive(g) && o >= 0
    ensures gid >= 0
  {
    var pos := DecodeCol(g, o);
    QuotBelow(pos.inner, g.outW, g.outH);
    MulMono(0, pos.ch, cfg.imBlks);
    TileOwner(cfg, g, pos.ch, Quot(pos.inner, g.outW), Rem(pos.inner, g.outW))
  }

  /** Every position of every plane lies in the tile of a work group of the
      grid (0 <= gid < planes * NUM_IM_BLKS). */
  lemma TilesCover(cfg: Im2colConfig, g: Geometry, s: Source, o: int)
    requires TileGrid(cfg, g) && SourceOk(g, s) && Positive(g) && 0 <= o < s.planes * ChannelCols(g)
    ensures OwnerOf(cfg, g, o) < s.planes * cfg.imBlks
    ensures GroupOk(cfg, g, s, OwnerOf(cfg, g, o)) && InTile(cfg, g, s, OwnerOf(cfg, g, o), o)
  {
    var pos := DecodeCol(g, o);
    ColOffsetOnto(g, s, o);
    var oy, ox := Quot(pos.inner, g.outW), Rem(pos.inner, g.outW);
    QuotBelow(pos.inner, g.outW, g.outH);
    var gid := TileOwner(cfg, g, pos.ch, oy, ox);
    TileOwnerOrigin(cfg, g, pos.ch, oy, ox);
    var b := Quot(oy, cfg.tileY) * cfg.imBlksX + Quot(ox, cfg.tileX);
    OffsetBelow(b, pos.ch, cfg.imBlks, s.planes);
    assert Quot(ox, cfg.tileX) * cfg.tileX <= ox;
    assert Quot(oy, cfg.tileY) * cfg.tileY <= oy;
    assert GroupOk(cfg, g, s, gid);
  }

  /** No two work groups share a position: a position lies in the tile of
      OwnerOf and of no other work group. */
  lemma TilesDisjoint(cfg: Im2colConfig, g: Geometry, s: Source, gid: int, o: int)
    requires TileGrid(cfg, g) && GroupOk(cfg, g, s, gid) && Positive(g) && o >= 0
    requires InTile(cfg, g, s, gid, o)
    ensures gid == OwnerOf(cfg, g, o)
  {
    var pos := DecodeCol(g, o);
    var oy, ox := Quot(pos.inner, g.outW), Rem(pos.inner, g.outW);
    QuotBelow(pos.inner, g.outW, g.outH);
    var r := Rem(gid, cfg.imBlks);
    BlockOf(ox, cfg.tileX, Rem(r, cfg.imBlksX));
    BlockOf(oy, cfg.tileY, Quot(r, cfg.imBlksX));
    assert r == Quot(r, cfg.imBlksX) * cfg.imBlksX + Rem(r, cfg.imBlksX);
    assert gid == Quot(gid, cfg.imBlks) * cfg.imBlks + r;
  }

  /** Every work group of the grid can run. */
  lemma GridGroupOk(cfg: Im2colConfig, g: Geometry, s: Source, gid: int)
    requires TileGrid(cfg, g) && SourceOk(g, s) && Positive(g) && 0 <= gid < s.planes * cfg.imBlks
    ensures GroupOk(cfg, g, s, gid)
  {
    QuotBelow(gid, cfg.imBlks, s.planes);
    var r := Rem(gid, cfg.imBlks);
    var rowsOfTiles := CeilDiv(g.outH, cfg.tileY);
    assert r < rowsOfTiles * cfg.imBlksX;
    QuotBelow(r, cfg.imBlksX, rowsOfTiles);
    MulMono(Rem(r, cfg.imBlksX), cfg.imBlksX - 1, cfg.tileX);
    MulMono(Quot(r, cfg.imBlksX), rowsOfTiles - 1, cfg.tileY);
  }

  /** The entries of direct im2col: every position of every plane. */
  function DirectCol(g: Geometry, s: Source): (r: seq<int>)
    requires Positive(g) && SourceOk(g, s)
    ensures |r| == s.planes * ChannelCols(g)
  {
    seq(s.planes * ChannelCols(g), o requires 0 <= o < s.planes * ChannelCols(g) =>
      ColOffsetOnto(g, s, o);
      Direct(g, s, DecodeCol(g, o)))
  }

  /** col after work groups 0 .. gb-1 of the tile grid have run. */
  function GridPartial(cfg: Im2colConfig, g: Geometry, s: Source, c: seq<int>, gb: int): (r: seq<int>)
    requires TileGrid(cfg, g) && SourceOk(g, s) && Positive(g) && |c| >= s.planes * ChannelCols(g)
    ensures |r| == |c|
  {
    seq(|c|, o requires 0 <= o < |c| =>
      if o < s.planes * ChannelCols(g) && OwnerOf(cfg, g, o) < gb then DirectCol(g, s)[o] else c[o])
  }

  /** Work group gb writes exactly the positions it owns. */
  lemma NextGroup(cfg: Im2colConfig, g: Geometry, s: Source, c: seq<int>, gb: int)
    requires TileGrid(cfg, g) && SourceOk(g, s) && Positive(g) && |c| >= s.planes * ChannelCols(g)
    requires 0 <= gb < s.planes * cfg.imBlks
    ensures GroupOk(cfg, g, s, gb)
    ensures TileDone(cfg, g, s, gb, GridPartial(cfg, g, s, c, gb)) == GridPartial(cfg, g, s, c, gb + 1)
  {
    GridGroupOk(cfg, g, s, gb);
    forall o | 0 <= o < |c|
      ensures InTile(cfg, g, s, gb, o) <==> (o < s.planes * ChannelCols(g) && OwnerOf(cfg, g, o) == gb)
    {
      if InTile(cfg, g, s, gb, o) {
        TilesDisjoint(cfg, g, s, gb, o);
        ColOffsetRange(g, s, DecodeCol(g, o));
      }
      if o < s.planes * ChannelCols(g) && OwnerOf(cfg, g, o) == gb {
        TilesCover(cfg, g, s, o);
      }
    }
  }

  /** Every position has an owner in the grid. */
  lemma GridComplete(cfg: Im2colConfig, g: Geometry, s: Source, c: seq<int>)
    requires TileGrid(cfg, g) && SourceOk(g, s) && Positive(g) && |c| >= s.planes * ChannelCols(g)
    ensures GridPartial(cfg, g, s, c, s.planes * cfg.imBlks)
            == DirectCol(g, s) + c[s.planes * ChannelCols(g)..]
  {
    forall o | 0 <= o < s.planes * ChannelCols(g)
      ensures OwnerOf(cfg, g, o) < s.planes * cfg.imBlks
    {
      TilesCover(cfg, g, s, o);
    }
  }

  /** The whole tiled launch, its work groups run one after the other: col
      holds direct im2col of every plane, and nothing past it changes. As
      the tiles are disjoint, the order of the work groups does not matter. */
  method TiledGrid(cfg: Im2colConfig, g: Geometry, s: Source, col: array<int>)
    requires TileGrid(cfg, g) && SourceOk(g, s) && Positive(g) && !UseUntiled(cfg)
    requires col.Length >= s.planes * ChannelCols(g)
    modifies col
    ensures col[..] == DirectCol(g, s) + old(col[s.planes * ChannelCols(g)..])
  {
    ghost var c0 := col[..];
    MulMono(0, s.planes, cfg.imBlks);
    for gid := 0 to s.planes * cfg.imBlks
      invariant col[..] == GridPartial(cfg, g, s, c0, gid)
    {
      NextGroup(cfg, g, s, c0, gid);
      assert DeviceOk(cfg, g, s, gid);
      Im2colGeneralDevice(cfg, g, s, gid, col);
    }
    GridComplete(cfg, g, s, c0);
  }
}
