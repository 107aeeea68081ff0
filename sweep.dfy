/**
 * The visibility sweep: for every screen pixel, march the column of bins
 * behind it from near to far, test the boxes stored there against the
 * pixel's oblique ray, and keep the hit with the greatest depth key.
 */
module Sweep {
  import opened Scene
  import opened World
  import opened Binning

  /** What the sweep writes for one pixel: a texel's normal and colour, its world y and z, and its owner. */
  datatype Pixel = Pixel(normal: Normal, color: Color, y: int, z: int, entityIndex: int)

  /** A pixel no box covers: mid grey, every other field zero. */
  const Background := Pixel(Normal(0.0, 0.0, 0.0), Color(127, 127, 127, 0), 0, 0, 0)

  /** The starting depth key, the least 32-bit integer. */
  const IntMin := -0x8000_0000

  /** One entry of the texture per pixel of the 480 x 320 view. */
  const TextureSize := 153600

  // ---------------------------------------------------------------------
  // One box against one ray

  /**
   * The ray of pixel column `i` at world height `worldJ` descends one unit
   * of y per unit of z, so a box is hit when `i` lies in its x range and
   * `worldJ` in its oblique range (y + z, y + z + height + depth].
   */
  predicate Hits(i: int, worldJ: int, box: AABB)
  {
    var p, e := box.position, box.extent;
    && p.x <= i < p.x + e.x
    && p.y + p.z < worldJ <= p.y + e.y + p.z + e.z
  }

  /** The sprite row the ray meets, counted down from the box's top edge. */
  function SpriteRow(worldJ: int, box: AABB): int
  {
    box.position.y + box.extent.y + box.position.z + box.extent.z - worldJ
  }

  /** Texels are addressed row by row with a fixed row width. */
  function TexelIndex(i: int, worldJ: int, box: AABB): int
  {
    SpriteRow(worldJ, box) * SpriteRowWidth + (i - box.position.x)
  }

  /**
   * The sprite drawn for a box has a texel for every point of the box's
   * face and its palette indices are valid.
   */
  predicate SpriteFits(box: AABB, sp: Sprite, paletteSize: int)
  {
    && |sp.normal| == |sp.depth| && |sp.color| == |sp.depth|
    && (forall t :: 0 <= t < |sp.color| ==> 0 <= sp.color[t] < paletteSize)
    && (0 < box.extent.x && 0 < box.extent.y + box.extent.z ==>
          (box.extent.y + box.extent.z - 1) * SpriteRowWidth + box.extent.x <= |sp.depth|)
  }

  /** A hit always reads a texel that exists. */
  lemma TexelInRange(i: int, worldJ: int, box: AABB, sp: Sprite, paletteSize: int)
    requires Hits(i, worldJ, box) && SpriteFits(box, sp, paletteSize)
    ensures 0 <= TexelIndex(i, worldJ, box) < |sp.depth|
  {
    var row := SpriteRow(worldJ, box);
    assert 0 <= row <= box.extent.y + box.extent.z - 1;
    assert row * 20 <= (box.extent.y + box.extent.z - 1) * 20;
  }

  /** A depth key (larger is nearer the viewer) and the pixel that goes with it. */
  datatype Ray = Ray(closest: int, px: Pixel)

  /**
   * The key and pixel of a hit on a box owned by entity `e`. The key grows
   * with the box's y, shrinks with its z, drops below the top face and
   * subtracts the sprite's own depth offset; the pixel copies the texel's
   * normal and palette colour and records the world y and z of the texel.
   */
  function HitRay(i: int, worldJ: int, box: AABB, e: int, sp: Sprite, palette: seq<Color>): Ray
    requires Hits(i, worldJ, box) && SpriteFits(box, sp, |palette|)
  {
    TexelInRange(i, worldJ, box, sp, |palette|);
    var t := TexelIndex(i, worldJ, box);
    var row := SpriteRow(worldJ, box);
    Ray(box.position.y - box.position.z + Min(0, box.extent.y - row) - sp.depth[t],
        Pixel(sp.normal[t], palette[sp.color[t]],
              box.position.y + box.extent.y + box.extent.z - row - sp.depth[t],
              box.position.z + sp.depth[t], e))
  }

  // ---------------------------------------------------------------------
  // What the sweep reads

  /** The filled spatial hash, the entities' sprites and the colour palette. */
  datatype Frame = Frame(bins: seq<AABB>, counts: seq<int>, owners: seq<int>, sprites: seq<Sprite>, palette: seq<Color>)

  /** Slot `k` of bin `b` names an entity whose sprite fits the stored box. */
  predicate SlotReady(f: Frame, b: int, k: int)
    requires FlatOk(f.bins, f.counts, f.owners) && 0 <= b < HashVolume && 0 <= k < SparseBinSize
  {
    && 0 <= f.owners[Slot(b, k)] < |f.sprites|
    && SpriteFits(f.bins[Slot(b, k)], f.sprites[f.owners[Slot(b, k)]], |f.palette|)
  }

  /** The arrays have the shape of the spatial hash and every live slot is ready. */
  predicate Ready(f: Frame)
  {
    && FlatOk(f.bins, f.counts, f.owners)
    && forall b, k :: 0 <= b < HashVolume && 0 <= k < f.counts[b] ==> SlotReady(f, b, k)
  }

  predicate Live(f: Frame, bin: int, k: int)
  {
    Ready(f) && 0 <= bin < HashVolume && 0 <= k < f.counts[bin] && SlotReady(f, bin, k)
  }

  predicate SlotHits(f: Frame, i: int, worldJ: int, bin: int, k: int)
    requires Live(f, bin, k)
  {
    Hits(i, worldJ, f.bins[Slot(bin, k)])
  }

  function SlotRay(f: Frame, i: int, worldJ: int, bin: int, k: int): Ray
    requires Live(f, bin, k) && SlotHits(f, i, worldJ, bin, k)
  {
    var s := Slot(bin, k);
    HitRay(i, worldJ, f.bins[s], f.owners[s], f.sprites[f.owners[s]], f.palette)
  }

  /** What slot `k` of `bin` offers the ray: the key and pixel of its hit, if it is hit. */
  function Candidate(f: Frame, i: int, worldJ: int, bin: int, k: int): (c: Option<Ray>)
    requires Live(f, bin, k)
  {
    if SlotHits(f, i, worldJ, bin, k)
    then Some(SlotRay(f, i, worldJ, bin, k))
    else None
  }

  /** The candidates of every live slot of `bin`, in slot order. */
  function Candidates(f: Frame, i: int, worldJ: int, bin: int): (cs: seq<Option<Ray>>)
    requires Ready(f) && 0 <= bin < HashVolume
    ensures |cs| == f.counts[bin]
  {
    seq(f.counts[bin], k requires 0 <= k < f.counts[bin] => Candidate(f, i, worldJ, bin, k))
  }

  /** The bin at depth layer `z` behind pixel (i, j). */
  function ColumnBin(i: int, j: int, z: int): (b: int)
    requires 0 <= i < ViewWidth && 0 <= j < ViewHeight && 0 <= z < HashLength
    ensures 0 <= b < HashVolume
  {
    IndexIntoViewHash(i / SingleBinCubicSize, j / SingleBinCubicSize, z)
  }

  /** Screen rows count down from the top; world heights count up. */
  function WorldJ(j: int): int
  {
    ViewHeight - j
  }

  /** The candidates of the bins behind pixel (i, j), nearest bin first. */
  function Column(f: Frame, i: int, j: int): (col: seq<seq<Option<Ray>>>)
    requires Ready(f) && 0 <= i < ViewWidth && 0 <= j < ViewHeight
    ensures |col| == HashLength
  {
    seq(HashLength, z requires 0 <= z < HashLength => Candidates(f, i, WorldJ(j), ColumnBin(i, j, z)))
  }

  /**
   * `cs` holds the candidates of the live slots of `bin`; an entry is
   * looked up only where its slot is named.
   */
  predicate BinOf(f: Frame, i: int, worldJ: int, bin: int, cs: seq<Option<Ray>>)
    requires Ready(f) && 0 <= bin < HashVolume
  {
    && |cs| == f.counts[bin]
    && forall k {:trigger Slot(bin, k)} :: 0 <= k < |cs| ==> cs[k] == Candidate(f, i, worldJ, bin, k)
  }

  /**
   * `col` holds, layer by layer, the candidates of the bins behind pixel
   * (i, j); a layer is looked up only where its bin is named.
   */
  predicate ColumnOf(f: Frame, i: int, j: int, col: seq<seq<Option<Ray>>>)
    requires Ready(f) && 0 <= i < ViewWidth && 0 <= j < ViewHeight
  {
    && |col| == HashLength
    && forall z {:trigger ColumnBin(i, j, z)} :: 0 <= z < HashLength ==>
         BinOf(f, i, WorldJ(j), ColumnBin(i, j, z), col[z])
  }

  lemma ColumnIsColumnOf(f: Frame, i: int, j: int)
    requires Ready(f) && 0 <= i < ViewWidth && 0 <= j < ViewHeight
    ensures ColumnOf(f, i, j, Column(f, i, j))
  {
    forall z | 0 <= z < HashLength
      ensures BinOf(f, i, WorldJ(j), ColumnBin(i, j, z), Column(f, i, j)[z])
    {
      var bin := ColumnBin(i, j, z);
      forall k | 0 <= k < f.counts[bin]
        ensures Candidates(f, i, WorldJ(j), bin)[k] == Candidate(f, i, WorldJ(j), bin, k)
      {
      }
    }
  }

  // ---------------------------------------------------------------------
  // The specification: scanning a bin and marching a column

  /**
   * Scanning the first `k` candidates of a bin in slot order: a hit
   * replaces the best so far only when its depth key is strictly greater.
   */
  function Scan(cs: seq<Option<Ray>>, r: Ray, k: int): (r': Ray)
    requires 0 <= k <= |cs|
    ensures r'.closest >= r.closest
  {
    if k == 0 then r
    else
      var r1 := Scan(cs, r, k - 1);
      if cs[k - 1].Some? && r1.closest < cs[k - 1].value.closest then cs[k - 1].value else r1
  }

  /**
   * The march along `col` from layer `z` with `count` bins with a new best
   * hit since the last empty bin: an empty bin resets the count, and the
   * march stops once the count reaches two.
   */
  function March(col: seq<seq<Option<Ray>>>, z: int, r: Ray, count: int): (res: Ray)
    requires 0 <= z <= |col|
    ensures res.closest >= r.closest
    decreases |col| - z
  {
    if z == |col| then r
    else
      var c0 := if |col[z]| == 0 then 0 else count;
      var r' := Scan(col[z], r, |col[z]|);
      var c1 := c0 + if r'.closest > r.closest then 1 else 0;
      if c1 >= 2 then r' else March(col, z + 1, r', c1)
  }

  /** Where the march along `col` from layer `z` stops: one past the last bin it scans. */
  function Visited(col: seq<seq<Option<Ray>>>, z: int, r: Ray, count: int): (v: int)
    requires 0 <= z <= |col|
    ensures z <= v <= |col|
    decreases |col| - z
  {
    if z == |col| then z
    else
      var c0 := if |col[z]| == 0 then 0 else count;
      var r' := Scan(col[z], r, |col[z]|);
      var c1 := c0 + if r'.closest > r.closest then 1 else 0;
      if c1 >= 2 then z + 1 else Visited(col, z + 1, r', c1)
  }

  /** The ray every pixel starts from: no hit yet, background grey. */
  const Start := Ray(IntMin, Background)

  /** The pixel the sweep writes for screen position (i, j). */
  function PixelOf(f: Frame, i: int, j: int): Pixel
    requires Ready(f) && 0 <= i < ViewWidth && 0 <= j < ViewHeight
  {
    March(Column(f, i, j), 0, Start, 0).px
  }

  /** Where pixel (i, j) lives in the texture: row-major, `view_width` per row. */
  function TexIndex(i: int, j: int): int
  {
    j * ViewWidth + i
  }

  // ---------------------------------------------------------------------
  // Properties of the specification

  /**
   * A scan keeps the deepest hit: no scanned hit has a greater key, and
   * unless nothing beat the starting key the result is the hit of slot `w`,
   * the first slot with that key (every earlier hit is strictly shallower).
   */
  lemma {:induction false} ScanKeepsDeepest(cs: seq<Option<Ray>>, r: Ray, k: int) returns (w: int)
    requires 0 <= k <= |cs|
    ensures forall k' :: 0 <= k' < k && cs[k'].Some? ==> cs[k'].value.closest <= Scan(cs, r, k).closest
    ensures -1 <= w < k
    ensures w == -1 ==> Scan(cs, r, k) == r
    ensures w >= 0 ==> && cs[w] == Some(Scan(cs, r, k))
                       && r.closest < Scan(cs, r, k).closest
                       && forall k' :: 0 <= k' < w && cs[k'].Some? ==> cs[k'].value.closest < Scan(cs, r, k).closest
  {
    if k == 0 {
      w := -1;
    } else {
      var w1 := ScanKeepsDeepest(cs, r, k - 1);
      var r1 := Scan(cs, r, k - 1);
      if cs[k - 1].Some? && r1.closest < cs[k - 1].value.closest {
        w := k - 1;
      } else {
        w := w1;
      }
    }
  }

  /** Without a hit among the scanned candidates, a scan changes nothing. */
  lemma {:induction false} ScanNoHit(cs: seq<Option<Ray>>, r: Ray, k: int)
    requires 0 <= k <= |cs|
    requires forall k' :: 0 <= k' < k ==> cs[k'].None?
    ensures Scan(cs, r, k) == r
  {
    if k > 0 {
      ScanNoHit(cs, r, k - 1);
    }
  }

  /** No hit in a bin the march visits has a greater key than the march's result. */
  lemma {:induction false} MarchNoDeeper(col: seq<seq<Option<Ray>>>, z: int, r: Ray, count: int)
    requires 0 <= z <= |col|
    ensures forall z', k' :: z <= z' < Visited(col, z, r, count) && 0 <= k' < |col[z']| && col[z'][k'].Some? ==>
              col[z'][k'].value.closest <= March(col, z, r, count).closest
    decreases |col| - z
  {
    if z < |col| {
      var c0 := if |col[z]| == 0 then 0 else count;
      var r' := Scan(col[z], r, |col[z]|);
      var c1 := c0 + if r'.closest > r.closest then 1 else 0;
      var _ := ScanKeepsDeepest(col[z], r, |col[z]|);
      if c1 < 2 {
        MarchNoDeeper(col, z + 1, r', c1);
      }
    }
  }

  /**
   * The march's result is its starting state, when no visited hit beat the
   * starting key, or else the hit of slot `wk` of a visited bin `wz`. That
   * hit is the first one with the result's key: every hit in a bin before
   * `wz`, and every hit in an earlier slot of `wz`, has a strictly smaller
   * key, because the best key is one running value for the whole march.
   */
  lemma {:induction false} MarchWitness(col: seq<seq<Option<Ray>>>, z: int, r: Ray, count: int) returns (wz: int, wk: int)
    requires 0 <= z <= |col|
    ensures wz == -1 ==> March(col, z, r, count) == r
    ensures wz != -1 ==> && z <= wz < Visited(col, z, r, count)
                         && 0 <= wk < |col[wz]|
                         && col[wz][wk] == Some(March(col, z, r, count))
                         && r.closest < March(col, z, r, count).closest
    ensures wz != -1 ==>
              forall z', k' :: z <= z' < wz && 0 <= k' < |col[z']| && col[z'][k'].Some? ==>
                col[z'][k'].value.closest < March(col, z, r, count).closest
    ensures wz != -1 ==>
              forall k' :: 0 <= k' < wk && col[wz][k'].Some? ==>
                col[wz][k'].value.closest < March(col, z, r, count).closest
    decreases |col| - z
  {
    if z == |col| {
      wz, wk := -1, 0;
    } else {
      var c0 := if |col[z]| == 0 then 0 else count;
      var r' := Scan(col[z], r, |col[z]|);
      var c1 := c0 + if r'.closest > r.closest then 1 else 0;
      var w := ScanKeepsDeepest(col[z], r, |col[z]|);
      var wz1, wk1 := -1, 0;
      if c1 < 2 {
        wz1, wk1 := MarchWitness(col, z + 1, r', c1);
      }
      if wz1 != -1 {
        wz, wk := wz1, wk1;
        assert March(col, z, r, count) == March(col, z + 1, r', c1);
      } else if w != -1 {
        wz, wk := z, w;
      } else {
        wz, wk := -1, 0;
      }
    }
  }

  /**
   * The march stops before the far end only right after a bin whose scan
   * found a new best hit: the result is the hit of slot `k` of that bin.
   * Starting from a zero count, it never stops at the first bin.
   */
  lemma {:induction false} MarchStopsAfterHit(col: seq<seq<Option<Ray>>>, z: int, r: Ray, count: int) returns (k: int)
    requires 0 <= z <= |col| && 0 <= count < 2
    ensures var v := Visited(col, z, r, count);
            v < |col| ==> && z < v
                          && 0 <= k < |col[v - 1]|
                          && col[v - 1][k] == Some(March(col, z, r, count))
                          && r.closest < March(col, z, r, count).closest
                          && (count == 0 ==> z + 1 < v)
    decreases |col| - z
  {
    k := 0;
    if z < |col| {
      var c0 := if |col[z]| == 0 then 0 else count;
      var r' := Scan(col[z], r, |col[z]|);
      var c1 := c0 + if r'.closest > r.closest then 1 else 0;
      var w := ScanKeepsDeepest(col[z], r, |col[z]|);
      if c1 < 2 {
        k := MarchStopsAfterHit(col, z + 1, r', c1);
      } else {
        k := w;
      }
    }
  }

  /** A column with no hit in any bin is marched to the far end and left at the start. */
  lemma {:induction false} MarchNoHit(col: seq<seq<Option<Ray>>>, z: int, r: Ray, count: int)
    requires 0 <= z <= |col| && 0 <= count < 2
    requires forall z', k' :: z <= z' < |col| && 0 <= k' < |col[z']| ==> col[z'][k'].None?
    ensures March(col, z, r, count) == r
    ensures Visited(col, z, r, count) == |col|
    decreases |col| - z
  {
    if z < |col| {
      ScanNoHit(col[z], r, |col[z]|);
      MarchNoHit(col, z + 1, r, if |col[z]| == 0 then 0 else count);
    }
  }

  /**
   * The pixel of (i, j) is the deepest hit among the bins its march visits:
   * background grey when none of them holds a hit, or else the pixel of the
   * hit of slot `wk` of the bin at layer `wz`, whose key no visited hit
   * exceeds.
   */
  lemma PixelIsDeepestHit(f: Frame, i: int, j: int) returns (wz: int, wk: int)
    requires Ready(f) && 0 <= i < ViewWidth && 0 <= j < ViewHeight
    ensures var res := March(Column(f, i, j), 0, Start, 0);
            && res.px == PixelOf(f, i, j)
            && (forall z', k' ::
                  && 0 <= z' < Visited(Column(f, i, j), 0, Start, 0) && 0 <= k' < f.counts[ColumnBin(i, j, z')]
                  && SlotHits(f, i, WorldJ(j), ColumnBin(i, j, z'), k')
                  ==> SlotRay(f, i, WorldJ(j), ColumnBin(i, j, z'), k').closest <= res.closest)
            && (wz == -1 ==> PixelOf(f, i, j) == Background)
            && (wz != -1 ==> && 0 <= wz < Visited(Column(f, i, j), 0, Start, 0) && wz < HashLength && 0 <= wk < f.counts[ColumnBin(i, j, wz)]
                             && SlotHits(f, i, WorldJ(j), ColumnBin(i, j, wz), wk)
                             && res == SlotRay(f, i, WorldJ(j), ColumnBin(i, j, wz), wk))
    ensures var res := March(Column(f, i, j), 0, Start, 0);
            wz != -1 ==>
              forall z', k' ::
                && 0 <= z' < wz && 0 <= k' < f.counts[ColumnBin(i, j, z')]
                && SlotHits(f, i, WorldJ(j), ColumnBin(i, j, z'), k')
                ==> SlotRay(f, i, WorldJ(j), ColumnBin(i, j, z'), k').closest < res.closest
    ensures var res := March(Column(f, i, j), 0, Start, 0);
            wz != -1 ==>
              forall k' :: 0 <= k' < wk && SlotHits(f, i, WorldJ(j), ColumnBin(i, j, wz), k') ==>
                SlotRay(f, i, WorldJ(j), ColumnBin(i, j, wz), k').closest < res.closest
  {
    var col: seq<seq<Option<Ray>>> := Column(f, i, j);
    ColumnIsColumnOf(f, i, j);
    MarchNoDeeper(col, 0, Start, 0);
    wz, wk := MarchWitness(col, 0, Start, 0);
    forall z', k' | 0 <= z' < Visited(col, 0, Start, 0) && 0 <= k' < f.counts[ColumnBin(i, j, z')]
                    && SlotHits(f, i, WorldJ(j), ColumnBin(i, j, z'), k')
      ensures SlotRay(f, i, WorldJ(j), ColumnBin(i, j, z'), k').closest <= March(col, 0, Start, 0).closest
    {
      assert col[z'][k'] == Candidate(f, i, WorldJ(j), ColumnBin(i, j, z'), k');
    }
    if wz != -1 {
      assert col[wz][wk] == Candidate(f, i, WorldJ(j), ColumnBin(i, j, wz), wk);
      forall z', k' | 0 <= z' < wz && 0 <= k' < f.counts[ColumnBin(i, j, z')]
                      && SlotHits(f, i, WorldJ(j), ColumnBin(i, j, z'), k')
        ensures SlotRay(f, i, WorldJ(j), ColumnBin(i, j, z'), k').closest < March(col, 0, Start, 0).closest
      {
        assert col[z'][k'] == Candidate(f, i, WorldJ(j), ColumnBin(i, j, z'), k');
      }
      forall k' | 0 <= k' < wk && SlotHits(f, i, WorldJ(j), ColumnBin(i, j, wz), k')
        ensures SlotRay(f, i, WorldJ(j), ColumnBin(i, j, wz), k').closest < March(col, 0, Start, 0).closest
      {
        assert col[wz][k'] == Candidate(f, i, WorldJ(j), ColumnBin(i, j, wz), k');
      }
    }
  }

  /** A pixel whose column holds no box its ray hits is background grey. */
  lemma PixelNoHit(f: Frame, i: int, j: int)
    requires Ready(f) && 0 <= i < ViewWidth && 0 <= j < ViewHeight
    requires forall z, k :: 0 <= z < HashLength && 0 <= k < f.counts[ColumnBin(i, j, z)] ==>
               !SlotHits(f, i, WorldJ(j), ColumnBin(i, j, z), k)
    ensures PixelOf(f, i, j) == Background
  {
    var col: seq<seq<Option<Ray>>> := Column(f, i, j);
    ColumnIsColumnOf(f, i, j);
    forall z, k | 0 <= z < HashLength && 0 <= k < |col[z]|
      ensures col[z][k].None?
    {
      assert col[z][k] == Candidate(f, i, WorldJ(j), ColumnBin(i, j, z), k);
    }
    MarchNoHit(col, 0, Start, 0);
  }

  /** Texture entries are row-major: an entry's row and column are its pixel's. */
  lemma TexIndexDecodes(i: int, j: int)
    requires 0 <= i < ViewWidth && 0 <= j < ViewHeight
    ensures 0 <= TexIndex(i, j) < TextureSize
    ensures TexIndex(i, j) / ViewWidth == j && TexIndex(i, j) % ViewWidth == i
  {
  }

  /** Distinct pixels have distinct texture entries. */
  lemma TexIndexDistinct(i: int, j: int, i': int, j': int)
    requires 0 <= i < ViewWidth && 0 <= j < ViewHeight && 0 <= i' < ViewWidth && 0 <= j' < ViewHeight
    requires i != i' || j != j'
    ensures TexIndex(i, j) != TexIndex(i', j')
  {
    if j < j' {
      assert TexIndex(i, j) < (j + 1) * ViewWidth <= j' * ViewWidth <= TexIndex(i', j');
    } else if j' < j {
      assert TexIndex(i', j') < (j' + 1) * ViewWidth <= j * ViewWidth <= TexIndex(i, j);
    }
  }

  /** Every texture entry belongs to a pixel. */
  lemma TexIndexOnto(t: int)
    requires 0 <= t < TextureSize
    ensures 0 <= t % ViewWidth < ViewWidth && 0 <= t / ViewWidth < ViewHeight
    ensures TexIndex(t % ViewWidth, t / ViewWidth) == t
  {
  }

  // ---------------------------------------------------------------------
  // The sweep itself

  /** The frame the sweep reads from the entity store and the three bin arrays. */
  function FrameOf(entities: Entities, bins: array<AABB>, counts: array<int>, owners: array<int>, palette: seq<Color>): Frame
    reads entities, bins, counts, owners
  {
    Frame(bins[..], counts[..], owners[..], entities.sprites, palette)
  }

  /**
   * Tests the box in slot `k` of `bin` against the ray of column `i` at
   * world height `worldJ` and, when it is hit, computes the hit's depth key
   * and pixel.
   */
  method TestSlot(ghost f: Frame, bins: array<AABB>, owners: array<int>, sprites: seq<Sprite>, palette: seq<Color>,
                  i: int, worldJ: int, bin: int, k: int) returns (c: Option<Ray>)
    requires Ready(f) && f.bins == bins[..] && f.owners == owners[..] && f.sprites == sprites && f.palette == palette
    requires Live(f, bin, k)
    ensures c == Candidate(f, i, worldJ, bin, k)
  {
    var index := bin * SparseBinSize + k;
    var box := bins[index];
    if i >= box.position.x && i < box.position.x + box.extent.x
       && worldJ > box.position.y + box.position.z
       && worldJ <= box.position.y + box.extent.y + box.position.z + box.extent.z
    {
      var e := owners[index];
      var sprite := sprites[e];
      TexelInRange(i, worldJ, box, sprite, |palette|);
      var row := box.position.y + box.extent.y + box.position.z + box.extent.z - worldJ;
      var t := row * SpriteRowWidth + (i - box.position.x);
      var depth := box.position.y - box.position.z + Min(0, box.extent.y - row) - sprite.depth[t];
      var px := Pixel(sprite.normal[t], palette[sprite.color[t]],
                      box.position.y + box.extent.y + box.extent.z - row - sprite.depth[t],
                      box.position.z + sprite.depth[t], e);
      c := Some(Ray(depth, px));
    } else {
      c := None;
    }
  }

  /**
   * Tests the live slots of one bin against the ray, starting from the best
   * hit `r0` of the nearer bins; a hit replaces the best only when its key
   * is strictly greater. Reports whether any slot became the new best.
   */
  method ScanBin(ghost f: Frame, ghost col: seq<seq<Option<Ray>>>, bins: array<AABB>, owners: array<int>,
                 sprites: seq<Sprite>, palette: seq<Color>, i: int, j: int, worldJ: int, binZ: int, bin: int, n: int, r0: Ray)
    returns (r: Ray, hasIntersected: bool)
    requires Ready(f) && f.bins == bins[..] && f.owners == owners[..] && f.sprites == sprites && f.palette == palette
    requires 0 <= i < ViewWidth && 0 <= j < ViewHeight && worldJ == WorldJ(j) && ColumnOf(f, i, j, col)
    requires 0 <= binZ < HashLength && bin == IndexIntoViewHash(i / SingleBinCubicSize, j / SingleBinCubicSize, binZ)
    requires n == f.counts[bin]
    ensures |col[binZ]| == n
    ensures r == Scan(col[binZ], r0, n)
    ensures hasIntersected <==> r.closest > r0.closest
  {
    assert bin == ColumnBin(i, j, binZ);
    ghost var cs := col[binZ];
    r, hasIntersected := r0, false;
    var k := 0;
    while k < n
      invariant 0 <= k <= n
      invariant r == Scan(cs, r0, k)
      invariant hasIntersected <==> r.closest > r0.closest
    {
      var c := TestSlot(f, bins, owners, sprites, palette, i, worldJ, bin, k);
      assert cs[k] == c by {
        assert Slot(bin, k) == bin * SparseBinSize + k;
      }
      if c.Some? && c.value.closest > r.closest {
        r := c.value;
        hasIntersected := true;
      }
      k := k + 1;
    }
  }

  /**
   * Marches the bins behind pixel (i, j) from near to far and returns the
   * pixel to draw there.
   */
  method MarchRay(ghost f: Frame, ghost col: seq<seq<Option<Ray>>>, bins: array<AABB>, counts: array<int>,
                  owners: array<int>, sprites: seq<Sprite>, palette: seq<Color>, i: int, j: int) returns (px: Pixel)
    requires Ready(f) && f == Frame(bins[..], counts[..], owners[..], sprites, palette)
    requires 0 <= i < ViewWidth && 0 <= j < ViewHeight && ColumnOf(f, i, j, col)
    ensures px == March(col, 0, Start, 0).px
  {
    var worldJ := ViewHeight - j;
    var ray := Start;
    var intersectedBinCount := 0;
    var binX := i / SingleBinCubicSize;
    var binZ := 0;
    while binZ < HashLength
      invariant 0 <= binZ <= HashLength
      invariant March(col, binZ, ray, intersectedBinCount) == March(col, 0, Start, 0)
    {
      var binY := j / SingleBinCubicSize;
      var bin := IndexIntoViewHash(binX, binY, binZ);
      var n := counts[bin];
      if n == 0 {
        intersectedBinCount := 0;
      }
      var next, hit := ScanBin(f, col, bins, owners, sprites, palette, i, j, worldJ, binZ, bin, n, ray);
      intersectedBinCount := intersectedBinCount + if hit then 1 else 0;
      ray := next;
      if intersectedBinCount >= 2 {
        break;
      }
      binZ := binZ + 1;
    }
    px := ray.px;
  }

  /** Draws pixel column `i` and leaves every other column of the texture as it was. */
  method TraceColumn(ghost f: Frame, bins: array<AABB>, counts: array<int>, owners: array<int>, sprites: seq<Sprite>,
                     palette: seq<Color>, i: int, texture: array<Pixel>)
    requires Ready(f) && f == Frame(bins[..], counts[..], owners[..], sprites, palette)
    requires 0 <= i < ViewWidth && texture.Length == TextureSize
    modifies texture
    ensures forall j :: 0 <= j < ViewHeight ==> texture[TexIndex(i, j)] == PixelOf(f, i, j)
    ensures forall i', j :: 0 <= i' < ViewWidth && i' != i && 0 <= j < ViewHeight ==>
              texture[TexIndex(i', j)] == old(texture[TexIndex(i', j)])
  {
    var j := 0;
    while j < ViewHeight
      invariant 0 <= j <= ViewHeight
      invariant forall j' :: 0 <= j' < j ==> texture[TexIndex(i, j')] == PixelOf(f, i, j')
      invariant forall i', j' :: 0 <= i' < ViewWidth && i' != i && 0 <= j' < ViewHeight ==>
                  texture[TexIndex(i', j')] == old(texture[TexIndex(i', j')])
    {
      ColumnIsColumnOf(f, i, j);
      var px := MarchRay(f, Column(f, i, j), bins, counts, owners, sprites, palette, i, j);
      forall i', j' | 0 <= i' < ViewWidth && 0 <= j' < ViewHeight && (i' != i || j' != j)
        ensures TexIndex(i', j') != TexIndex(i, j)
      {
        TexIndexDistinct(i', j', i, j);
      }
      texture[j * ViewWidth + i] := px;
      j := j + 1;
    }
  }

  /**
   * Draws every pixel of the view: afterwards each texture entry holds the
   * deepest hit of its pixel's march, or background grey.
   */
  method TraceHashForPixel(entities: Entities, bins: array<AABB>, counts: array<int>, owners: array<int>,
                           palette: seq<Color>, texture: array<Pixel>)
    requires Ready(FrameOf(entities, bins, counts, owners, palette)) && texture.Length == TextureSize
    modifies texture
    ensures forall i, j :: 0 <= i < ViewWidth && 0 <= j < ViewHeight ==>
              texture[TexIndex(i, j)] == PixelOf(FrameOf(entities, bins, counts, owners, palette), i, j)
  {
    ghost var f := FrameOf(entities, bins, counts, owners, palette);
    var i := 0;
    while i < ViewWidth
      invariant 0 <= i <= ViewWidth
      invariant forall i', j :: 0 <= i' < i && 0 <= j < ViewHeight ==> texture[TexIndex(i', j)] == PixelOf(f, i', j)
    {
      TraceColumn(f, bins, counts, owners, entities.sprites, palette, i, texture);
      i := i + 1;
    }
  }
}
