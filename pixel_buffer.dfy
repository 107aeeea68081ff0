/**
 * The GPU-side pixel buffer of the depth compositor: a 75 x 120 grid of
 * cells, each holding 4 x 4 buckets, one bucket per screen pixel of the
 * 480 x 300 view. The nested C++ arrays `cells[75][120].pixel_buckets[4][4]`
 * are stored here flat, in the same row-major order.
 */
module PixelBuffer {
  import opened Buckets
  import Arith

  const ViewWidth := 480
  const ViewHeight := 300
  const CellRows := 75
  const CellColumns := 120
  /** A cell is CellSize x CellSize buckets. */
  const CellSize := 4
  const BucketCount := 144000

  predicate InView(viewX: int, viewY: int)
  {
    0 <= viewX < ViewWidth && 0 <= viewY < ViewHeight
  }

  /** Flat position of `cells[cellY][cellX].pixel_buckets[j][i]`. */
  function BucketIndex(cellY: int, cellX: int, j: int, i: int): (r: int)
    ensures 0 <= cellY < CellRows && 0 <= cellX < CellColumns && 0 <= j < CellSize && 0 <= i < CellSize
            ==> 0 <= r < BucketCount
  {
    ((cellY * CellColumns + cellX) * CellSize + j) * CellSize + i
  }

  /**
   * The bucket of view position (viewX, viewY): its cell is the position
   * divided by the cell size, the bucket inside the cell the remainder.
   * Every index this takes is in range for a position in the view.
   */
  function BucketOf(viewX: int, viewY: int): (r: int)
    ensures InView(viewX, viewY) ==>
              && 0 <= viewY / CellSize < CellRows && 0 <= viewX / CellSize < CellColumns
              && 0 <= viewY - viewY / CellSize * CellSize < CellSize
              && 0 <= viewX - viewX / CellSize * CellSize < CellSize
              && 0 <= r < BucketCount
  {
    var cellX := viewX / CellSize;
    var cellY := viewY / CellSize;
    BucketIndex(cellY, cellX, viewY - cellY * CellSize, viewX - cellX * CellSize)
  }

  /** The view column of bucket `b`: its cell's column, then its place in the cell. */
  function ViewXOf(b: int): int
  {
    b / CellSize / CellSize % CellColumns * CellSize + b % CellSize
  }

  /** The view row of bucket `b`: its cell's row, then its place in the cell. */
  function ViewYOf(b: int): int
  {
    b / CellSize / CellSize / CellColumns * CellSize + b / CellSize % CellSize
  }

  /** Quotient and remainder of `n` by `d` when `n` is written as `q * d + r`. */
  lemma DivMod(n: int, d: int, q: int, r: int)
    requires 0 < d && 0 <= r < d && n == q * d + r
    ensures n / d == q && n % d == r
  {
    var e := q - n / d;
    assert e * d == n % d - r;
    if e >= 1 {
      Arith.MulMonotone(d, 1, e);
    } else if e <= -1 {
      assert (-e) * d == -(e * d);
      Arith.MulMonotone(d, 1, -e);
    }
  }

  /** Every view position has its own bucket, and ViewXOf/ViewYOf recover the position. */
  lemma BucketOfDecodes(viewX: int, viewY: int)
    requires InView(viewX, viewY)
    ensures ViewXOf(BucketOf(viewX, viewY)) == viewX && ViewYOf(BucketOf(viewX, viewY)) == viewY
  {
    var cx, i := viewX / CellSize, viewX % CellSize;
    var cy, j := viewY / CellSize, viewY % CellSize;
    var b := BucketOf(viewX, viewY);
    assert b == ((cy * CellColumns + cx) * CellSize + j) * CellSize + i;
    DivMod(b, CellSize, (cy * CellColumns + cx) * CellSize + j, i);
    DivMod(b / CellSize, CellSize, cy * CellColumns + cx, j);
    DivMod(b / CellSize / CellSize, CellColumns, cy, cx);
  }

  /** Distinct view positions use distinct buckets. */
  lemma BucketOfDistinct(viewX: int, viewY: int, viewX': int, viewY': int)
    requires InView(viewX, viewY) && InView(viewX', viewY')
    requires viewX != viewX' || viewY != viewY'
    ensures BucketOf(viewX, viewY) != BucketOf(viewX', viewY')
  {
    BucketOfDecodes(viewX, viewY);
    BucketOfDecodes(viewX', viewY');
  }

  /** Every bucket belongs to a view position: the buckets and the view are in one-to-one correspondence. */
  lemma BucketOfOnto(b: int)
    requires 0 <= b < BucketCount
    ensures InView(ViewXOf(b), ViewYOf(b)) && BucketOf(ViewXOf(b), ViewYOf(b)) == b
  {
    var i, j := b % CellSize, b / CellSize % CellSize;
    var cx, cy := b / CellSize / CellSize % CellColumns, b / CellSize / CellSize / CellColumns;
    assert b / CellSize / CellSize == cy * CellColumns + cx;
    assert b / CellSize == (cy * CellColumns + cx) * CellSize + j;
    assert b == ((cy * CellColumns + cx) * CellSize + j) * CellSize + i;
    var x, y := ViewXOf(b), ViewYOf(b);
    DivMod(x, CellSize, cx, i);
    DivMod(y, CellSize, cy, j);
  }

  /** The bucket with every fragment's palette index and depth reset and its size zeroed; normals stay. */
  function Cleared(b: PixelBucket): (r: PixelBucket)
    ensures ValidBucket(b) ==> ValidBucket(r)
    ensures r.size == 0 && |r.pixels| == |b.pixels|
    ensures forall k :: 0 <= k < |b.pixels| ==>
              && r.pixels[k].normal == b.pixels[k].normal
              && r.pixels[k].paletteIndex == 0
              && r.pixels[k].depth == Depth(0, 0)
  {
    PixelBucket(0, seq(|b.pixels|, k requires 0 <= k < |b.pixels| =>
                                     b.pixels[k].(paletteIndex := 0, depth := Depth(0, 0))))
  }

  /** A sprite atlas: sprites of one size, stored one after another, row by row. */
  datatype SpriteAtlas = SpriteAtlas(spriteWidth: int, spriteHeight: int, pixels: seq<Pixel>)

  /** Sprite `atlasIndex` lies wholly inside the atlas. */
  predicate AtlasHolds(atlas: SpriteAtlas, atlasIndex: int)
  {
    && 0 <= atlas.spriteWidth && 0 <= atlas.spriteHeight && 0 <= atlasIndex
    && (atlasIndex + 1) * (atlas.spriteWidth * atlas.spriteHeight) <= |atlas.pixels|
  }

  /** Position in the atlas of texel (i, j) of sprite `atlasIndex`. */
  function TexelIndex(atlas: SpriteAtlas, atlasIndex: int, i: int, j: int): int
  {
    atlasIndex * atlas.spriteWidth * atlas.spriteHeight + j * atlas.spriteWidth + i
  }

  /** Every texel of a sprite the atlas holds lies inside the atlas. */
  lemma TexelInAtlas(atlas: SpriteAtlas, atlasIndex: int, i: int, j: int)
    requires AtlasHolds(atlas, atlasIndex)
    requires 0 <= i < atlas.spriteWidth && 0 <= j < atlas.spriteHeight
    ensures 0 <= TexelIndex(atlas, atlasIndex, i, j) < |atlas.pixels|
  {
    var w, h := atlas.spriteWidth, atlas.spriteHeight;
    RowBound(w, h, i, j);
    SpriteBound(atlasIndex, w, h);
  }

  /** Texel (i, j) of a w x h sprite lies before the sprite's end. */
  lemma RowBound(w: int, h: int, i: int, j: int)
    requires 0 <= i < w && 0 <= j < h
    ensures 0 <= j * w + i < w * h
  {
    Arith.MulMonotone(w, j, h - 1);
    assert (h - 1) * w == w * h - w;
  }

  /** Sprite `n` of an atlas of w x h sprites starts at n * w * h and ends before (n + 1) * (w * h). */
  lemma SpriteBound(n: int, w: int, h: int)
    requires 0 <= n && 0 <= w && 0 <= h
    ensures 0 <= n * w * h && n * w * h + w * h == (n + 1) * (w * h)
  {
    Arith.MulMonotone(w * h, 0, n);
    assert n * w * h == n * (w * h);
  }

  /**
   * The fragment texel (i, j) of sprite `atlasIndex` becomes when the
   * sprite is drawn at world height `worldY` and depth `worldZ`: the
   * texel's normal and palette entry, its depth moved by the world
   * position.
   */
  function Fragment(atlas: SpriteAtlas, atlasIndex: int, i: int, j: int, worldY: int, worldZ: int): (r: Pixel)
    requires AtlasHolds(atlas, atlasIndex)
    requires 0 <= i < atlas.spriteWidth && 0 <= j < atlas.spriteHeight
  {
    TexelInAtlas(atlas, atlasIndex, i, j);
    var texel := atlas.pixels[TexelIndex(atlas, atlasIndex, i, j)];
    Pixel(texel.normal, Depth(texel.depth.y - worldY, texel.depth.z - worldZ), texel.paletteIndex)
  }

  /** Some texel of a sprite drawn at (worldX, worldY, worldZ) lands on view position (viewX, viewY). */
  predicate Covers(atlas: SpriteAtlas, worldX: int, worldY: int, worldZ: int, viewX: int, viewY: int)
  {
    0 <= viewX - worldX < atlas.spriteWidth && 0 <= viewY - worldY + worldZ < atlas.spriteHeight
  }

  /**
   * The texel that lands on view position (viewX, viewY) lies in a row
   * before `rows`, or in row `rows` at a column before `columns`: it is
   * among the texels the row-major walk has visited once it reaches texel
   * (columns, rows).
   */
  predicate DrawnBefore(atlas: SpriteAtlas, worldX: int, worldY: int, worldZ: int,
                        viewX: int, viewY: int, rows: int, columns: int)
  {
    var i := viewX - worldX;
    var j := viewY - worldY + worldZ;
    Covers(atlas, worldX, worldY, worldZ, viewX, viewY) && (j < rows || (j == rows && i < columns))
  }

  /**
   * The bucket of view position (viewX, viewY) once the sprite's texels
   * before (columns, rows) are drawn over `before`: the fragment of the
   * position's own texel pushed when that texel is among them, the bucket
   * untouched otherwise.
   */
  function DrawnBucket(before: seq<PixelBucket>, atlas: SpriteAtlas, atlasIndex: int,
                       worldX: int, worldY: int, worldZ: int,
                       viewX: int, viewY: int, rows: int, columns: int): (r: PixelBucket)
    requires |before| == BucketCount && InView(viewX, viewY)
    requires ValidBucket(before[BucketOf(viewX, viewY)]) && AtlasHolds(atlas, atlasIndex)
  {
    var b := before[BucketOf(viewX, viewY)];
    if DrawnBefore(atlas, worldX, worldY, worldZ, viewX, viewY, rows, columns)
    then Pushed(b, Fragment(atlas, atlasIndex, viewX - worldX, viewY - worldY + worldZ, worldY, worldZ))
    else b
  }

  /**
   * Bucket by bucket: a buffer holding, at every view position, the
   * sprite drawn over `before` has the covering texel's fragment pushed
   * into every bucket the sprite covers, and every other bucket (outside
   * the clipped footprint) unchanged.
   */
  lemma DrawnBuckets(before: seq<PixelBucket>, after: seq<PixelBucket>, atlas: SpriteAtlas, atlasIndex: int,
                     worldX: int, worldY: int, worldZ: int)
    requires |before| == |after| == BucketCount && AtlasHolds(atlas, atlasIndex)
    requires forall b :: 0 <= b < BucketCount ==> ValidBucket(before[b])
    requires forall viewX, viewY :: InView(viewX, viewY) ==>
               after[BucketOf(viewX, viewY)]
               == DrawnBucket(before, atlas, atlasIndex, worldX, worldY, worldZ, viewX, viewY, atlas.spriteHeight, 0)
    ensures forall b :: 0 <= b < BucketCount ==>
              after[b] == if Covers(atlas, worldX, worldY, worldZ, ViewXOf(b), ViewYOf(b))
                          then Pushed(before[b], Fragment(atlas, atlasIndex, ViewXOf(b) - worldX,
                                                          ViewYOf(b) - worldY + worldZ, worldY, worldZ))
                          else before[b]
  {
    forall b | 0 <= b < BucketCount
      ensures after[b] == if Covers(atlas, worldX, worldY, worldZ, ViewXOf(b), ViewYOf(b))
                          then Pushed(before[b], Fragment(atlas, atlasIndex, ViewXOf(b) - worldX,
                                                          ViewYOf(b) - worldY + worldZ, worldY, worldZ))
                          else before[b]
    {
      BucketOfOnto(b);
    }
  }

  /**
   * Reads texel (i, j) of sprite `atlasIndex` and makes the fragment it
   * becomes at world height `worldY` and depth `worldZ`.
   */
  method TexelFragment(atlas: SpriteAtlas, atlasIndex: int, i: int, j: int, worldY: int, worldZ: int)
    returns (fragment: Pixel)
    requires AtlasHolds(atlas, atlasIndex)
    requires 0 <= i < atlas.spriteWidth && 0 <= j < atlas.spriteHeight
    ensures fragment == Fragment(atlas, atlasIndex, i, j, worldY, worldZ)
  {
    TexelInAtlas(atlas, atlasIndex, i, j);
    var currentPixelIndex := atlasIndex * atlas.spriteWidth * atlas.spriteHeight + j * atlas.spriteWidth + i;
    var currentPixel := atlas.pixels[currentPixelIndex];
    fragment := Pixel(currentPixel.normal,
                      Depth(currentPixel.depth.y - worldY, currentPixel.depth.z - worldZ),
                      currentPixel.paletteIndex);
  }

  class GpuPixelBuffer {
    /** `cells[cellY][cellX].pixel_buckets[j][i]` at BucketIndex(cellY, cellX, j, i). */
    const buckets: array<PixelBucket>

    ghost predicate Valid()
      reads this, buckets
    {
      buckets.Length == BucketCount && forall b :: 0 <= b < BucketCount ==> ValidBucket(buckets[b])
    }

    /** A fresh buffer: every bucket empty. */
    constructor (blank: Pixel)
      ensures Valid() && fresh(buckets)
      ensures forall b :: 0 <= b < BucketCount ==> buckets[b].size == 0
    {
      buckets := new PixelBucket[BucketCount](_ => PixelBucket(0, seq(BucketCapacity, _ => blank)));
    }

    /** PixelBucket::push on bucket `b`, in place: stores the fragment when the bucket has room. */
    method Push(b: int, pixel: Pixel)
      requires Valid() && 0 <= b < BucketCount
      modifies buckets
      ensures Valid()
      ensures buckets[b] == Pushed(old(buckets[b]), pixel)
      ensures forall b' :: 0 <= b' < BucketCount && b' != b ==> buckets[b'] == old(buckets[b'])
    {
      var bucket := buckets[b];
      if bucket.size < BucketCapacity {
        bucket := bucket.(pixels := bucket.pixels[bucket.size := pixel]);
        bucket := bucket.(size := bucket.size + 1);
        buckets[b] := bucket;
      }
    }

    /** Empties bucket `b` and resets its fragments' palette index and depth. */
    method ClearBucket(b: int)
      requires Valid() && 0 <= b < BucketCount
      modifies buckets
      ensures Valid()
      ensures buckets[b] == Cleared(old(buckets[b]))
      ensures forall b' :: 0 <= b' < BucketCount && b' != b ==> buckets[b'] == old(buckets[b'])
    {
      buckets[b] := buckets[b].(size := 0);
      for k := 0 to BucketCapacity
        invariant buckets[b].size == 0 && |buckets[b].pixels| == BucketCapacity
        invariant forall m :: 0 <= m < k ==> buckets[b].pixels[m] == Cleared(old(buckets[b])).pixels[m]
        invariant forall m :: k <= m < BucketCapacity ==> buckets[b].pixels[m] == old(buckets[b]).pixels[m]
        invariant forall b' :: 0 <= b' < BucketCount && b' != b ==> buckets[b'] == old(buckets[b'])
      {
        var currentPixel := buckets[b].pixels[k];
        currentPixel := currentPixel.(paletteIndex := 0, depth := Depth(0, 0));
        buckets[b] := buckets[b].(pixels := buckets[b].pixels[k := currentPixel]);
      }
    }

    /** Resets every bucket of every cell. */
    method Clear()
      requires Valid()
      modifies buckets
      ensures Valid()
      ensures forall b :: 0 <= b < BucketCount ==> buckets[b] == Cleared(old(buckets[b]))
    {
      ghost var before := buckets[..];
      for cellY := 0 to CellRows
        invariant Valid()
        invariant forall b :: 0 <= b < BucketIndex(cellY, 0, 0, 0) ==> buckets[b] == Cleared(before[b])
        invariant forall b :: BucketIndex(cellY, 0, 0, 0) <= b < BucketCount ==> buckets[b] == before[b]
      {
        for cellX := 0 to CellColumns
          invariant Valid()
          invariant forall b :: 0 <= b < BucketIndex(cellY, cellX, 0, 0) ==> buckets[b] == Cleared(before[b])
          invariant forall b :: BucketIndex(cellY, cellX, 0, 0) <= b < BucketCount ==> buckets[b] == before[b]
        {
          for j := 0 to CellSize
            invariant Valid()
            invariant forall b :: 0 <= b < BucketIndex(cellY, cellX, j, 0) ==> buckets[b] == Cleared(before[b])
            invariant forall b :: BucketIndex(cellY, cellX, j, 0) <= b < BucketCount ==> buckets[b] == before[b]
          {
            for i := 0 to CellSize
              invariant Valid()
              invariant forall b :: 0 <= b < BucketIndex(cellY, cellX, j, i) ==> buckets[b] == Cleared(before[b])
              invariant forall b :: BucketIndex(cellY, cellX, j, i) <= b < BucketCount ==> buckets[b] == before[b]
            {
              ClearBucket(BucketIndex(cellY, cellX, j, i));
            }
          }
        }
      }
    }

    /**
     * Draws sprite `atlasIndex` of the atlas at world position (worldX,
     * worldY, worldZ): each texel that lands in the view is pushed, as a
     * fragment, into the bucket of its view position. The result is the
     * old buffer with the whole sprite drawn over it.
     */
    method DrawSprite(atlas: SpriteAtlas, worldX: int, worldY: int, worldZ: int, atlasIndex: int)
      requires Valid() && AtlasHolds(atlas, atlasIndex)
      modifies buckets
      ensures Valid()
      ensures forall viewX, viewY :: InView(viewX, viewY) ==>
                buckets[BucketOf(viewX, viewY)]
                == DrawnBucket(old(buckets[..]), atlas, atlasIndex, worldX, worldY, worldZ,
                               viewX, viewY, atlas.spriteHeight, 0)
    {
      ghost var before := buckets[..];
      for j := 0 to atlas.spriteHeight
        invariant Valid()
        invariant forall viewX, viewY :: InView(viewX, viewY) ==>
                    buckets[BucketOf(viewX, viewY)]
                    == DrawnBucket(before, atlas, atlasIndex, worldX, worldY, worldZ, viewX, viewY, j, 0)
      {
        for i := 0 to atlas.spriteWidth
          invariant Valid()
          invariant forall viewX, viewY :: InView(viewX, viewY) ==>
                      buckets[BucketOf(viewX, viewY)]
                      == DrawnBucket(before, atlas, atlasIndex, worldX, worldY, worldZ, viewX, viewY, j, i)
        {
          var viewX := worldX + i;
          var viewY := worldY + j - worldZ;
          if viewX < 0 || viewX >= ViewWidth || viewY < 0 || viewY >= ViewHeight {
            continue;
          }
          var cellX := viewX / CellSize;
          var cellY := viewY / CellSize;
          var b := BucketIndex(cellY, cellX, viewY - cellY * CellSize, viewX - cellX * CellSize);
          assert b == BucketOf(viewX, viewY);
          forall viewX', viewY' | InView(viewX', viewY') && (viewX' != viewX || viewY' != viewY)
            ensures BucketOf(viewX', viewY') != BucketOf(viewX, viewY)
          {
            BucketOfDistinct(viewX', viewY', viewX, viewY);
          }
          var fragment := TexelFragment(atlas, atlasIndex, i, j, worldY, worldZ);
          Push(b, fragment);
        }
      }
    }
  }
}
