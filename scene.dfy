/**
 * Shared vocabulary of the spatial-hash prototype: points, boxes, sprites,
 * the view volume and the flattening of bin coordinates into one index.
 */
module Scene {

  datatype Option<T> = None | Some(value: T)

  /** A 16-bit signed integer: the coordinate type of `Point<short>`. */
  type Short = x: int | -0x8000 <= x < 0x8000

  datatype Point<T> = Point(x: T, y: T, z: T)

  /** Component-wise comparison of two points, as `Point::operator==` does it. */
  function PointEquals<T(==)>(p: Point<T>, q: Point<T>): (r: bool)
    ensures r <==> p == q
  {
    q.x == p.x && q.y == p.y && q.z == p.z
  }

  /** An axis-aligned box: its minimum corner and its size on each axis. */
  datatype AABB = AABB(position: Point<Short>, extent: Point<Short>)

  /** A unit surface normal; floats are only copied around, never computed on. */
  datatype Normal = Normal(x: real, y: real, z: real)

  datatype Color = Color(r: int, g: int, b: int, a: int)

  /**
   * Per-texel arrays of one sprite: a depth offset, a normal and an index
   * into the colour palette, all addressed by `row * SpriteRowWidth + column`.
   */
  datatype Sprite = Sprite(depth: seq<int>, normal: seq<Normal>, color: seq<int>)

  /** The sweep addresses sprite texels with a fixed row width of 20. */
  const SpriteRowWidth := 20

  // The view volume and the bin grid laid over it.
  const SingleBinCubicSize := 40
  const ViewWidth := 480
  const ViewHeight := 320
  const ViewLength := 320
  // The grid sizes are the view extents divided by the bin size (see GridFitsView).
  const HashWidth := 12
  const HashHeight := 8
  const HashLength := 8
  const HashVolume := 768

  /** Capacity of one bin; a power of two so that counts wrap with `& 7`. */
  const SparseBinSize := 8

  /** The grid covers the view volume exactly, one bin per 40-unit cube. */
  lemma GridFitsView()
    ensures HashWidth * SingleBinCubicSize == ViewWidth
    ensures HashHeight * SingleBinCubicSize == ViewHeight
    ensures HashLength * SingleBinCubicSize == ViewLength
    ensures HashVolume == HashWidth * HashHeight * HashLength
  {
  }

  predicate InGrid(x: int, y: int, z: int)
  {
    0 <= x < HashWidth && 0 <= y < HashHeight && 0 <= z < HashLength
  }

  /**
   * Flattens bin coordinates so that the depth axis is contiguous, then the
   * vertical axis, then the horizontal one.
   */
  function IndexIntoViewHash(x: int, y: int, z: int): (r: int)
    ensures InGrid(x, y, z) ==> 0 <= r < HashVolume
  {
    x * 64 + y * 8 + z
  }

  /** The flat index determines the coordinates it came from. */
  lemma IndexDecodes(x: int, y: int, z: int)
    requires InGrid(x, y, z)
    ensures IndexIntoViewHash(x, y, z) / (HashHeight * HashLength) == x
    ensures IndexIntoViewHash(x, y, z) / HashLength % HashHeight == y
    ensures IndexIntoViewHash(x, y, z) % HashLength == z
  {
    var r := IndexIntoViewHash(x, y, z);
    assert r == x * 64 + (y * 8 + z) && 0 <= y * 8 + z < 64;
    assert r / 8 == x * 8 + y;
  }

  /** Different bins of the grid never share a flat index. */
  lemma IndexInjective(x: int, y: int, z: int, x': int, y': int, z': int)
    requires InGrid(x, y, z) && InGrid(x', y', z')
    requires IndexIntoViewHash(x, y, z) == IndexIntoViewHash(x', y', z')
    ensures x == x' && y == y' && z == z'
  {
    IndexDecodes(x, y, z);
    IndexDecodes(x', y', z');
  }

  /** Every flat index of the grid is the index of some bin. */
  lemma IndexOnto(r: int)
    requires 0 <= r < HashVolume
    ensures InGrid(r / 64, r / 8 % 8, r % 8)
    ensures IndexIntoViewHash(r / 64, r / 8 % 8, r % 8) == r
  {
    assert r / 8 == r / 64 * 8 + r / 8 % 8;
  }
}
