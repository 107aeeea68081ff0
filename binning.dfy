/**
 * Rebuilding the spatial hash: every box that is not culled against the view
 * volume is copied into each bin it overlaps, together with the index of the
 * entity that owns it. Each bin has eight slots and a count that wraps.
 */
module Binning {
  import opened Scene
  import opened World

  /** C++ division by the bin size, which truncates toward zero. */
  function TruncDiv(a: int): int
  {
    if a >= 0 then a / 40 else -((-a) / 40)
  }

  /**
   * The quotient rounds toward zero: down for a non-negative dividend and
   * up for a negative one, so -39 and 39 both land in bin 0.
   */
  lemma TruncDivRounds(a: int)
    ensures a >= 0 ==> 0 <= a - TruncDiv(a) * 40 < 40
    ensures a < 0 ==> 0 <= TruncDiv(a) * 40 - a < 40
    ensures TruncDiv(-a) == -TruncDiv(a)
  {
  }

  function Max(a: int, b: int): int { if a < b then b else a }
  function Min(a: int, b: int): int { if b < a then b else a }

  /**
   * The view test: a box is skipped when it lies wholly left or right of the
   * view, or above or below it once its oblique (y + z) screen row is taken
   * into account, or wholly in front of or behind the view volume.
   */
  predicate Culled(box: AABB)
  {
    var p, e := box.position, box.extent;
    || p.x + e.x < 0
    || p.x >= ViewWidth
    || p.y + e.y < 0 - (p.z + e.z)
    || p.y >= ViewHeight - p.z + SingleBinCubicSize
    || p.z + e.z < -(e.z as int) - SingleBinCubicSize
    || p.z > ViewLength + SingleBinCubicSize
  }

  /** A half-open range of bins on each axis: [minX, maxX) and so on. */
  datatype Span = Span(minX: int, maxX: int, minY: int, maxY: int, minZ: int, maxZ: int)

  predicate InSpan(s: Span, x: int, y: int, z: int)
  {
    s.minX <= x < s.maxX && s.minY <= y < s.maxY && s.minZ <= z < s.maxZ
  }

  /**
   * The bins a box overlaps. The vertical bin row is a screen row, so it
   * grows as world y + z shrinks. Lower ends are clamped at 0 and upper ends
   * at the grid size, so every bin in the span lies inside the grid.
   */
  function BinSpan(box: AABB): (s: Span)
    ensures 0 <= s.minX && s.maxX <= HashWidth
    ensures 0 <= s.minY && s.maxY <= HashHeight
    ensures 0 <= s.minZ && s.maxZ <= HashLength
  {
    var p, e := box.position, box.extent;
    Span(
      Max(0, TruncDiv(p.x)),
      Min(HashWidth, TruncDiv(p.x + e.x + SingleBinCubicSize - 1)),
      Max(0, TruncDiv(ViewHeight - (p.y + e.y) - (p.z + e.z))),
      Min(HashHeight, TruncDiv(ViewHeight - p.y - p.z + SingleBinCubicSize - 1)),
      Max(0, TruncDiv(p.z)),
      Min(HashLength, TruncDiv(p.z + e.z + SingleBinCubicSize - 1)))
  }

  /**
   * A 40-unit cube aligned to the grid, with y + z <= 240, covers one bin
   * column in x and one bin layer in z, but two bin rows. Rows are taken from
   * the oblique screen height y + z, and the cube's y + z runs over 80 units
   * (its 40 of height plus its 40 of depth): two 40-unit rows.
   */
  lemma AlignedCubeSpan(a: int, b: int, c: int)
    requires 0 <= a < HashWidth && 0 <= c < HashLength && 0 <= b && b + c <= 6
    ensures var cube := AABB(Point(a * 40, b * 40, c * 40), Point(40, 40, 40));
            BinSpan(cube) == Span(a, a + 1, 6 - b - c, 8 - b - c, c, c + 1)
  {
    assert (a * 40 + 79) / 40 == a + 1;
    assert (240 - b * 40 - c * 40) / 40 == 6 - b - c;
    assert (359 - b * 40 - c * 40) / 40 == 8 - b - c;
    assert (c * 40 + 79) / 40 == c + 1;
  }

  /**
   * Higher up, the same cube is clipped by the top of the view: with
   * y + z == 280 it keeps the single row 0, and with y + z >= 320 its row
   * range is empty.
   */
  lemma AlignedCubeNearTop(a: int, b: int, c: int)
    requires 0 <= a < HashWidth && 0 <= c < HashLength && 0 <= b && b * 40 < 0x8000 && 7 <= b + c
    ensures var cube := AABB(Point(a * 40, b * 40, c * 40), Point(40, 40, 40));
            && (b + c == 7 ==> BinSpan(cube).minY == 0 && BinSpan(cube).maxY == 1)
            && (b + c >= 8 ==> BinSpan(cube).maxY <= 0 <= BinSpan(cube).minY)
  {
    if b + c == 7 {
      assert (359 - b * 40 - c * 40) == 79;
    }
  }

  /** A span whose every bin lies inside the grid. */
  predicate SpanInGrid(s: Span)
  {
    0 <= s.minX && s.maxX <= HashWidth && 0 <= s.minY && s.maxY <= HashHeight && 0 <= s.minZ && s.maxZ <= HashLength
  }

  /** Where a box is binned: nowhere when it is culled, else over its span. */
  function Placement(box: AABB): (p: Option<Span>)
    ensures p.Some? ==> SpanInGrid(p.value)
  {
    if Culled(box) then None else Some(BinSpan(box))
  }

  predicate PlacementOk(p: Option<Span>)
  {
    p.Some? ==> SpanInGrid(p.value)
  }

  /** Placements for a list of boxes, one per box. */
  predicate PlacementsOk(boxes: seq<AABB>, ps: seq<Option<Span>>)
  {
    |ps| == |boxes| && forall k :: 0 <= k < |ps| ==> PlacementOk(ps[k])
  }

  function Placements(boxes: seq<AABB>): (ps: seq<Option<Span>>)
    ensures PlacementsOk(boxes, ps)
  {
    seq(|boxes|, k requires 0 <= k < |boxes| => Placement(boxes[k]))
  }

  // ---------------------------------------------------------------------
  // The hash as a sequence of bins

  /**
   * One bin: the number of live slots and the eight slots themselves, each
   * holding a copy of a box and the index of the entity that owns it.
   */
  datatype Bin = Bin(count: int, boxes: seq<AABB>, owners: seq<int>)

  predicate BinOk(v: Bin)
  {
    0 <= v.count < SparseBinSize && |v.boxes| == SparseBinSize && |v.owners| == SparseBinSize
  }

  predicate WellFormed(hs: seq<Bin>)
  {
    |hs| == HashVolume && forall b :: 0 <= b < |hs| ==> BinOk(hs[b])
  }

  /**
   * One insertion into a bin: the box and its owner go to the slot the
   * count names, and the count moves on by one, wrapping from 7 back to 0.
   * The source writes the wrap as `(count + 1) & 7`, which equals Euclidean
   * `(count + 1) % 8` for every integer count.
   */
  function BinPush(v: Bin, box: AABB, e: int): (r: Bin)
    requires BinOk(v)
    ensures BinOk(r)
  {
    Bin((v.count + 1) % 8, v.boxes[v.count := box], v.owners[v.count := e])
  }

  function Insert(hs: seq<Bin>, bin: int, box: AABB, e: int): (r: seq<Bin>)
    requires WellFormed(hs) && 0 <= bin < HashVolume
    ensures WellFormed(r)
  {
    hs[bin := BinPush(hs[bin], box, e)]
  }

  /** The innermost loop: bins (x, y, z) for z in [zLo, zHi), in increasing z. */
  function FillZ(hs: seq<Bin>, x: int, y: int, zLo: int, zHi: int, box: AABB, e: int): (r: seq<Bin>)
    requires WellFormed(hs)
    requires 0 <= x < HashWidth && 0 <= y < HashHeight && 0 <= zLo && (zLo < zHi ==> zHi <= HashLength)
    ensures WellFormed(r)
    decreases zHi - zLo
  {
    if zHi <= zLo then hs
    else Insert(FillZ(hs, x, y, zLo, zHi - 1, box, e), IndexIntoViewHash(x, y, zHi - 1), box, e)
  }

  /** The middle loop: rows y in [yLo, yHi), each filled over [zLo, zHi). */
  function FillY(hs: seq<Bin>, x: int, yLo: int, yHi: int, zLo: int, zHi: int, box: AABB, e: int): (r: seq<Bin>)
    requires WellFormed(hs)
    requires 0 <= x < HashWidth && 0 <= yLo && (yLo < yHi ==> yHi <= HashHeight)
    requires 0 <= zLo && (zLo < zHi ==> zHi <= HashLength)
    ensures WellFormed(r)
    decreases yHi - yLo
  {
    if yHi <= yLo then hs
    else FillZ(FillY(hs, x, yLo, yHi - 1, zLo, zHi, box, e), x, yHi - 1, zLo, zHi, box, e)
  }

  /** The outer loop: columns x in [s.minX, xHi), each filled over the span's y and z. */
  function FillX(hs: seq<Bin>, s: Span, xHi: int, box: AABB, e: int): (r: seq<Bin>)
    requires WellFormed(hs)
    requires 0 <= s.minX && (s.minX < xHi ==> xHi <= HashWidth)
    requires 0 <= s.minY && (s.minY < s.maxY ==> s.maxY <= HashHeight)
    requires 0 <= s.minZ && (s.minZ < s.maxZ ==> s.maxZ <= HashLength)
    ensures WellFormed(r)
    decreases xHi - s.minX
  {
    if xHi <= s.minX then hs
    else FillY(FillX(hs, s, xHi - 1, box, e), xHi - 1, s.minY, s.maxY, s.minZ, s.maxZ, box, e)
  }

  /** Whether an entity with placement `p` is binned into bin (x, y, z). */
  predicate Covers(p: Option<Span>, x: int, y: int, z: int)
  {
    p.Some? && InSpan(p.value, x, y, z)
  }

  /**
   * Binning of entity `e`: it is pushed once into every bin its placement
   * covers, and every other bin is left as it was.
   */
  function ScatterOne(hs: seq<Bin>, e: int, box: AABB, p: Option<Span>): (r: seq<Bin>)
    requires WellFormed(hs)
    ensures WellFormed(r)
  {
    seq(HashVolume, b requires 0 <= b < HashVolume =>
      if Covers(p, b / 64, b / 8 % 8, b % 8) then BinPush(hs[b], box, e) else hs[b])
  }

  /**
   * Binning of the first `n` entities, in index order; entity `k` has box
   * `boxes[k]` and placement `ps[k]`.
   */
  function ScatterAll(hs: seq<Bin>, boxes: seq<AABB>, ps: seq<Option<Span>>, n: int): (r: seq<Bin>)
    requires WellFormed(hs) && PlacementsOk(boxes, ps) && 0 <= n <= |boxes|
    ensures WellFormed(r)
  {
    if n == 0 then hs else ScatterOne(ScatterAll(hs, boxes, ps, n - 1), n - 1, boxes[n - 1], ps[n - 1])
  }

  // ---------------------------------------------------------------------
  // What one entity does to each bin

  lemma {:induction false} FillZEffect(hs: seq<Bin>, x: int, y: int, zLo: int, zHi: int, box: AABB, e: int,
                                       tx: int, ty: int, tz: int)
    requires WellFormed(hs)
    requires 0 <= x < HashWidth && 0 <= y < HashHeight && 0 <= zLo && (zLo < zHi ==> zHi <= HashLength)
    requires InGrid(tx, ty, tz)
    ensures var b := IndexIntoViewHash(tx, ty, tz);
            FillZ(hs, x, y, zLo, zHi, box, e)[b]
            == if tx == x && ty == y && zLo <= tz < zHi then BinPush(hs[b], box, e) else hs[b]
    decreases zHi - zLo
  {
    if zHi > zLo {
      FillZEffect(hs, x, y, zLo, zHi - 1, box, e, tx, ty, tz);
      if !(tx == x && ty == y && tz == zHi - 1) && IndexIntoViewHash(tx, ty, tz) == IndexIntoViewHash(x, y, zHi - 1) {
        IndexInjective(tx, ty, tz, x, y, zHi - 1);
      }
    }
  }

  lemma {:induction false} FillYEffect(hs: seq<Bin>, x: int, yLo: int, yHi: int, zLo: int, zHi: int,
                                       box: AABB, e: int, tx: int, ty: int, tz: int)
    requires WellFormed(hs)
    requires 0 <= x < HashWidth && 0 <= yLo && (yLo < yHi ==> yHi <= HashHeight)
    requires 0 <= zLo && (zLo < zHi ==> zHi <= HashLength)
    requires InGrid(tx, ty, tz)
    ensures var b := IndexIntoViewHash(tx, ty, tz);
            FillY(hs, x, yLo, yHi, zLo, zHi, box, e)[b]
            == if tx == x && yLo <= ty < yHi && zLo <= tz < zHi then BinPush(hs[b], box, e) else hs[b]
    decreases yHi - yLo
  {
    if yHi > yLo {
      FillYEffect(hs, x, yLo, yHi - 1, zLo, zHi, box, e, tx, ty, tz);
      FillZEffect(FillY(hs, x, yLo, yHi - 1, zLo, zHi, box, e), x, yHi - 1, zLo, zHi, box, e, tx, ty, tz);
    }
  }

  lemma {:induction false} FillXEffect(hs: seq<Bin>, s: Span, xHi: int, box: AABB, e: int,
                                       tx: int, ty: int, tz: int)
    requires WellFormed(hs)
    requires 0 <= s.minX && (s.minX < xHi ==> xHi <= HashWidth)
    requires 0 <= s.minY && (s.minY < s.maxY ==> s.maxY <= HashHeight)
    requires 0 <= s.minZ && (s.minZ < s.maxZ ==> s.maxZ <= HashLength)
    requires InGrid(tx, ty, tz)
    ensures var b := IndexIntoViewHash(tx, ty, tz);
            FillX(hs, s, xHi, box, e)[b]
            == if s.minX <= tx < xHi && s.minY <= ty < s.maxY && s.minZ <= tz < s.maxZ
               then BinPush(hs[b], box, e) else hs[b]
    decreases xHi - s.minX
  {
    if xHi > s.minX {
      FillXEffect(hs, s, xHi - 1, box, e, tx, ty, tz);
      FillYEffect(FillX(hs, s, xHi - 1, box, e), xHi - 1, s.minY, s.maxY, s.minZ, s.maxZ, box, e, tx, ty, tz);
    }
  }

  /**
   * Binning one entity pushes it exactly once into every bin of its span
   * and leaves every other bin, and every bin when the entity is culled,
   * exactly as it was.
   */
  lemma {:induction false} ScatterOneEffect(hs: seq<Bin>, e: int, box: AABB, p: Option<Span>, x: int, y: int, z: int)
    requires WellFormed(hs) && InGrid(x, y, z)
    ensures var b := IndexIntoViewHash(x, y, z);
            ScatterOne(hs, e, box, p)[b] == if Covers(p, x, y, z) then BinPush(hs[b], box, e) else hs[b]
  {
    IndexDecodes(x, y, z);
  }

  /** The source's three nested loops over a span bin exactly the bins of the span. */
  lemma {:induction false} FillXScatters(hs: seq<Bin>, s: Span, box: AABB, e: int)
    requires WellFormed(hs) && SpanInGrid(s)
    ensures FillX(hs, s, s.maxX, box, e) == ScatterOne(hs, e, box, Some(s))
  {
    var f, g := FillX(hs, s, s.maxX, box, e), ScatterOne(hs, e, box, Some(s));
    forall b | 0 <= b < HashVolume
      ensures f[b] == g[b]
    {
      IndexOnto(b);
      FillXEffect(hs, s, s.maxX, box, e, b / 64, b / 8 % 8, b % 8);
    }
  }

  /** Binning an entity without a placement changes nothing. */
  lemma {:induction false} ScatterNone(hs: seq<Bin>, e: int, box: AABB)
    requires WellFormed(hs)
    ensures ScatterOne(hs, e, box, None) == hs
  {
    var g := ScatterOne(hs, e, box, None);
    forall b | 0 <= b < HashVolume
      ensures g[b] == hs[b]
    {
    }
  }

  // ---------------------------------------------------------------------
  // What all entities do to each bin

  /** The indices, in increasing order, of those of the first `n` entities that are binned into bin (x, y, z). */
  function CoveringList(ps: seq<Option<Span>>, n: int, x: int, y: int, z: int): (l: seq<int>)
    requires 0 <= n <= |ps|
    ensures forall k :: 0 <= k < |l| ==> 0 <= l[k] < n && Covers(ps[l[k]], x, y, z)
  {
    if n == 0 then []
    else CoveringList(ps, n - 1, x, y, z) + (if Covers(ps[n - 1], x, y, z) then [n - 1] else [])
  }

  predicate Increasing(l: seq<int>)
  {
    forall k, k' :: 0 <= k < k' < |l| ==> l[k] < l[k']
  }

  /** The list is in increasing entity order, so no entity appears twice. */
  lemma {:induction false} CoveringListIncreasing(ps: seq<Option<Span>>, n: int, x: int, y: int, z: int)
    requires 0 <= n <= |ps|
    ensures Increasing(CoveringList(ps, n, x, y, z))
  {
    if n > 0 {
      CoveringListIncreasing(ps, n - 1, x, y, z);
      var l1 := CoveringList(ps, n - 1, x, y, z);
      if Covers(ps[n - 1], x, y, z) {
        var l := CoveringList(ps, n, x, y, z);
        assert l == l1 + [n - 1];
        forall k, k' | 0 <= k < k' < |l|
          ensures l[k] < l[k']
        {
          assert l[k] == l1[k] < n - 1;
          if k' < |l1| {
            assert l[k'] == l1[k'];
          } else {
            assert l[k'] == n - 1;
          }
        }
      } else {
        assert CoveringList(ps, n, x, y, z) == l1;
      }
    }
  }

  /** Every entity among the first `n` that is binned into bin (x, y, z) is listed. */
  lemma {:induction false} CoveringListComplete(ps: seq<Option<Span>>, n: int, x: int, y: int, z: int, e: int)
    requires 0 <= e < n <= |ps| && Covers(ps[e], x, y, z)
    ensures e in CoveringList(ps, n, x, y, z)
  {
    if e < n - 1 {
      CoveringListComplete(ps, n - 1, x, y, z, e);
    }
  }

  /** A culled entity is binned nowhere, so it is in no bin's list. */
  lemma {:induction false} CulledNeverListed(boxes: seq<AABB>, n: int, x: int, y: int, z: int, e: int)
    requires 0 <= e < n <= |boxes| && Culled(boxes[e])
    ensures e !in CoveringList(Placements(boxes), n, x, y, z)
  {
  }

  /**
   * One bin's history: bin `v` after the first `n` entities, each pushed in
   * turn when its placement covers bin (x, y, z).
   */
  function BinHistory(v: Bin, boxes: seq<AABB>, ps: seq<Option<Span>>, n: int, x: int, y: int, z: int): (r: Bin)
    requires BinOk(v) && |ps| == |boxes| && 0 <= n <= |boxes|
    ensures BinOk(r)
  {
    if n == 0 then v
    else
      var u := BinHistory(v, boxes, ps, n - 1, x, y, z);
      if Covers(ps[n - 1], x, y, z) then BinPush(u, boxes[n - 1], n - 1) else u
  }

  /** Binning all entities acts on each bin independently, as that bin's history. */
  lemma {:induction false} ScatterAllBin(hs: seq<Bin>, boxes: seq<AABB>, ps: seq<Option<Span>>, n: int,
                                         x: int, y: int, z: int)
    requires WellFormed(hs) && PlacementsOk(boxes, ps) && 0 <= n <= |boxes| && InGrid(x, y, z)
    ensures var b := IndexIntoViewHash(x, y, z);
            ScatterAll(hs, boxes, ps, n)[b] == BinHistory(hs[b], boxes, ps, n, x, y, z)
  {
    if n > 0 {
      ScatterAllBin(hs, boxes, ps, n - 1, x, y, z);
      ScatterOneEffect(ScatterAll(hs, boxes, ps, n - 1), n - 1, boxes[n - 1], ps[n - 1], x, y, z);
    }
  }

  /** A count that moves on by one, modulo 8, matches a total that moves on by one. */
  lemma WrapStep(a: int, b: int)
    requires b == a + 1
    ensures (a % 8 + 1) % 8 == b % 8
  {
    var q := a / 8;
    assert a == q * 8 + a % 8;
    if a % 8 == 7 {
      assert b == (q + 1) * 8;
    } else {
      assert b == q * 8 + (a % 8 + 1);
    }
  }

  /**
   * A bin's count after its history is its old count plus the number of
   * entities binned into it, modulo the capacity of 8: a ninth entity wraps
   * the count back to zero.
   */
  lemma {:induction false} BinHistoryCount(v: Bin, boxes: seq<AABB>, ps: seq<Option<Span>>, n: int,
                                           x: int, y: int, z: int)
    requires BinOk(v) && |ps| == |boxes| && 0 <= n <= |boxes|
    ensures BinHistory(v, boxes, ps, n, x, y, z).count == (v.count + |CoveringList(ps, n, x, y, z)|) % 8
  {
    if n > 0 {
      BinHistoryCount(v, boxes, ps, n - 1, x, y, z);
      if Covers(ps[n - 1], x, y, z) {
        WrapStep(v.count + |CoveringList(ps, n - 1, x, y, z)|, v.count + |CoveringList(ps, n, x, y, z)|);
      }
    }
  }

  /** Every bin count is zero: the state right after the per-frame reset. */
  predicate Cleared(hs: seq<Bin>)
  {
    forall b :: 0 <= b < |hs| ==> hs[b].count == 0
  }

  /**
   * The live slots of bin `v` are the most recent entities of `l`: as many
   * as `|l|` modulo 8, in the order of `l`, each slot holding its owner's box.
   */
  predicate LiveSlots(v: Bin, l: seq<int>, boxes: seq<AABB>)
    requires BinOk(v)
  {
    && v.count == |l| % 8
    && forall k :: 0 <= k < v.count ==>
         && v.owners[k] == l[|l| - v.count + k]
         && 0 <= v.owners[k] < |boxes| && v.boxes[k] == boxes[v.owners[k]]
  }

  /** Pushing entity `e` into a bin extends its live slots by `e`, or empties them on the eighth push. */
  lemma {:induction false} LiveSlotsPush(v: Bin, l: seq<int>, boxes: seq<AABB>, e: int)
    requires BinOk(v) && LiveSlots(v, l, boxes) && 0 <= e < |boxes|
    ensures LiveSlots(BinPush(v, boxes[e], e), l + [e], boxes)
  {
    var v' := BinPush(v, boxes[e], e);
    var l' := l + [e];
    WrapStep(|l|, |l'|);
    if v.count < 7 {
      assert v'.count == v.count + 1;
      forall k | 0 <= k < v'.count
        ensures v'.owners[k] == l'[|l'| - v'.count + k]
        ensures 0 <= v'.owners[k] < |boxes| && v'.boxes[k] == boxes[v'.owners[k]]
      {
        if k < v.count {
          assert v'.owners[k] == v.owners[k] && v'.boxes[k] == v.boxes[k];
          assert l'[|l'| - v'.count + k] == l[|l| - v.count + k];
        }
      }
    }
  }

  /** From an empty bin, the history keeps the most recent covering entities live. */
  lemma {:induction false} BinHistoryLive(v: Bin, boxes: seq<AABB>, ps: seq<Option<Span>>, n: int,
                                          x: int, y: int, z: int)
    requires BinOk(v) && v.count == 0 && |ps| == |boxes| && 0 <= n <= |boxes|
    ensures LiveSlots(BinHistory(v, boxes, ps, n, x, y, z), CoveringList(ps, n, x, y, z), boxes)
  {
    if n > 0 {
      var l1 := CoveringList(ps, n - 1, x, y, z);
      BinHistoryLive(v, boxes, ps, n - 1, x, y, z);
      if Covers(ps[n - 1], x, y, z) {
        LiveSlotsPush(BinHistory(v, boxes, ps, n - 1, x, y, z), l1, boxes, n - 1);
        assert CoveringList(ps, n, x, y, z) == l1 + [n - 1];
      } else {
        assert CoveringList(ps, n, x, y, z) == l1;
      }
    }
  }

  /**
   * Binning from a cleared hash leaves in each bin, as its live slots, the
   * most recent entities binned into it, in index order: all of them while
   * there are fewer than eight, and after every eighth one the count wraps
   * to zero and the bin starts over. Each live slot holds its owner's box.
   */
  lemma {:induction false} ScatterAllLive(hs: seq<Bin>, boxes: seq<AABB>, ps: seq<Option<Span>>, n: int,
                                          x: int, y: int, z: int)
    requires WellFormed(hs) && Cleared(hs) && PlacementsOk(boxes, ps) && 0 <= n <= |boxes| && InGrid(x, y, z)
    ensures LiveSlots(ScatterAll(hs, boxes, ps, n)[IndexIntoViewHash(x, y, z)], CoveringList(ps, n, x, y, z), boxes)
  {
    var b := IndexIntoViewHash(x, y, z);
    ScatterAllBin(hs, boxes, ps, n, x, y, z);
    BinHistoryLive(hs[b], boxes, ps, n, x, y, z);
  }

  // ---------------------------------------------------------------------
  // The flat arrays of the source

  /** The flat position of slot `k` of bin `b`: bin `b` owns slots `b * 8 .. b * 8 + 7`. */
  function Slot(b: int, k: int): int
  {
    b * 8 + k
  }

  /**
   * The shape of the three flat arrays the source bins into: box copies and
   * owning entity indices, eight slots per bin, and one count per bin.
   */
  predicate FlatOk(bins: seq<AABB>, counts: seq<int>, owners: seq<int>)
  {
    && |bins| == 6144
    && |owners| == 6144
    && |counts| == HashVolume
    && forall b :: 0 <= b < HashVolume ==> 0 <= counts[b] < SparseBinSize
  }

  /** The bins the flat arrays hold. */
  function Unflatten(bins: seq<AABB>, counts: seq<int>, owners: seq<int>): (hs: seq<Bin>)
    requires FlatOk(bins, counts, owners)
    ensures WellFormed(hs)
  {
    seq(HashVolume, b requires 0 <= b < HashVolume =>
      Bin(counts[b], bins[Slot(b, 0) .. Slot(b, SparseBinSize)], owners[Slot(b, 0) .. Slot(b, SparseBinSize)]))
  }

  /** The bins determine the flat arrays: every slot of every array belongs to exactly one bin. */
  lemma {:induction false} UnflattenInjective(bins: seq<AABB>, counts: seq<int>, owners: seq<int>,
                           bins': seq<AABB>, counts': seq<int>, owners': seq<int>)
    requires FlatOk(bins, counts, owners) && FlatOk(bins', counts', owners')
    requires Unflatten(bins, counts, owners) == Unflatten(bins', counts', owners')
    ensures bins == bins' && counts == counts' && owners == owners'
  {
    var hs := Unflatten(bins, counts, owners);
    forall i | 0 <= i < 6144
      ensures bins[i] == bins'[i] && owners[i] == owners'[i]
    {
      var b, k := i / 8, i % 8;
      assert i == Slot(b, k);
      assert bins[i] == hs[b].boxes[k] && owners[i] == hs[b].owners[k];
    }
    forall b | 0 <= b < HashVolume
      ensures counts[b] == counts'[b]
    {
      assert counts[b] == hs[b].count;
    }
  }

  /**
   * The three writes of one insertion (the owner and the box to slot
   * `bin * 8 + count`, then the wrapped count) push into bin `bin` and
   * touch no other bin.
   */
  lemma {:induction false} UnflattenInsert(bins: seq<AABB>, counts: seq<int>, owners: seq<int>, bin: int, box: AABB, e: int)
    requires FlatOk(bins, counts, owners) && 0 <= bin < HashVolume
    ensures var slot := Slot(bin, counts[bin]);
            var counts' := counts[bin := (counts[bin] + 1) % 8];
            && FlatOk(bins[slot := box], counts', owners[slot := e])
            && Unflatten(bins[slot := box], counts', owners[slot := e])
               == Insert(Unflatten(bins, counts, owners), bin, box, e)
  {
    var slot := Slot(bin, counts[bin]);
    var counts' := counts[bin := (counts[bin] + 1) % 8];
    var bins', owners' := bins[slot := box], owners[slot := e];
    var hs, hs' := Unflatten(bins, counts, owners), Unflatten(bins', counts', owners');
    forall b | 0 <= b < HashVolume
      ensures hs'[b] == Insert(hs, bin, box, e)[b]
    {
      var lo, hi := Slot(b, 0), Slot(b, SparseBinSize);
      if b == bin {
        assert bins'[lo .. hi] == bins[lo .. hi][counts[bin] := box];
        assert owners'[lo .. hi] == owners[lo .. hi][counts[bin] := e];
      } else {
        assert bins'[lo .. hi] == bins[lo .. hi];
        assert owners'[lo .. hi] == owners[lo .. hi];
      }
    }
  }

  // ---------------------------------------------------------------------
  // The imperative rebuild

  /**
   * Bins every entity into the three flat arrays in place, in the order of
   * the source's loops (entities, then x, y and z bins).
   */
  method CountEntitiesInBins(entities: Entities, bins: array<AABB>, counts: array<int>, owners: array<int>)
    requires entities.Valid()
    requires counts != owners
    requires FlatOk(bins[..], counts[..], owners[..])
    modifies bins, counts, owners
    ensures FlatOk(bins[..], counts[..], owners[..])
    ensures Unflatten(bins[..], counts[..], owners[..])
            == ScatterAll(old(Unflatten(bins[..], counts[..], owners[..])), entities.aabbs,
                          Placements(entities.aabbs), |entities.aabbs|)
  {
    // `cur` is the hash the arrays hold, as a value.
    ghost var cur := Unflatten(bins[..], counts[..], owners[..]);
    ghost var h0 := cur;
    ghost var ps := Placements(entities.aabbs);
    var n := entities.Size();
    var i := 0;
    while i < n
      invariant 0 <= i <= n
      invariant FlatOk(bins[..], counts[..], owners[..])
      invariant Unflatten(bins[..], counts[..], owners[..]) == cur
      invariant cur == ScatterAll(h0, entities.aabbs, ps, i)
    {
      var thisAabb := entities.aabbs[i];
      var inView, span := ViewSpan(thisAabb);
      if inView {
        assert ps[i] == Some(span);
        BinSpanOf(bins, counts, owners, span, thisAabb, i, cur);
        FillXScatters(cur, span, thisAabb, i);
        cur := ScatterOne(cur, i, thisAabb, ps[i]);
      } else {
        assert ps[i] == None;
        ScatterNone(cur, i, thisAabb);
      }
      i := i + 1;
    }
  }

  /**
   * The per-entity part of the rebuild before its loops: the view test and
   * the clamped bin bounds, computed with C++ truncating division.
   */
  method ViewSpan(thisAabb: AABB) returns (inView: bool, span: Span)
    ensures inView <==> !Culled(thisAabb)
    ensures inView ==> span == BinSpan(thisAabb)
  {
    var minXWorld := thisAabb.position.x;
    var minYWorld := thisAabb.position.y;
    var minZWorld := thisAabb.position.z;
    var maxXWorld := minXWorld + thisAabb.extent.x;
    var maxYWorld := minYWorld + thisAabb.extent.y;
    var maxZWorld := minZWorld + thisAabb.extent.z;

    inView := !(|| maxXWorld < 0 || minXWorld >= ViewWidth
                || maxYWorld < 0 - maxZWorld
                || minYWorld >= ViewHeight - minZWorld + SingleBinCubicSize
                || maxZWorld < -(thisAabb.extent.z as int) - SingleBinCubicSize
                || minZWorld > ViewLength + SingleBinCubicSize);
    span := Span(0, 0, 0, 0, 0, 0);
    if inView {
      var minXIndex := Max(0, TruncDiv(minXWorld));
      var minYIndex := Max(0, TruncDiv(ViewHeight - maxYWorld - maxZWorld));
      var minZIndex := Max(0, TruncDiv(minZWorld));
      var maxXIndex := Min(HashWidth, TruncDiv(maxXWorld + SingleBinCubicSize - 1));
      var maxYIndex := Min(HashHeight, TruncDiv(ViewHeight - minYWorld - minZWorld + SingleBinCubicSize - 1));
      var maxZIndex := Min(HashLength, TruncDiv(maxZWorld + SingleBinCubicSize - 1));
      span := Span(minXIndex, maxXIndex, minYIndex, maxYIndex, minZIndex, maxZIndex);
    }
  }

  /** The outer loop over the x bins of one entity's span. */
  method BinSpanOf(bins: array<AABB>, counts: array<int>, owners: array<int>, s: Span, thisAabb: AABB, i: int,
                   ghost hs: seq<Bin>)
    requires counts != owners
    requires FlatOk(bins[..], counts[..], owners[..])
    requires hs == Unflatten(bins[..], counts[..], owners[..])
    requires SpanInGrid(s)
    modifies bins, counts, owners
    ensures FlatOk(bins[..], counts[..], owners[..])
    ensures Unflatten(bins[..], counts[..], owners[..]) == FillX(hs, s, s.maxX, thisAabb, i)
  {
    ghost var cur := hs;
    var binX := s.minX;
    while binX < s.maxX
      invariant binX == s.minX || s.minX < binX <= s.maxX
      invariant FlatOk(bins[..], counts[..], owners[..])
      invariant Unflatten(bins[..], counts[..], owners[..]) == cur
      invariant cur == FillX(hs, s, binX, thisAabb, i)
    {
      BinColumn(bins, counts, owners, binX, s, thisAabb, i, cur);
      cur := FillY(cur, binX, s.minY, s.maxY, s.minZ, s.maxZ, thisAabb, i);
      binX := binX + 1;
    }
  }

  /** The middle loop over the y bins of bin column `binX`. */
  method BinColumn(bins: array<AABB>, counts: array<int>, owners: array<int>, binX: int, s: Span, thisAabb: AABB, i: int,
                   ghost hs: seq<Bin>)
    requires counts != owners
    requires FlatOk(bins[..], counts[..], owners[..])
    requires hs == Unflatten(bins[..], counts[..], owners[..])
    requires 0 <= binX < HashWidth && 0 <= s.minY && s.maxY <= HashHeight
    requires 0 <= s.minZ && s.maxZ <= HashLength
    modifies bins, counts, owners
    ensures FlatOk(bins[..], counts[..], owners[..])
    ensures Unflatten(bins[..], counts[..], owners[..]) == FillY(hs, binX, s.minY, s.maxY, s.minZ, s.maxZ, thisAabb, i)
  {
    ghost var cur := hs;
    var binY := s.minY;
    while binY < s.maxY
      invariant binY == s.minY || s.minY < binY <= s.maxY
      invariant FlatOk(bins[..], counts[..], owners[..])
      invariant Unflatten(bins[..], counts[..], owners[..]) == cur
      invariant cur == FillY(hs, binX, s.minY, binY, s.minZ, s.maxZ, thisAabb, i)
    {
      BinRun(bins, counts, owners, binX, binY, s.minZ, s.maxZ, thisAabb, i, cur);
      cur := FillZ(cur, binX, binY, s.minZ, s.maxZ, thisAabb, i);
      binY := binY + 1;
    }
  }

  /** The innermost loop, over the z bins of bin column (binX, binY). */
  method BinRun(bins: array<AABB>, counts: array<int>, owners: array<int>, binX: int, binY: int,
                minZIndex: int, maxZIndex: int, thisAabb: AABB, i: int, ghost hs: seq<Bin>)
    requires counts != owners
    requires FlatOk(bins[..], counts[..], owners[..])
    requires hs == Unflatten(bins[..], counts[..], owners[..])
    requires 0 <= binX < HashWidth && 0 <= binY < HashHeight && 0 <= minZIndex && maxZIndex <= HashLength
    modifies bins, counts, owners
    ensures FlatOk(bins[..], counts[..], owners[..])
    ensures Unflatten(bins[..], counts[..], owners[..]) == FillZ(hs, binX, binY, minZIndex, maxZIndex, thisAabb, i)
  {
    ghost var cur := hs;
    var binZ := minZIndex;
    while binZ < maxZIndex
      invariant binZ == minZIndex || minZIndex < binZ <= maxZIndex
      invariant FlatOk(bins[..], counts[..], owners[..])
      invariant Unflatten(bins[..], counts[..], owners[..]) == cur
      invariant cur == FillZ(hs, binX, binY, minZIndex, binZ, thisAabb, i)
    {
      PushIntoBin(bins, counts, owners, IndexIntoViewHash(binX, binY, binZ), thisAabb, i);
      cur := Insert(cur, IndexIntoViewHash(binX, binY, binZ), thisAabb, i);
      binZ := binZ + 1;
    }
  }

  /**
   * The body of the innermost loop: the owner and the box go to slot
   * `bin * 8 + count` and the count moves on, wrapping with `& 7`.
   */
  method PushIntoBin(bins: array<AABB>, counts: array<int>, owners: array<int>, bin: int, thisAabb: AABB, i: int)
    requires counts != owners
    requires FlatOk(bins[..], counts[..], owners[..]) && 0 <= bin < HashVolume
    modifies bins, counts, owners
    ensures FlatOk(bins[..], counts[..], owners[..])
    ensures Unflatten(bins[..], counts[..], owners[..])
            == Insert(old(Unflatten(bins[..], counts[..], owners[..])), bin, thisAabb, i)
  {
    ghost var bins0, counts0, owners0 := bins[..], counts[..], owners[..];
    UnflattenInsert(bins0, counts0, owners0, bin, thisAabb, i);
    var thisBinCount := counts[bin];
    owners[bin * 8 + thisBinCount] := i;
    bins[bin * 8 + thisBinCount] := thisAabb;
    counts[bin] := (thisBinCount + 1) % 8;
    assert bins[..] == bins0[Slot(bin, thisBinCount) := thisAabb];
    assert owners[..] == owners0[Slot(bin, thisBinCount) := i];
    assert counts[..] == counts0[bin := (thisBinCount + 1) % 8];
  }
}
