/**
 * The per-bin step of the light trace: a bin on the way to the light
 * blocks it when one of its boxes, owned by an entity other than the one
 * the light ray starts from, intersects the ray. The box/ray intersection
 * test is left abstract: any pure test of a box against the fixed ray.
 */
module Occlusion {
  import opened Scene
  import opened Binning

  /**
   * The first live slot of `bin`, from slot `j` on, whose box belongs to
   * another entity than `start` and intersects the ray; `None` when there
   * is none.
   */
  function FirstOccluder(bins: seq<AABB>, owners: seq<int>, bin: int, count: int, start: int,
                         intersects: AABB -> bool, j: int): (r: Option<int>)
    requires |bins| == |owners| == HashVolume * SparseBinSize
    requires 0 <= bin < HashVolume && 0 <= j <= count <= SparseBinSize
    decreases count - j
  {
    if j == count then None
    else if owners[Slot(bin, j)] != start && intersects(bins[Slot(bin, j)]) then Some(j)
    else FirstOccluder(bins, owners, bin, count, start, intersects, j + 1)
  }

  /** Slot `k` of `bin` blocks the ray: another entity's box that intersects it. */
  predicate Blocks(bins: seq<AABB>, owners: seq<int>, bin: int, start: int, intersects: AABB -> bool, k: int)
    requires |bins| == |owners| == HashVolume * SparseBinSize
    requires 0 <= bin < HashVolume && 0 <= k < SparseBinSize
  {
    owners[Slot(bin, k)] != start && intersects(bins[Slot(bin, k)])
  }

  /**
   * The scan finds the first blocking slot: a reported slot blocks the ray
   * and no slot before it does, and no report means no slot blocks it.
   */
  lemma {:induction false} FirstOccluderIsFirst(bins: seq<AABB>, owners: seq<int>, bin: int, count: int, start: int,
                                               intersects: AABB -> bool, j: int)
    requires |bins| == |owners| == HashVolume * SparseBinSize
    requires 0 <= bin < HashVolume && 0 <= j <= count <= SparseBinSize
    ensures var r := FirstOccluder(bins, owners, bin, count, start, intersects, j);
            && (r.None? <==> forall k :: j <= k < count ==> !Blocks(bins, owners, bin, start, intersects, k))
            && (r.Some? ==> && j <= r.value < count
                            && Blocks(bins, owners, bin, start, intersects, r.value)
                            && forall k :: j <= k < r.value ==> !Blocks(bins, owners, bin, start, intersects, k))
    decreases count - j
  {
    if j < count {
      FirstOccluderIsFirst(bins, owners, bin, count, start, intersects, j + 1);
      if !Blocks(bins, owners, bin, start, intersects, j) {
        assert (forall k :: j <= k < count ==> !Blocks(bins, owners, bin, start, intersects, k))
          <==> (forall k :: j + 1 <= k < count ==> !Blocks(bins, owners, bin, start, intersects, k));
      }
    }
  }

  /**
   * Self-exclusion: boxes of the starting entity never matter. Two
   * intersection tests that agree on every other entity's boxes give the
   * same answer, whatever they say about the starting entity's own.
   */
  lemma {:induction false} SelfNeverOccludes(bins: seq<AABB>, owners: seq<int>, bin: int, count: int, start: int,
                                            intersects: AABB -> bool, intersects': AABB -> bool, j: int)
    requires |bins| == |owners| == HashVolume * SparseBinSize
    requires 0 <= bin < HashVolume && 0 <= j <= count <= SparseBinSize
    requires forall k :: j <= k < count && owners[Slot(bin, k)] != start ==>
               intersects(bins[Slot(bin, k)]) == intersects'(bins[Slot(bin, k)])
    ensures FirstOccluder(bins, owners, bin, count, start, intersects, j)
         == FirstOccluder(bins, owners, bin, count, start, intersects', j)
    decreases count - j
  {
    if j < count {
      SelfNeverOccludes(bins, owners, bin, count, start, intersects, intersects', j + 1);
    }
  }

  /**
   * Scans bin `bin` on the way to the light: false as soon as a box of
   * another entity intersects the ray, true when the bin lets it through.
   */
  method BinLetsLightThrough(bins: array<AABB>, counts: array<int>, owners: array<int>, bin: int,
                             startEntityIndex: int, intersects: AABB -> bool) returns (clear: bool)
    requires FlatOk(bins[..], counts[..], owners[..]) && 0 <= bin < HashVolume
    ensures clear <==> FirstOccluder(bins[..], owners[..], bin, counts[bin], startEntityIndex, intersects, 0).None?
  {
    clear := true;
    if counts[bin] > 0 {
      var j := 0;
      while j < counts[bin]
        invariant 0 <= j <= counts[bin]
        invariant FirstOccluder(bins[..], owners[..], bin, counts[bin], startEntityIndex, intersects, 0)
               == FirstOccluder(bins[..], owners[..], bin, counts[bin], startEntityIndex, intersects, j)
      {
        var thisEntityIndex := bin * SparseBinSize + j;
        if startEntityIndex == owners[thisEntityIndex] {
          j := j + 1;
          continue;
        }
        if intersects(bins[thisEntityIndex]) {
          clear := false;
          return;
        }
        j := j + 1;
      }
    }
  }
}
