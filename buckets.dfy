/**
 * The depth compositor's fragments and fixed-capacity buckets. A bucket
 * holds up to eight fragments; pushing into a full bucket drops the
 * fragment.
 */
module Buckets {
  import Scene

  /** A fragment's depth: the skyward (y) and forward (z) offsets. */
  datatype Depth = Depth(y: int, z: int)

  datatype Pixel = Pixel(normal: Scene.Normal, depth: Depth, paletteIndex: nat)

  const BucketCapacity := 8

  /** A bucket's fixed storage and how many of its slots are in use. */
  datatype PixelBucket = PixelBucket(size: int, pixels: seq<Pixel>)

  predicate ValidBucket(b: PixelBucket)
  {
    |b.pixels| == BucketCapacity && 0 <= b.size <= BucketCapacity
  }

  /** The bucket after pushing `p`: stored in the next free slot, or dropped when full. */
  function Pushed(b: PixelBucket, p: Pixel): (r: PixelBucket)
    requires ValidBucket(b)
    ensures ValidBucket(r)
  {
    if b.size < BucketCapacity then PixelBucket(b.size + 1, b.pixels[b.size := p]) else b
  }

  /**
   * A push into a bucket with room stores the fragment at the old size
   * and grows the size by one; the slots already in use keep their
   * fragments.
   */
  lemma PushStores(b: PixelBucket, p: Pixel)
    requires ValidBucket(b) && b.size < BucketCapacity
    ensures var r := Pushed(b, p);
            && r.size == b.size + 1
            && r.pixels[b.size] == p
            && r.pixels[..b.size] == b.pixels[..b.size]
  {
  }

  /** A push into a full bucket changes nothing. */
  lemma PushFullIsNoop(b: PixelBucket, p: Pixel)
    requires ValidBucket(b) && b.size >= BucketCapacity
    ensures Pushed(b, p) == b
  {
  }

  /**
   * The fragments of `ps` a bucket keeps when they are pushed in order:
   * the first ones, as many as there is room for.
   */
  function PushedAll(b: PixelBucket, ps: seq<Pixel>): (r: PixelBucket)
    requires ValidBucket(b)
    ensures ValidBucket(r)
    decreases |ps|
  {
    if ps == [] then b else PushedAll(Pushed(b, ps[0]), ps[1..])
  }

  /**
   * Pushing a run of fragments keeps the bucket's earlier contents, fills
   * the free slots with the first fragments of the run in order, and
   * never grows the size past the capacity.
   */
  lemma {:induction false} PushedAllKeepsFirst(b: PixelBucket, ps: seq<Pixel>)
    requires ValidBucket(b)
    ensures var r := PushedAll(b, ps);
            var room := BucketCapacity - b.size;
            var kept := if |ps| < room then |ps| else room;
            && r.size == b.size + kept
            && (forall k :: 0 <= k < b.size ==> r.pixels[k] == b.pixels[k])
            && (forall k :: 0 <= k < kept ==> r.pixels[b.size + k] == ps[k])
            && (forall k :: r.size <= k < BucketCapacity ==> r.pixels[k] == b.pixels[k])
    decreases |ps|
  {
    if ps != [] && b.size < BucketCapacity {
      var b' := Pushed(b, ps[0]);
      PushedAllKeepsFirst(b', ps[1..]);
      var r := PushedAll(b', ps[1..]);
      forall k | 1 <= k < BucketCapacity - b.size && k < |ps|
        ensures r.pixels[b.size + k] == ps[k]
      {
        assert r.pixels[b'.size + (k - 1)] == ps[1..][k - 1];
      }
    } else if ps != [] {
      PushedAllKeepsFirst(b, ps[1..]);
    }
  }
}
