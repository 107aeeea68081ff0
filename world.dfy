/**
 * The append-only entity store: parallel lists of boxes and sprites and a
 * running count of the entities inserted so far.
 */
module World {
  import opened Scene

  /** What a caller hands to `Insert`: a box and the sprite it asks for. */
  datatype Entity = Entity(aabb: AABB, sprite: Sprite)

  class Entities {
    var aabbs: seq<AABB>
    var sprites: seq<Sprite>
    var lastEntityIndex: int
    /** The floor tile that every inserted entity is drawn with. */
    const tileSingle: Sprite

    ghost predicate Valid()
      reads this
    {
      && |aabbs| == |sprites| == lastEntityIndex
      && forall k :: 0 <= k < |sprites| ==> sprites[k] == tileSingle
    }

    constructor (tile: Sprite)
      ensures Valid()
      ensures tileSingle == tile && aabbs == [] && sprites == [] && lastEntityIndex == 0
    {
      aabbs, sprites, lastEntityIndex := [], [], 0;
      tileSingle := tile;
    }

    /**
     * Appends the entity's box and the floor tile (not the entity's own
     * sprite) and counts one more entity.
     */
    method Insert(entity: Entity)
      requires Valid()
      modifies this
      ensures Valid()
      ensures aabbs == old(aabbs) + [entity.aabb]
      ensures sprites == old(sprites) + [tileSingle]
      ensures lastEntityIndex == old(lastEntityIndex) + 1
    {
      aabbs := aabbs + [entity.aabb];
      sprites := sprites + [tileSingle];
      lastEntityIndex := lastEntityIndex + 1;
    }

    /** The number of inserted entities, which is the length of both lists. */
    method Size() returns (n: int)
      requires Valid()
      ensures n == |aabbs| && n == |sprites|
    {
      n := lastEntityIndex;
    }
  }
}
