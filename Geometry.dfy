/** The small Unity value types the level editor works with. */
module Geometry {

  /** UnityEngine.Vector2Int: a grid point or a grid size. */
  datatype Vector2Int = Vector2Int(x: int, y: int)

  /** The component indexer of Vector2Int (`v[0]` is x, `v[1]` is y). */
  function Component(v: Vector2Int, i: int): (c: int)
    requires 0 <= i < 2
    ensures i == 0 ==> c == v.x
    ensures i == 1 ==> c == v.y
  {
    if i == 0 then v.x else v.y
  }

  /** A point lies in a field of the given size when both coordinates are in range. */
  predicate InField(size: Vector2Int, p: Vector2Int) {
    0 <= p.x < size.x && 0 <= p.y < size.y
  }

  /** An opaque reference to a Unity object (a sprite, an animator controller); NullRef is a missing one. */
  datatype UnityRef = NullRef | Ref(instanceId: int)
}
