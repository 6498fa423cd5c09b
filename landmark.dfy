/** The record `Landmark` of data_structures/landmark.py: a point with the
  * three coordinates x, y and z, and nothing else. The dataclass is not
  * frozen and the fusion reassigns the coordinates of a freshly built point
  * in place; since nothing else refers to such a point yet, reassigning a
  * coordinate is modelled as a functional update of the value. */
module Landmarks {

  datatype Landmark = Landmark(x: real, y: real, z: real)

  /** The three differences `[a.x - b.x, a.y - b.y, a.z - b.z]`, the list
    * the fusion calls the hand-to-pose offset. */
  datatype Offset = Offset(dx: real, dy: real, dz: real)

  function Difference(a: Landmark, b: Landmark): Offset
  {
    Offset(a.x - b.x, a.y - b.y, a.z - b.z)
  }

  /** `l.x -= d[0]; l.y -= d[1]; l.z -= d[2]`, one coordinate after the
    * other, each a reassignment of one field of the record. */
  function Moved(l: Landmark, d: Offset): (r: Landmark)
    ensures Difference(l, r) == d
  {
    var l1 := l.(x := l.x - d.dx);
    var l2 := l1.(y := l1.y - d.dy);
    l2.(z := l2.z - d.dz)
  }

  /** Construction stores the three arguments unchanged, and equality is
    * equality of the three fields in order (the generated `__init__` and
    * `__eq__`). */
  lemma ConstructAndCompare(x: real, y: real, z: real, b: Landmark)
    ensures Landmark(x, y, z).x == x && Landmark(x, y, z).y == y && Landmark(x, y, z).z == z
    ensures Landmark(x, y, z) == b <==> x == b.x && y == b.y && z == b.z
  {
  }

  /** Reassigning one field changes that field and keeps the other two. */
  lemma FieldReassignment(l: Landmark, v: real)
    ensures l.(x := v) == Landmark(v, l.y, l.z)
    ensures l.(y := v) == Landmark(l.x, v, l.z)
    ensures l.(z := v) == Landmark(l.x, l.y, v)
  {
  }

  /** Moving a point by the offset from a to b sends a to b. */
  lemma MovedOntoTarget(a: Landmark, b: Landmark)
    ensures Moved(a, Difference(a, b)) == b
  {
  }

  /** Moving two points by the same offset keeps their difference: the
    * move is a rigid translation. */
  lemma MovedKeepsDifference(a: Landmark, b: Landmark, d: Offset)
    ensures Difference(Moved(a, d), Moved(b, d)) == Difference(a, b)
  {
  }
}
