/** Integer grid vectors, the six unit directions and the quarter-turns a
    piece can be rotated by about the vertical axis. */
module Geometry {

  /** A grid coordinate or a difference of two coordinates. */
  datatype Vec = Vec(x: int, y: int, z: int)

  function Plus(a: Vec, b: Vec): Vec
  {
    Vec(a.x + b.x, a.y + b.y, a.z + b.z)
  }

  function Minus(a: Vec, b: Vec): Vec
  {
    Vec(a.x - b.x, a.y - b.y, a.z - b.z)
  }

  function Negate(a: Vec): Vec
  {
    Vec(-a.x, -a.y, -a.z)
  }

  const BOTTOM := Vec(0, -1, 0)
  const TOP := Vec(0, 1, 0)
  const LEFT := Vec(-1, 0, 0)
  const RIGHT := Vec(1, 0, 0)
  const BACK := Vec(0, 0, -1)
  const FRONT := Vec(0, 0, 1)

  predicate IsHorizontal(v: Vec)
  {
    v == LEFT || v == RIGHT || v == BACK || v == FRONT
  }

  predicate IsVertical(v: Vec)
  {
    v == TOP || v == BOTTOM
  }

  /** One of the six unit directions. */
  predicate IsDirection(v: Vec)
  {
    IsHorizontal(v) || IsVertical(v)
  }

  lemma NegateDirection(v: Vec)
    requires IsDirection(v)
    ensures IsDirection(Negate(v)) && Negate(v) != v
    ensures IsHorizontal(Negate(v)) == IsHorizontal(v)
  {
  }

  /** A step followed by its negation comes back to the start. */
  lemma PlusNegate(a: Vec, d: Vec)
    ensures Plus(Plus(a, d), Negate(d)) == a
  { }

  /** The step from b to a is the reverse of the step from a to b. */
  lemma NegateMinus(a: Vec, b: Vec)
    ensures Negate(Minus(a, b)) == Minus(b, a)
  {
  }

  /** A rotation about the vertical axis by 0, +pi/2, pi or -pi/2. */
  datatype Turn = Zero | Quarter | Half | MinusQuarter

  /** The turn applied to a vector. A quarter-turn carries BACK to LEFT, LEFT
      to FRONT, FRONT to RIGHT and RIGHT to BACK; vertical vectors stay put. */
  function Rotate(t: Turn, v: Vec): (r: Vec)
    ensures r.y == v.y
    ensures IsHorizontal(v) ==> IsHorizontal(r)
  {
    match t
    case Zero => v
    case Quarter => Vec(v.z, v.y, -v.x)
    case Half => Vec(-v.x, v.y, -v.z)
    case MinusQuarter => Vec(-v.z, v.y, v.x)
  }

  /** Each horizontal direction is reached from BACK by exactly one turn. */
  lemma {:induction false} RotateFromBackUnique(t: Turn, u: Turn)
    requires Rotate(t, BACK) == Rotate(u, BACK)
    ensures t == u
  {
  }
}
