/** Plane vectors over the reals. The game works in 2-D; Unity's float
    vectors become exact reals here, and only the operations whose result
    the game compares (differences, dot products, squared lengths and the
    quarter-turn rotation) are modelled. */
module Geometry {

  datatype Vec2 = Vec2(x: real, y: real)

  function Sub(a: Vec2, b: Vec2): Vec2 {
    Vec2(a.x - b.x, a.y - b.y)
  }

  function Dot(a: Vec2, b: Vec2): real {
    a.x * b.x + a.y * b.y
  }

  /** The z-component of the 3-D cross product: positive when `b` lies a
      counter-clockwise turn away from `a`. */
  function Cross(a: Vec2, b: Vec2): real {
    a.x * b.y - a.y * b.x
  }

  function NormSq(a: Vec2): (r: real)
    ensures r >= 0.0
  {
    SquareNonNegative(a.x);
    SquareNonNegative(a.y);
    a.x * a.x + a.y * a.y
  }

  lemma SquareNonNegative(x: real)
    ensures x * x >= 0.0
  {
    if x < 0.0 {
      assert x * x == (-x) * (-x);
    }
  }

  /** Squared Euclidean distance; it orders points exactly as the distance
      does, and the distance is below d >= 0 exactly when this is below d*d. */
  function DistSq(a: Vec2, b: Vec2): (r: real)
    ensures r >= 0.0
  {
    NormSq(Sub(a, b))
  }

  /** The orientation of a sprite: the direction `toward` turned by
      `offsetDeg` degrees. The trigonometry that turns it into a quaternion
      is not modelled; two headings are the same when both parts are. */
  datatype Heading = Heading(toward: Vec2, offsetDeg: int)

}
