/**
 * Three-component vectors over the reals, standing in for jME's Vector3f.
 * Coordinates are exact reals: float rounding is not modelled.
 */
module Vectors {
  datatype Vec3 = Vec3(x: real, y: real, z: real)

  const Zero: Vec3 := Vec3(0.0, 0.0, 0.0)

  function Add(a: Vec3, b: Vec3): Vec3 {
    Vec3(a.x + b.x, a.y + b.y, a.z + b.z)
  }

  function Sub(a: Vec3, b: Vec3): Vec3 {
    Vec3(a.x - b.x, a.y - b.y, a.z - b.z)
  }

  function Scale(a: Vec3, k: real): Vec3 {
    Vec3(a.x * k, a.y * k, a.z * k)
  }

  function Neg(a: Vec3): Vec3 {
    Vec3(-a.x, -a.y, -a.z)
  }

  function Same(v: real): real { v }

  /**
   * The square of a coordinate. It is written as a product of `v` with `Same(v)`
   * so that the solver reasons about it as a product of two terms.
   */
  function Sq(v: real): (r: real)
    ensures r >= 0.0
  {
    v * Same(v)
  }

  lemma SqPositive(v: real)
    requires v != 0.0
    ensures Sq(v) > 0.0
  {
  }

  lemma SqHalf(v: real)
    ensures Sq(v * 0.5) == Sq(v) / 4.0
  {
  }

  lemma SqNeg(v: real)
    ensures Sq(-v) == Sq(v)
  {
  }

  /** The squared Euclidean length (jME's lengthSquared). */
  function LengthSq(a: Vec3): (r: real)
    ensures r >= 0.0
  {
    Sq(a.x) + Sq(a.y) + Sq(a.z)
  }

  /** Only the zero vector has squared length zero. */
  lemma LengthSqZero(a: Vec3)
    ensures LengthSq(a) == 0.0 <==> a == Zero
  {
    if a.x != 0.0 { SqPositive(a.x); }
    if a.y != 0.0 { SqPositive(a.y); }
    if a.z != 0.0 { SqPositive(a.z); }
  }

  /** The squared Euclidean distance; comparing it stands in for comparing distances. */
  function DistSq(a: Vec3, b: Vec3): (r: real)
    ensures r >= 0.0
  {
    LengthSq(Sub(a, b))
  }
}
