/** Positions, rotations and Unity transforms over the reals. The Euclidean
    length is not computable here (there is no square root), so every member
    that needs a length takes it as a parameter constrained by IsNorm. */
module Geometry {

  datatype Vec3 = Vec3(x: real, y: real, z: real)

  /** A rotation; its components are carried along, never computed on. */
  datatype Quaternion = Quaternion(x: real, y: real, z: real, w: real)

  const Zero: Vec3 := Vec3(0.0, 0.0, 0.0)

  function Add(a: Vec3, b: Vec3): Vec3 { Vec3(a.x + b.x, a.y + b.y, a.z + b.z) }

  function Sub(a: Vec3, b: Vec3): Vec3 { Vec3(a.x - b.x, a.y - b.y, a.z - b.z) }

  function Scale(k: real, v: Vec3): Vec3 { Vec3(k * v.x, k * v.y, k * v.z) }

  /** What the model assumes of `Vector3.magnitude`: it is never negative and
      scaling a vector by k >= 0 scales its length by k. */
  ghost predicate IsNorm(norm: Vec3 -> real)
  {
    && (forall v :: norm(v) >= 0.0)
    && (forall k: real, v :: k >= 0.0 ==> norm(Scale(k, v)) == k * norm(v))
  }

  lemma NormZero(norm: Vec3 -> real)
    requires IsNorm(norm)
    ensures norm(Zero) == 0.0
  {
    assert Scale(0.0, Zero) == Zero;
    assert norm(Scale(0.0, Zero)) == 0.0 * norm(Zero);
  }

  /** Clamping of the interpolation parameter done by Vector3.Lerp. */
  function Clamp01(t: real): (r: real)
    ensures 0.0 <= r <= 1.0
    ensures 0.0 <= t <= 1.0 ==> r == t
    ensures t < 0.0 ==> r == 0.0
    ensures t > 1.0 ==> r == 1.0
  {
    if t < 0.0 then 0.0 else if t > 1.0 then 1.0 else t
  }

  /** Vector3.Lerp(a, b, t) = a + (b - a) * Clamp01(t). */
  function Lerp(a: Vec3, b: Vec3, t: real): Vec3
  {
    Add(a, Scale(Clamp01(t), Sub(b, a)))
  }

  /** A Unity Transform: the pose of a scene object, updated in place. */
  class Transform {
    var position: Vec3
    var rotation: Quaternion
    var localScale: Vec3

    constructor (position: Vec3, rotation: Quaternion, localScale: Vec3)
      ensures this.position == position && this.rotation == rotation && this.localScale == localScale
    {
      this.position := position;
      this.rotation := rotation;
      this.localScale := localScale;
    }
  }
}
