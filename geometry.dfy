/** Vectors, symbolic normals and 4x4 transforms.

    A transform is kept as the word of elementary factors it is the product of
    (`translate`, `rotate` about one axis, `scale`), multiplied left to right the way
    GLM post-multiplies. Matrix product is word concatenation, so product laws hold
    by construction, and any equality between words is an equality between the
    matrices they denote under any interpretation of the factors. */
module Geometry {

  datatype Vec2 = Vec2(u: real, v: real)

  datatype Vec3 = Vec3(x: real, y: real, z: real)

  datatype Vec4 = Vec4(r: real, g: real, b: real, a: real)

  const Zero2 := Vec2(0.0, 0.0)
  const Zero3 := Vec3(0.0, 0.0, 0.0)
  const One3 := Vec3(1.0, 1.0, 1.0)

  function Scaled(v: Vec3, k: real): Vec3 {
    Vec3(k * v.x, k * v.y, k * v.z)
  }

  /** A vertex normal, kept symbolic: an explicit vector, the unit vector along a
      non-zero raw vector (`glm::normalize`), or the unit normal of the triangle
      p0 p1 p2 (`normalize(cross(p1 - p0, p2 - p0))`). */
  datatype Normal = Exact(v: Vec3) | UnitOf(raw: Vec3) | FaceNormalOf(p0: Vec3, p1: Vec3, p2: Vec3)

  const NoNormal := Exact(Zero3)

  /** One elementary factor of a transform. */
  datatype Xform =
    | Translate(offset: Vec3)
    | RotateX(angle: real)
    | RotateY(angle: real)
    | RotateZ(angle: real)
    | ScaleBy(factors: Vec3)

  /** A 4x4 transform, as the product of its factors. */
  type Mat4 = seq<Xform>

  const Identity: Mat4 := []

  function Mul(a: Mat4, b: Mat4): Mat4 {
    a + b
  }

  /** Where an axis rotation stands in the order `getModelMatrix` applies them:
      X first, then Y, then Z; every other factor after them. */
  function AxisRank(f: Xform): nat {
    match f
    case RotateX(_) => 0
    case RotateY(_) => 1
    case RotateZ(_) => 2
    case _ => 3
  }

  /** The factors a rotation with the given Euler angles (radians) contributes:
      X, then Y, then Z, each only when its angle is non-zero. */
  function Rotation(rotation: Vec3): (r: Mat4)
    ensures |r| <= 3
    ensures forall k :: 0 <= k < |r| ==> r[k].RotateX? || r[k].RotateY? || r[k].RotateZ?
    ensures RotateX(rotation.x) in r <==> rotation.x != 0.0
    ensures RotateZ(rotation.z) in r <==> rotation.z != 0.0
  {
    (if rotation.x != 0.0 then [RotateX(rotation.x)] else [])
    + (if rotation.y != 0.0 then [RotateY(rotation.y)] else [])
    + (if rotation.z != 0.0 then [RotateZ(rotation.z)] else [])
  }

  /** Each axis contributes its own angle, the Y factor too exactly when its angle is
      non-zero, and the factors stand in the order X, Y, Z: since the product is
      the concatenation of factors, that order is what the matrix means. */
  lemma RotationFactors(rotation: Vec3)
    ensures RotateY(rotation.y) in Rotation(rotation) <==> rotation.y != 0.0
    ensures forall k :: 0 <= k < |Rotation(rotation)| && Rotation(rotation)[k].RotateX? ==>
      Rotation(rotation)[k] == RotateX(rotation.x)
    ensures forall k :: 0 <= k < |Rotation(rotation)| && Rotation(rotation)[k].RotateY? ==>
      Rotation(rotation)[k] == RotateY(rotation.y)
    ensures forall k :: 0 <= k < |Rotation(rotation)| && Rotation(rotation)[k].RotateZ? ==>
      Rotation(rotation)[k] == RotateZ(rotation.z)
    ensures forall i, j :: 0 <= i < j < |Rotation(rotation)| ==>
      AxisRank(Rotation(rotation)[i]) < AxisRank(Rotation(rotation)[j])
  {
  }

  /** T(position) * Rx * Ry * Rz * S(scale): the matrix placing a model in the world. */
  function Placement(position: Vec3, rotation: Vec3, scale: Vec3): (r: Mat4)
    ensures 2 <= |r| <= 5
    ensures r[0] == Translate(position) && r[|r| - 1] == ScaleBy(scale)
    ensures rotation == Zero3 ==> r == [Translate(position), ScaleBy(scale)]
  {
    [Translate(position)] + Rotation(rotation) + [ScaleBy(scale)]
  }
}
