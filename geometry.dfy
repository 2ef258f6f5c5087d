/** Exact three-dimensional vectors: the coordinates of structure nodes and
    the translation offsets passed to `move`. Coordinates are reals, so the
    floating-point rounding of the physics library's vector type is not
    part of this model. */
module Geometry {

  datatype Vec3 = Vec3(x: real, y: real, z: real)

  function Add(a: Vec3, b: Vec3): Vec3 {
    Vec3(a.x + b.x, a.y + b.y, a.z + b.z)
  }

  function Neg(a: Vec3): Vec3 {
    Vec3(-a.x, -a.y, -a.z)
  }

  /** `k * v`, as in `(i + 1) * offset`. */
  function Scale(k: real, a: Vec3): Vec3 {
    Vec3(k * a.x, k * a.y, k * a.z)
  }

  /** `(a + b) / 2.0`: the point halfway between `a` and `b`. */
  function Midpoint(a: Vec3, b: Vec3): (m: Vec3)
    ensures Add(m, m) == Add(a, b)
    ensures Add(a, Neg(m)) == Add(m, Neg(b))
  {
    Vec3((a.x + b.x) / 2.0, (a.y + b.y) / 2.0, (a.z + b.z) / 2.0)
  }

  /** Moving by `v` and back by `-v` returns to the start. */
  lemma AddNegCancels(a: Vec3, v: Vec3)
    ensures Add(Add(a, v), Neg(v)) == a
  {
  }

  /** Two moves in a row are one move by the sum. */
  lemma AddAssociates(a: Vec3, u: Vec3, v: Vec3)
    ensures Add(Add(a, u), v) == Add(a, Add(u, v))
  {
  }
}
