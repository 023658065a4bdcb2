/** Points and axis-aligned boxes shared by the accelerator and the voxel volume. */
module Geometry {

  /** FLT_MAX of <float.h>, the "nothing hit yet" distance. */
  const FLT_MAX: real := 340282346638528859811704183484516925440.0

  datatype Vec3 = Vec3(x: real, y: real, z: real)

  /** A ray: origin, direction and the active interval [tmin, tmax] of its parameter. */
  datatype Ray = Ray(orig: Vec3, dir: Vec3, tmin: real, tmax: real)

  /** The coordinate of `v` along axis 0 (x), 1 (y) or 2 (z). */
  function Coord(v: Vec3, axis: nat): real
    requires axis < 3
  {
    if axis == 0 then v.x else if axis == 1 then v.y else v.z
  }

  function Min(a: real, b: real): real { if a < b then a else b }
  function Max(a: real, b: real): real { if a < b then b else a }

  /** An axis-aligned box given by its minimum and maximum corners. */
  datatype Box = Box(min: Vec3, max: Vec3)

  /** The box BOX3_SET(b, 0, 0, 0, 0, 0, 0) gives a freshly allocated node or volume. */
  const ZeroBox: Box := Box(Vec3(0.0, 0.0, 0.0), Vec3(0.0, 0.0, 0.0))

  /** `outer` contains `inner` on every axis. */
  predicate Encloses(outer: Box, inner: Box)
  {
    && outer.min.x <= inner.min.x && inner.max.x <= outer.max.x
    && outer.min.y <= inner.min.y && inner.max.y <= outer.max.y
    && outer.min.z <= inner.min.z && inner.max.z <= outer.max.z
  }

  /** BoxAddBox: grows `a` so that it also covers `b` (the smallest box enclosing both). */
  function BoxAddBox(a: Box, b: Box): (r: Box)
    ensures Encloses(r, a) && Encloses(r, b)
    ensures forall c: Box :: Encloses(c, a) && Encloses(c, b) ==> Encloses(c, r)
  {
    Box(Vec3(Min(a.min.x, b.min.x), Min(a.min.y, b.min.y), Min(a.min.z, b.min.z)),
        Vec3(Max(a.max.x, b.max.x), Max(a.max.y, b.max.y), Max(a.max.z, b.max.z)))
  }

  lemma EnclosesTransitive(a: Box, b: Box, c: Box)
    requires Encloses(a, b) && Encloses(b, c)
    ensures Encloses(a, c)
  {
  }

  /** The centre of a box, the centroid the accelerator sorts by. */
  function Centroid(b: Box): Vec3
  {
    Vec3((b.max.x + b.min.x) / 2.0, (b.max.y + b.min.y) / 2.0, (b.max.z + b.min.z) / 2.0)
  }

  /** BoxContainsPoint: the point lies in the closed box. */
  predicate ContainsPoint(b: Box, p: Vec3)
  {
    && b.min.x <= p.x <= b.max.x
    && b.min.y <= p.y <= b.max.y
    && b.min.z <= p.z <= b.max.z
  }
}
