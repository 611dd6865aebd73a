/** Vectors, colours and rays over the reals, and the numeric primitives
    (square root, normalisation, power) that the tracer treats as given. */
module Geometry {

  datatype Option<T> = None | Some(value: T)

  /** A point or direction in space (Vector3d). */
  datatype Vec3 = Vec3(x: real, y: real, z: real)

  /** An RGB colour with real channels and no alpha (Color). */
  datatype Color = Color(r: real, g: real, b: real)

  /** A ray: origin plus a direction that need not have unit length. */
  datatype Ray = Ray(origin: Vec3, direction: Vec3)

  const Zero := Vec3(0.0, 0.0, 0.0)
  const Black := Color(0.0, 0.0, 0.0)

  function Add(u: Vec3, v: Vec3): Vec3 { Vec3(u.x + v.x, u.y + v.y, u.z + v.z) }
  function Sub(u: Vec3, v: Vec3): Vec3 { Vec3(u.x - v.x, u.y - v.y, u.z - v.z) }
  function Neg(v: Vec3): Vec3 { Vec3(-v.x, -v.y, -v.z) }
  function Scale(k: real, v: Vec3): Vec3 { Vec3(k * v.x, k * v.y, k * v.z) }
  function Dot(u: Vec3, v: Vec3): real { u.x * v.x + u.y * v.y + u.z * v.z }

  /** The point at parameter t along the ray (Ray::pointAtParam). */
  function PointAt(r: Ray, t: real): Vec3 { Add(r.origin, Scale(t, r.direction)) }

  function CAdd(c: Color, d: Color): Color { Color(c.r + d.r, c.g + d.g, c.b + d.b) }
  /** Component-wise product of two colours (Color * Color). */
  function CMul(c: Color, d: Color): Color { Color(c.r * d.r, c.g * d.g, c.b * d.b) }
  function CScale(c: Color, k: real): Color { Color(c.r * k, c.g * k, c.b * k) }

  predicate NonNegative(c: Color) { c.r >= 0.0 && c.g >= 0.0 && c.b >= 0.0 }

  /** The numeric primitives of the C++ library, left uninterpreted:
      std::sqrt, Vector3d::makeUnitVector and powf. */
  datatype Numerics = Numerics(sqrt: real -> real, unit: Vec3 -> Vec3, pow: (real, real) -> real)

  /** What the proofs assume of sqrt: a non-negative square root. */
  ghost predicate SqrtLaw(num: Numerics) {
    forall d :: d >= 0.0 ==> num.sqrt(d) >= 0.0 && num.sqrt(d) * num.sqrt(d) == d
  }

  /** What the proofs assume of normalisation: it is idempotent and commutes with negation. */
  ghost predicate UnitLaws(num: Numerics) {
    && (forall v {:trigger num.unit(num.unit(v))} :: num.unit(num.unit(v)) == num.unit(v))
    && (forall v {:trigger num.unit(Neg(v))} :: num.unit(Neg(v)) == Neg(num.unit(v)))
  }

  /** What the lighting bound assumes of powf: a non-negative base gives a non-negative power. */
  ghost predicate PowLaw(num: Numerics) {
    forall x, n {:trigger num.pow(x, n)} :: x >= 0.0 ==> num.pow(x, n) >= 0.0
  }
}
