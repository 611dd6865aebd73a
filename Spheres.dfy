/** Ray-sphere intersection (Sphere::hit and Sphere::shadowHit). */
module Spheres {
  import opened Geometry

  /** A sphere with its centre, radius and the index of its material. */
  datatype Sphere = Sphere(center: Vec3, radius: real, mat: nat)

  /** The coefficients of a*t^2 + b*t + c. */
  datatype Quadratic = Quadratic(a: real, b: real, c: real)

  /** The quadratic whose roots are the ray parameters where the ray meets the sphere,
      computed in the sphere's coordinates (origin minus centre). */
  function Coefficients(s: Sphere, r: Ray): Quadratic {
    var oc := Sub(r.origin, s.center);
    Quadratic(Dot(r.direction, r.direction), 2.0 * Dot(r.direction, oc), Dot(oc, oc) - s.radius * s.radius)
  }

  function Discriminant(q: Quadratic): real { q.b * q.b - 4.0 * q.a * q.c }

  function Eval(q: Quadratic, t: real): real { q.a * t * t + q.b * t + q.c }

  /** The larger root (-b + sqrt d) / 2a, called t1 in the source. */
  function Root1(num: Numerics, q: Quadratic): real
    requires q.a != 0.0
  {
    (-q.b + num.sqrt(Discriminant(q))) / (2.0 * q.a)
  }

  /** The smaller root (-b - sqrt d) / 2a, called t2 in the source. */
  function Root2(num: Numerics, q: Quadratic): real
    requires q.a != 0.0
  {
    (-q.b - num.sqrt(Discriminant(q))) / (2.0 * q.a)
  }

  /** The ray parameter that Sphere::hit reports, or None when it reports no hit.
      Mirrors the branches of the source: the tangent case, the two-root case with
      its tie-break, and the range check applied to the chosen root only. */
  function HitT(num: Numerics, s: Sphere, r: Ray, tmin: real, tmax: real): Option<real>
    requires Dot(r.direction, r.direction) > 0.0
  {
    var q := Coefficients(s, r);
    var d := Discriminant(q);
    if d == 0.0 then
      var t := Root1(num, q);
      if t < tmin || t > tmax then None else Some(t)
    else if d > 0.0 then
      var t1 := Root1(num, q);
      var t2 := Root2(num, q);
      if t2 > 0.0 && (t1 < 0.0 || t1 > t2) then
        (if t2 < tmin || t2 > tmax then None else Some(t2))
      else if t1 > 0.0 && (t2 < 0.0 || t2 > t1) then
        (if t1 < tmin || t1 > tmax then None else Some(t1))
      else None
    else None
  }

  /** Sphere::shadowHit, written with its own branches like the source;
      it reports a hit exactly when Sphere::hit does. */
  function ShadowHit(num: Numerics, s: Sphere, r: Ray, tmin: real, tmax: real): (hit: bool)
    requires Dot(r.direction, r.direction) > 0.0
    ensures hit <==> HitT(num, s, r, tmin, tmax).Some?
  {
    var q := Coefficients(s, r);
    var d := Discriminant(q);
    if d == 0.0 then
      var t := Root1(num, q);
      !(t < tmin || t > tmax)
    else if d > 0.0 then
      var t1 := Root1(num, q);
      var t2 := Root2(num, q);
      var t := if t2 > 0.0 && (t1 < 0.0 || t1 > t2) then Some(t2)
               else if t1 > 0.0 && (t2 < 0.0 || t2 > t1) then Some(t1)
               else None;
      t.Some? && !(t.value < tmin || t.value > tmax)
    else false
  }

  /** 4a times the quadratic is a shifted square minus the discriminant. */
  lemma CompletedSquare(q: Quadratic, t: real)
    ensures 4.0 * q.a * Eval(q, t) == (2.0 * q.a * t + q.b) * (2.0 * q.a * t + q.b) - Discriminant(q)
  {
  }

  /** With a non-negative discriminant the two roots of the source are roots,
      the smaller one is Root2, and there are no others. */
  lemma RootFacts(num: Numerics, q: Quadratic)
    requires SqrtLaw(num) && q.a > 0.0 && Discriminant(q) >= 0.0
    ensures Eval(q, Root1(num, q)) == 0.0 && Eval(q, Root2(num, q)) == 0.0
    ensures Root2(num, q) <= Root1(num, q)
    ensures Discriminant(q) > 0.0 ==> Root2(num, q) < Root1(num, q)
    ensures Discriminant(q) == 0.0 ==> Root1(num, q) == Root2(num, q) == -q.b / (2.0 * q.a)
    ensures forall t :: Eval(q, t) == 0.0 ==> t == Root1(num, q) || t == Root2(num, q)
  {
    var d := Discriminant(q);
    var sq := num.sqrt(d);
    assert sq >= 0.0 && sq * sq == d;
    var t1, t2 := Root1(num, q), Root2(num, q);
    RootEquations(num, q);
    assert 2.0 * q.a * t1 + q.b == sq;
    assert 2.0 * q.a * t2 + q.b == -sq;
    CompletedSquare(q, t1);
    CompletedSquare(q, t2);
    assert 4.0 * q.a * Eval(q, t1) == 0.0;
    assert 4.0 * q.a * Eval(q, t2) == 0.0;
    if d == 0.0 {
      SquareZero(sq);
      assert t1 == -q.b / (2.0 * q.a);
      assert t2 == -q.b / (2.0 * q.a);
    }
    if d > 0.0 {
      assert sq > 0.0;
    }
    forall t | Eval(q, t) == 0.0
      ensures t == t1 || t == t2
    {
      CompletedSquare(q, t);
      var u := 2.0 * q.a * t + q.b;
      assert u * u == sq * sq;
      assert (u - sq) * (u + sq) == 0.0;
      if u == sq {
        assert 2.0 * q.a * t == 2.0 * q.a * t1;
      } else {
        ZeroProduct(u - sq, u + sq);
        assert u == -sq;
        assert 2.0 * q.a * t == 2.0 * q.a * t2;
      }
    }
  }

  lemma PositiveProduct(x: real, y: real)
    requires x > 0.0 && y > 0.0
    ensures x * y > 0.0
  {
  }

  lemma SquareMonotone(x: real, y: real)
    requires 0.0 <= x < y
    ensures x * x < y * y
  {
    assert (y - x) * (y + x) == y * y - x * x;
    PositiveProduct(y - x, y + x);
  }

  lemma SquareZero(x: real)
    requires x >= 0.0 && x * x == 0.0
    ensures x == 0.0
  {
    if x > 0.0 { SquareMonotone(0.0, x); }
  }

  lemma ZeroProduct(x: real, y: real)
    requires x * y == 0.0 && x != 0.0
    ensures y == 0.0
  {
    assert y == (x * y) / x;
  }

  lemma Quotient(n: real, a: real, t: real)
    requires a != 0.0 && t == n / a
    ensures a * t == n
  {
  }

  /** The defining equations of the two roots, free of division. */
  lemma RootEquations(num: Numerics, q: Quadratic)
    requires q.a != 0.0
    ensures 2.0 * q.a * Root1(num, q) == -q.b + num.sqrt(Discriminant(q))
    ensures 2.0 * q.a * Root2(num, q) == -q.b - num.sqrt(Discriminant(q))
  {
    Quotient(-q.b + num.sqrt(Discriminant(q)), 2.0 * q.a, Root1(num, q));
    Quotient(-q.b - num.sqrt(Discriminant(q)), 2.0 * q.a, Root2(num, q));
  }

  /** The quadratic vanishes exactly where the ray's point lies on the sphere. */
  lemma OnSphere(s: Sphere, r: Ray, t: real)
    ensures var q := Coefficients(s, r);
            var w := Sub(PointAt(r, t), s.center);
            Eval(q, t) == Dot(w, w) - s.radius * s.radius
  {
    var oc := Sub(r.origin, s.center);
    var d := r.direction;
    var w := Sub(PointAt(r, t), s.center);
    assert w == Vec3(oc.x + t * d.x, oc.y + t * d.y, oc.z + t * d.z);
  }

  /** A negative discriminant gives no hit. */
  lemma MissesWhenDiscriminantNegative(num: Numerics, s: Sphere, r: Ray, tmin: real, tmax: real)
    requires Dot(r.direction, r.direction) > 0.0
    requires Discriminant(Coefficients(s, r)) < 0.0
    ensures HitT(num, s, r, tmin, tmax) == None
  {
  }

  /** A tangent ray (zero discriminant) hits at -b/2a exactly when that lies in range. */
  lemma TangentHit(num: Numerics, s: Sphere, r: Ray, tmin: real, tmax: real)
    requires SqrtLaw(num) && Dot(r.direction, r.direction) > 0.0
    requires Discriminant(Coefficients(s, r)) == 0.0
    ensures var q := Coefficients(s, r);
            var t := -q.b / (2.0 * q.a);
            HitT(num, s, r, tmin, tmax) == if tmin <= t <= tmax then Some(t) else None
  {
    RootFacts(num, Coefficients(s, r));
  }

  /** The tie-break of the source, for any root pair with t2 < t1. */
  lemma OrderedRootChoice(num: Numerics, s: Sphere, r: Ray, tmin: real, tmax: real)
    requires Dot(r.direction, r.direction) > 0.0
    requires Discriminant(Coefficients(s, r)) > 0.0
    requires Root2(num, Coefficients(s, r)) < Root1(num, Coefficients(s, r))
    ensures var q := Coefficients(s, r);
            var t1, t2 := Root1(num, q), Root2(num, q);
            HitT(num, s, r, tmin, tmax) ==
              if t2 > 0.0 then (if tmin <= t2 <= tmax then Some(t2) else None)
              else if t2 < 0.0 && t1 > 0.0 then (if tmin <= t1 <= tmax then Some(t1) else None)
              else None
  {
  }

  /** With two roots the smaller one is chosen when positive, else the larger one
      when the smaller is negative; a zero smaller root gives no hit; and the range
      check applies to the chosen root only. */
  lemma RootChoice(num: Numerics, s: Sphere, r: Ray, tmin: real, tmax: real)
    requires SqrtLaw(num) && Dot(r.direction, r.direction) > 0.0
    requires Discriminant(Coefficients(s, r)) > 0.0
    ensures var q := Coefficients(s, r);
            var t1, t2 := Root1(num, q), Root2(num, q);
            HitT(num, s, r, tmin, tmax) ==
              if t2 > 0.0 then (if tmin <= t2 <= tmax then Some(t2) else None)
              else if t2 < 0.0 && t1 > 0.0 then (if tmin <= t1 <= tmax then Some(t1) else None)
              else None
  {
    RootFacts(num, Coefficients(s, r));
    OrderedRootChoice(num, s, r, tmin, tmax);
  }

  /** A reported hit lies in range, is a root of the quadratic, sits on the sphere,
      and in the two-root case is the smallest positive root. */
  lemma HitIsNearestPositiveRoot(num: Numerics, s: Sphere, r: Ray, tmin: real, tmax: real)
    requires SqrtLaw(num) && Dot(r.direction, r.direction) > 0.0
    requires HitT(num, s, r, tmin, tmax).Some?
    ensures var t := HitT(num, s, r, tmin, tmax).value;
            var q := Coefficients(s, r);
            var w := Sub(PointAt(r, t), s.center);
            && tmin <= t <= tmax
            && Eval(q, t) == 0.0
            && Dot(w, w) == s.radius * s.radius
            && (Discriminant(q) > 0.0 ==> t > 0.0 && forall u :: u > 0.0 && Eval(q, u) == 0.0 ==> t <= u)
  {
    var q := Coefficients(s, r);
    RootFacts(num, q);
    OnSphere(s, r, HitT(num, s, r, tmin, tmax).value);
  }

  /** No fallback: from (-2,0,0) along +x the unit sphere has roots 1 and 3; with
      range [2,4] the chosen root 1 is out of range, so there is no hit, although
      the root 3 is in range. */
  lemma NoFallbackToOtherRoot(num: Numerics)
    requires num.sqrt(4.0) == 2.0
    ensures var s := Sphere(Zero, 1.0, 0);
            var r := Ray(Vec3(-2.0, 0.0, 0.0), Vec3(1.0, 0.0, 0.0));
            && Eval(Coefficients(s, r), 3.0) == 0.0
            && HitT(num, s, r, 2.0, 4.0) == None
  {
    var s := Sphere(Zero, 1.0, 0);
    var r := Ray(Vec3(-2.0, 0.0, 0.0), Vec3(1.0, 0.0, 0.0));
    var oc := Sub(r.origin, s.center);
    assert oc == Vec3(-2.0, 0.0, 0.0);
    assert Dot(r.direction, r.direction) == 1.0;
    assert Dot(r.direction, oc) == -2.0;
    assert Dot(oc, oc) == 4.0;
    var q := Coefficients(s, r);
    assert q == Quadratic(1.0, -4.0, 3.0);
    assert Discriminant(q) == 4.0;
    assert 2.0 * q.a == 2.0;
    RootEquations(num, q);
    assert Root1(num, q) == 3.0 && Root2(num, q) == 1.0;
    OrderedRootChoice(num, s, r, 2.0, 4.0);
  }

  /** A zero smaller root is rejected: from (-1,0,0), on the unit sphere, along +x
      the roots are 0 and 2, both in [0,10], yet there is no hit. */
  lemma ZeroRootRejected(num: Numerics)
    requires num.sqrt(4.0) == 2.0
    ensures var s := Sphere(Zero, 1.0, 0);
            var r := Ray(Vec3(-1.0, 0.0, 0.0), Vec3(1.0, 0.0, 0.0));
            && Eval(Coefficients(s, r), 2.0) == 0.0
            && HitT(num, s, r, 0.0, 10.0) == None
  {
    var s := Sphere(Zero, 1.0, 0);
    var r := Ray(Vec3(-1.0, 0.0, 0.0), Vec3(1.0, 0.0, 0.0));
    var oc := Sub(r.origin, s.center);
    assert oc == Vec3(-1.0, 0.0, 0.0);
    assert Dot(r.direction, r.direction) == 1.0;
    assert Dot(r.direction, oc) == -1.0;
    assert Dot(oc, oc) == 1.0;
    var q := Coefficients(s, r);
    assert q == Quadratic(1.0, -2.0, 0.0);
    assert Discriminant(q) == 4.0;
    assert 2.0 * q.a == 2.0;
    RootEquations(num, q);
    assert Root1(num, q) == 2.0 && Root2(num, q) == 0.0;
    OrderedRootChoice(num, s, r, 0.0, 10.0);
  }

  /** The caller's hit record, whose fields Sphere::hit overwrites on success. */
  class SurfaceHitRecord {
    var t: real
    var p: Vec3
    var normal: Vec3
    var mat: nat

    constructor ()
      ensures t == 0.0 && p == Zero && normal == Zero && mat == 0
    {
      t, p, normal, mat := 0.0, Zero, Zero, 0;
    }
  }

  /** Sphere::hit: decides like HitT and fills the record only on success. */
  method Hit(num: Numerics, s: Sphere, r: Ray, tmin: real, tmax: real, rec: SurfaceHitRecord) returns (hit: bool)
    requires Dot(r.direction, r.direction) > 0.0
    modifies rec
    ensures hit <==> HitT(num, s, r, tmin, tmax).Some?
    ensures hit ==> && rec.t == HitT(num, s, r, tmin, tmax).value
                    && rec.p == PointAt(r, rec.t)
                    && rec.normal == num.unit(Sub(rec.p, s.center))
                    && rec.mat == s.mat
    ensures !hit ==> unchanged(rec)
  {
    var q := Coefficients(s, r);
    var d := Discriminant(q);
    var t: real;
    if d == 0.0 {
      t := (-q.b + num.sqrt(d)) / (2.0 * q.a);
      if t < tmin || t > tmax { return false; }
    } else if d > 0.0 {
      var t1 := (-q.b + num.sqrt(d)) / (2.0 * q.a);
      var t2 := (-q.b - num.sqrt(d)) / (2.0 * q.a);
      if t2 > 0.0 && (t1 < 0.0 || t1 > t2) {
        t := t2;
      } else if t1 > 0.0 && (t2 < 0.0 || t2 > t1) {
        t := t1;
      } else {
        return false;
      }
      if t < tmin || t > tmax { return false; }
    } else {
      return false;
    }
    rec.t := t;
    rec.p := PointAt(r, t);
    rec.normal := num.unit(Sub(rec.p, s.center));
    rec.mat := s.mat;
    return true;
  }
}
