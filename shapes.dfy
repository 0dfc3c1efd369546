/** The scene primitives of myshapes.py: their material, their geometry, the
    ray intersection tests and the surface normals, and the mutable shape object
    with its getters and setters. */
module Shapes {
  import opened Vectors

  /** The tolerance the intersection tests use, taken as an exact real. */
  const Eps: real := 0.000001

  /** The material fields every shape carries. `gloss` is the Phong exponent,
      taken as a natural number. */
  datatype Material = Material(
    diffuse: Vec3, specular: Vec3, gloss: nat, refl: real, kd: real, ks: real, ka: real)

  /** The geometry of a shape. `Base` is a bare myshape, which has no geometry. */
  datatype Geometry =
    | Base
    | Plane(normal: Vec3, d: real)
    | Triangle(a: Vec3, b: Vec3, c: Vec3)
    | Sphere(center: Vec3, radius: real)

  /** The value of a shape object: what the tracer reads of it. */
  datatype Primitive = Primitive(geom: Geometry, mat: Material)

  // ---------------------------------------------------------------- planes

  predicate OnPlane(normal: Vec3, d: real, p: Vec3) { Dot(normal, p) == d }

  /** Plane.intersect: one-sided, a miss unless the ray runs against the normal
      by more than the tolerance. */
  function PlaneIntersect(normal: Vec3, d: real, org: Vec3, dir: Vec3): (t: real)
    ensures Dot(normal, dir) > -Eps ==> t == -1.0
    ensures Dot(normal, dir) <= -Eps ==> t * Dot(normal, dir) == d - Dot(normal, org)
  {
    var denom := Dot(normal, dir);
    if Abs(denom) < Eps then -1.0
    else if denom > 0.0 then -1.0
    else (-1.0 * Dot(normal, org) + d) / denom
  }

  lemma DotPointAt(n: Vec3, org: Vec3, dir: Vec3, t: real)
    ensures Dot(n, PointAt(org, dir, t)) == Dot(n, org) + t * Dot(n, dir)
  {
  }

  /** When the plane test takes its division path, the returned parameter puts
      the ray's point on the plane, and it is the only parameter that does. */
  lemma PlaneHitOnPlane(normal: Vec3, d: real, org: Vec3, dir: Vec3)
    requires Dot(normal, dir) <= -Eps
    ensures OnPlane(normal, d, PointAt(org, dir, PlaneIntersect(normal, d, org, dir)))
    ensures forall s :: OnPlane(normal, d, PointAt(org, dir, s)) ==> s == PlaneIntersect(normal, d, org, dir)
  {
    var t := PlaneIntersect(normal, d, org, dir);
    DotPointAt(normal, org, dir, t);
    forall s | OnPlane(normal, d, PointAt(org, dir, s))
      ensures s == t
    {
      DotPointAt(normal, org, dir, s);
      assert s * Dot(normal, dir) == t * Dot(normal, dir);
      assert (s - t) * Dot(normal, dir) == 0.0;
    }
  }

  // ------------------------------------------------------------- triangles

  /** The Möller–Trumbore determinant `dot(edge1, cross(dir, edge2))`. */
  function TriangleDet(a: Vec3, b: Vec3, c: Vec3, dir: Vec3): real {
    Dot(Sub(b, a), Cross(dir, Sub(c, a)))
  }

  /** The barycentric coordinates u, v of the ray's crossing of the triangle's
      plane, and its ray parameter t. */
  datatype Bary = Bary(u: real, v: real, t: real)

  function TriangleBary(a: Vec3, b: Vec3, c: Vec3, org: Vec3, dir: Vec3): Bary
    requires TriangleDet(a, b, c, dir) != 0.0
  {
    var edge1 := Sub(b, a);
    var edge2 := Sub(c, a);
    var h := Cross(dir, edge2);
    var f := 1.0 / Dot(edge1, h);
    var s := Sub(org, a);
    var q := Cross(s, edge1);
    Bary(f * Dot(s, h), f * Dot(dir, q), f * Dot(edge2, q))
  }

  /** Triangle.intersect: the Möller–Trumbore test with its chain of
      rejections. */
  function TriangleIntersect(a: Vec3, b: Vec3, c: Vec3, org: Vec3, dir: Vec3): (t: real)
    ensures t == -1.0 || t > Eps
    ensures Abs(TriangleDet(a, b, c, dir)) < Eps ==> t == -1.0
    ensures t != -1.0 ==>
      && Abs(TriangleDet(a, b, c, dir)) >= Eps
      && var w := TriangleBary(a, b, c, org, dir);
      && 0.0 <= w.u <= 1.0 && 0.0 <= w.v && w.u + w.v <= 1.0 && t == w.t
    ensures Abs(TriangleDet(a, b, c, dir)) >= Eps ==>
      var w := TriangleBary(a, b, c, org, dir);
      0.0 <= w.u <= 1.0 && 0.0 <= w.v && w.u + w.v <= 1.0 && w.t > Eps ==> t == w.t
  {
    var det := TriangleDet(a, b, c, dir);
    if det > -Eps && det < Eps then -1.0
    else
      var w := TriangleBary(a, b, c, org, dir);
      if w.u < 0.0 || w.u > 1.0 then -1.0
      else if w.v < 0.0 || w.u + w.v > 1.0 then -1.0
      else if w.t > Eps then w.t
      else -1.0
  }

  lemma CramerX(e1: Vec3, e2: Vec3, d: Vec3, s: Vec3)
    ensures Dot(e1, Cross(d, e2)) * s.x
         == Dot(s, Cross(d, e2)) * e1.x + Dot(d, Cross(s, e1)) * e2.x - Dot(e2, Cross(s, e1)) * d.x
  {
  }

  lemma CramerY(e1: Vec3, e2: Vec3, d: Vec3, s: Vec3)
    ensures Dot(e1, Cross(d, e2)) * s.y
         == Dot(s, Cross(d, e2)) * e1.y + Dot(d, Cross(s, e1)) * e2.y - Dot(e2, Cross(s, e1)) * d.y
  {
  }

  lemma CramerZ(e1: Vec3, e2: Vec3, d: Vec3, s: Vec3)
    ensures Dot(e1, Cross(d, e2)) * s.z
         == Dot(s, Cross(d, e2)) * e1.z + Dot(d, Cross(s, e1)) * e2.z - Dot(e2, Cross(s, e1)) * d.z
  {
  }

  /** Dividing one component of the Cramer identity by the determinant. */
  lemma DivideByDet(det: real, f: real, sc: real, hu: real, e1c: real, hv: real, e2c: real, ht: real, dc: real,
                    u: real, v: real, t: real)
    requires f * det == 1.0 && u == f * hu && v == f * hv && t == f * ht
    requires det * sc == hu * e1c + hv * e2c - ht * dc
    ensures sc == u * e1c + v * e2c - t * dc
  {
    assert f * (det * sc) == f * (hu * e1c + hv * e2c - ht * dc);
  }

  /** The barycentric solution, one component at a time: `s == u*e1 + v*e2 - t*d`
      for the Cramer quotients `u`, `v`, `t`. */
  lemma SolvedX(e1: Vec3, e2: Vec3, d: Vec3, s: Vec3, f: real, u: real, v: real, t: real)
    requires f * Dot(e1, Cross(d, e2)) == 1.0
    requires u == f * Dot(s, Cross(d, e2)) && v == f * Dot(d, Cross(s, e1)) && t == f * Dot(e2, Cross(s, e1))
    ensures s.x == u * e1.x + v * e2.x - t * d.x
  {
    CramerX(e1, e2, d, s);
    DivideByDet(Dot(e1, Cross(d, e2)), f, s.x, Dot(s, Cross(d, e2)), e1.x, Dot(d, Cross(s, e1)), e2.x,
                Dot(e2, Cross(s, e1)), d.x, u, v, t);
  }

  lemma SolvedY(e1: Vec3, e2: Vec3, d: Vec3, s: Vec3, f: real, u: real, v: real, t: real)
    requires f * Dot(e1, Cross(d, e2)) == 1.0
    requires u == f * Dot(s, Cross(d, e2)) && v == f * Dot(d, Cross(s, e1)) && t == f * Dot(e2, Cross(s, e1))
    ensures s.y == u * e1.y + v * e2.y - t * d.y
  {
    CramerY(e1, e2, d, s);
    DivideByDet(Dot(e1, Cross(d, e2)), f, s.y, Dot(s, Cross(d, e2)), e1.y, Dot(d, Cross(s, e1)), e2.y,
                Dot(e2, Cross(s, e1)), d.y, u, v, t);
  }

  lemma SolvedZ(e1: Vec3, e2: Vec3, d: Vec3, s: Vec3, f: real, u: real, v: real, t: real)
    requires f * Dot(e1, Cross(d, e2)) == 1.0
    requires u == f * Dot(s, Cross(d, e2)) && v == f * Dot(d, Cross(s, e1)) && t == f * Dot(e2, Cross(s, e1))
    ensures s.z == u * e1.z + v * e2.z - t * d.z
  {
    CramerZ(e1, e2, d, s);
    DivideByDet(Dot(e1, Cross(d, e2)), f, s.z, Dot(s, Cross(d, e2)), e1.z, Dot(d, Cross(s, e1)), e2.z,
                Dot(e2, Cross(s, e1)), d.z, u, v, t);
  }

  /** The three components together, for the quotients of `TriangleBary`. */
  lemma Solved(e1: Vec3, e2: Vec3, d: Vec3, s: Vec3, f: real, w: Bary)
    requires f * Dot(e1, Cross(d, e2)) == 1.0
    requires w == Bary(f * Dot(s, Cross(d, e2)), f * Dot(d, Cross(s, e1)), f * Dot(e2, Cross(s, e1)))
    ensures s.x == w.u * e1.x + w.v * e2.x - w.t * d.x
    ensures s.y == w.u * e1.y + w.v * e2.y - w.t * d.y
    ensures s.z == w.u * e1.z + w.v * e2.z - w.t * d.z
  {
    SolvedX(e1, e2, d, s, f, w.u, w.v, w.t);
    SolvedY(e1, e2, d, s, f, w.u, w.v, w.t);
    SolvedZ(e1, e2, d, s, f, w.u, w.v, w.t);
  }

  /** Cramer's rule behind Möller–Trumbore: when the determinant is non-zero,
      `org - a == u*edge1 + v*edge2 - t*dir`. */
  lemma BarySolves(a: Vec3, b: Vec3, c: Vec3, org: Vec3, dir: Vec3)
    requires TriangleDet(a, b, c, dir) != 0.0
    ensures var w := TriangleBary(a, b, c, org, dir);
      PointAt(org, dir, w.t) == Add(a, Add(Scale(w.u, Sub(b, a)), Scale(w.v, Sub(c, a))))
  {
    var e1, e2, s := Sub(b, a), Sub(c, a), Sub(org, a);
    var det := TriangleDet(a, b, c, dir);
    var f := 1.0 / det;
    var w := TriangleBary(a, b, c, org, dir);
    InverseTimes(det);
    Solved(e1, e2, dir, s, f, w);
    CombineComponents(org, dir, a, e1, e2, w);
  }

  lemma InverseTimes(x: real)
    requires x != 0.0
    ensures (1.0 / x) * x == 1.0
  {
  }

  lemma CombineScalar(o: real, d: real, a: real, e1: real, e2: real, u: real, v: real, t: real)
    requires o - a == u * e1 + v * e2 - t * d
    ensures o + t * d == a + (u * e1 + v * e2)
  {
  }

  lemma CombineComponents(org: Vec3, dir: Vec3, a: Vec3, e1: Vec3, e2: Vec3, w: Bary)
    requires org.x - a.x == w.u * e1.x + w.v * e2.x - w.t * dir.x
    requires org.y - a.y == w.u * e1.y + w.v * e2.y - w.t * dir.y
    requires org.z - a.z == w.u * e1.z + w.v * e2.z - w.t * dir.z
    ensures PointAt(org, dir, w.t) == Add(a, Add(Scale(w.u, e1), Scale(w.v, e2)))
  {
    CombineScalar(org.x, dir.x, a.x, e1.x, e2.x, w.u, w.v, w.t);
    CombineScalar(org.y, dir.y, a.y, e1.y, e2.y, w.u, w.v, w.t);
    CombineScalar(org.z, dir.z, a.z, e1.z, e2.z, w.u, w.v, w.t);
  }

  /** A triangle hit lies inside the triangle: the hit point is the convex
      combination `(1-u-v)*A + u*B + v*C` with non-negative weights. */
  lemma TriangleHitInside(a: Vec3, b: Vec3, c: Vec3, org: Vec3, dir: Vec3)
    requires TriangleIntersect(a, b, c, org, dir) != -1.0
    ensures var w := TriangleBary(a, b, c, org, dir);
      && 0.0 <= w.u && 0.0 <= w.v && 0.0 <= 1.0 - w.u - w.v
      && PointAt(org, dir, TriangleIntersect(a, b, c, org, dir))
         == Add(Add(Scale(1.0 - w.u - w.v, a), Scale(w.u, b)), Scale(w.v, c))
  {
    BarySolves(a, b, c, org, dir);
  }

  /** The converse of `TriangleHitInside`: a ray that crosses the triangle at a
      parameter beyond the tolerance, with a determinant outside it, is
      reported at exactly that parameter. */
  lemma TriangleCrossingFound(a: Vec3, b: Vec3, c: Vec3, org: Vec3, dir: Vec3, u: real, v: real, s: real)
    requires Abs(TriangleDet(a, b, c, dir)) >= Eps
    requires 0.0 <= u && 0.0 <= v && u + v <= 1.0 && s > Eps
    requires PointAt(org, dir, s) == Add(a, Add(Scale(u, Sub(b, a)), Scale(v, Sub(c, a))))
    ensures TriangleBary(a, b, c, org, dir) == Bary(u, v, s)
    ensures TriangleIntersect(a, b, c, org, dir) == s
  {
    var e1, e2 := Sub(b, a), Sub(c, a);
    var det := TriangleDet(a, b, c, dir);
    var f := 1.0 / det;
    var sv := Sub(org, a);
    assert sv == Sub(Add(Scale(u, e1), Scale(v, e2)), Scale(s, dir));
    BaryUnique(e1, e2, dir, sv, u, v, s);
    InverseTimes(det);
    CancelDet(f, det, u);
    CancelDet(f, det, v);
    CancelDet(f, det, s);
  }

  lemma CancelDet(f: real, det: real, x: real)
    requires f * det == 1.0
    ensures f * (x * det) == x
  {
    assert f * (x * det) == x * (f * det);
  }

  /** Cramer's rule read backwards: if `s == u*e1 + v*e2 - t*d`, the three
      triple products of Möller–Trumbore are `u`, `v` and `t` times the
      determinant. */
  lemma BaryUnique(e1: Vec3, e2: Vec3, d: Vec3, s: Vec3, u: real, v: real, t: real)
    requires s == Sub(Add(Scale(u, e1), Scale(v, e2)), Scale(t, d))
    ensures Dot(s, Cross(d, e2)) == u * Dot(e1, Cross(d, e2))
    ensures Dot(d, Cross(s, e1)) == v * Dot(e1, Cross(d, e2))
    ensures Dot(e2, Cross(s, e1)) == t * Dot(e1, Cross(d, e2))
  {
    var det := Dot(e1, Cross(d, e2));
    // u: the d and e2 parts vanish against cross(d, e2).
    CrossOrthogonal(d, e2);
    DotSymmetric(Cross(d, e2), d);
    DotSymmetric(Cross(d, e2), e2);
    DotLinearCombination(e1, e2, d, u, v, t, Cross(d, e2));
    // v: d.(s x e1) == s.(e1 x d), and only the e2 part survives.
    TripleCyclic(d, s, e1);
    CrossOrthogonal(e1, d);
    DotSymmetric(Cross(e1, d), e1);
    DotSymmetric(Cross(e1, d), d);
    DotLinearCombination(e1, e2, d, u, v, t, Cross(e1, d));
    TripleCyclic(e2, e1, d);
    TripleCyclic(e1, d, e2);
    // t: e2.(s x e1) == s.(e1 x e2), and only the d part survives.
    TripleCyclic(e2, s, e1);
    CrossOrthogonal(e1, e2);
    DotSymmetric(Cross(e1, e2), e1);
    DotSymmetric(Cross(e1, e2), e2);
    DotLinearCombination(e1, e2, d, u, v, t, Cross(e1, e2));
    TripleCyclic(d, e1, e2);
    TripleSwap(e1, e2, d);
  }

  lemma DotLinearCombination(e1: Vec3, e2: Vec3, d: Vec3, u: real, v: real, t: real, x: Vec3)
    ensures Dot(Sub(Add(Scale(u, e1), Scale(v, e2)), Scale(t, d)), x)
         == u * Dot(e1, x) + v * Dot(e2, x) - t * Dot(d, x)
  {
  }

  /** The scalar triple product is invariant under cyclic rotation. */
  lemma TripleCyclic(a: Vec3, b: Vec3, c: Vec3)
    ensures Dot(a, Cross(b, c)) == Dot(b, Cross(c, a))
  {
  }

  /** Swapping the factors of the cross product negates the triple product. */
  lemma TripleSwap(a: Vec3, b: Vec3, c: Vec3)
    ensures Dot(a, Cross(b, c)) == -Dot(a, Cross(c, b))
  {
  }

  // --------------------------------------------------------------- spheres

  predicate OnSphere(center: Vec3, radius: real, p: Vec3) {
    Dot(Sub(p, center), Sub(p, center)) == radius * radius
  }

  /** The coefficients of `qa*t^2 + qb*t + qc`, the quadratic whose roots
      are the ray parameters at which the ray meets the sphere. */
  datatype Quadratic = Quadratic(qa: real, qb: real, qc: real)

  function RayQuadratic(center: Vec3, radius: real, org: Vec3, dir: Vec3): Quadratic {
    var oc := Sub(org, center);
    Quadratic(Dot(dir, dir), 2.0 * Dot(dir, oc), Dot(oc, oc) - radius * radius)
  }

  function Discriminant(q: Quadratic): real { q.qb * q.qb - 4.0 * q.qa * q.qc }

  function Eval(q: Quadratic, x: real): real { q.qa * x * x + q.qb * x + q.qc }

  /** The root selection at the end of Sphere.intersect. */
  function PickRoot(t1: real, t2: real): (t: real)
    ensures t == -1.0 || (0.0 <= t && (t == t1 || t == t2))
  {
    if t1 < 0.0 && t2 < 0.0 then -1.0
    else if t1 < 0.0 then t2
    else if t2 < 0.0 then t1
    else Min(t1, t2)
  }

  /** The picked root is no larger than any non-negative root. */
  lemma PickRootNearest(t1: real, t2: real, x: real)
    requires 0.0 <= x && (x == t1 || x == t2)
    ensures PickRoot(t1, t2) != -1.0 && PickRoot(t1, t2) <= x
  {
  }

  /** Sphere.intersect: a root of the ray's quadratic, or -1. A direction of
      zero length, for which numpy divides by zero, is a miss. */
  function SphereIntersect(m: Numerics, center: Vec3, radius: real, org: Vec3, dir: Vec3): (t: real)
    ensures t == -1.0 || 0.0 <= t
  {
    var q := RayQuadratic(center, radius, org, dir);
    var disc := Discriminant(q);
    if disc < 0.0 then -1.0
    else if q.qa == 0.0 then -1.0
    else
      var t1 := (-q.qb + m.sqrt(disc)) / (2.0 * q.qa);
      var t2 := (-q.qb - m.sqrt(disc)) / (2.0 * q.qa);
      PickRoot(t1, t2)
  }

  /** The sphere's quadratic, evaluated at x, is the squared distance of the
      ray's point from the centre less the squared radius. */
  lemma SphereQuadratic(center: Vec3, radius: real, org: Vec3, dir: Vec3, x: real)
    ensures OnSphere(center, radius, PointAt(org, dir, x))
        <==> Eval(RayQuadratic(center, radius, org, dir), x) == 0.0
  {
    var oc := Sub(org, center);
    var p := Sub(PointAt(org, dir, x), center);
    assert p == Add(oc, Scale(x, dir));
    DotExpand(oc, dir, x);
    ShiftZero(Dot(p, p), radius * radius, Eval(RayQuadratic(center, radius, org, dir), x));
  }

  lemma ShiftZero(p: real, r: real, e: real)
    requires e == p - r
    ensures p == r <==> e == 0.0
  {
  }

  /** `|o + x*d|^2 == |d|^2 x^2 + 2 (d.o) x + |o|^2`. */
  lemma DotExpand(o: Vec3, d: Vec3, x: real)
    ensures Dot(Add(o, Scale(x, d)), Add(o, Scale(x, d))) == Dot(d, d) * x * x + 2.0 * Dot(d, o) * x + Dot(o, o)
  {
    SquareExpand(o.x, d.x, x);
    SquareExpand(o.y, d.y, x);
    SquareExpand(o.z, d.z, x);
  }

  lemma SquareExpand(a: real, b: real, x: real)
    ensures (a + x * b) * (a + x * b) == b * b * x * x + 2.0 * b * a * x + a * a
  {
  }

  lemma ProductZero(p: real, q: real)
    ensures p * q == 0.0 <==> p == 0.0 || q == 0.0
  {
  }

  /** With a non-negative discriminant the quadratic's roots are exactly the two
      values of the quadratic formula. */
  lemma QuadraticRoots(q: Quadratic, sq: real, x: real)
    requires 0.0 < q.qa && 0.0 <= sq && sq * sq == Discriminant(q)
    ensures Eval(q, x) == 0.0
        <==> x == (-q.qb + sq) / (2.0 * q.qa) || x == (-q.qb - sq) / (2.0 * q.qa)
  {
    ScalarRoots(q.qa, q.qb, q.qc, sq, x);
  }

  lemma ScalarRoots(a: real, b: real, c: real, sq: real, x: real)
    requires 0.0 < a && 0.0 <= sq && sq * sq == b * b - 4.0 * a * c
    ensures a * x * x + b * x + c == 0.0 <==> x == (-b + sq) / (2.0 * a) || x == (-b - sq) / (2.0 * a)
  {
    var e := a * x * x + b * x + c;
    var p := 2.0 * a * x + b - sq;
    var q := 2.0 * a * x + b + sq;
    CompleteSquare(a, b, c, sq, x);
    LinearRoot(a, b, sq, x);
    LinearRootPlus(a, b, sq, x);
    RootsOfProduct(e, p, q, (-b + sq) / (2.0 * a), (-b - sq) / (2.0 * a), x, 4.0 * a);
  }

  /** `k*e == p*q` with `k != 0`: `e` vanishes exactly where one factor does. */
  lemma RootsOfProduct(e: real, p: real, q: real, r1: real, r2: real, x: real, k: real)
    requires k != 0.0 && k * e == p * q
    requires p == 0.0 <==> x == r1
    requires q == 0.0 <==> x == r2
    ensures e == 0.0 <==> x == r1 || x == r2
  {
    ProductZero(k, e);
    ProductZero(p, q);
  }

  lemma CompleteSquare(a: real, b: real, c: real, sq: real, x: real)
    requires sq * sq == b * b - 4.0 * a * c
    ensures 4.0 * a * (a * x * x + b * x + c) == (2.0 * a * x + b - sq) * (2.0 * a * x + b + sq)
  {
  }

  /** `2ax + b + r == 0` exactly at `x == (-b - r) / 2a`. */
  lemma LinearRootPlus(a: real, b: real, r: real, x: real)
    requires 0.0 < a
    ensures 2.0 * a * x + b + r == 0.0 <==> x == (-b - r) / (2.0 * a)
  {
    var z := (-b - r) / (2.0 * a);
    assert 2.0 * a * z == -b - r;
    if 2.0 * a * x + b + r == 0.0 {
      assert 2.0 * a * x == 2.0 * a * z;
    }
  }

  /** `2ax + b - r == 0` exactly at `x == (-b + r) / 2a`. */
  lemma LinearRoot(a: real, b: real, r: real, x: real)
    requires 0.0 < a
    ensures 2.0 * a * x + b - r == 0.0 <==> x == (-b + r) / (2.0 * a)
  {
    var z := (-b + r) / (2.0 * a);
    assert 2.0 * a * z == -b + r;
    if 2.0 * a * x + b - r == 0.0 {
      assert 2.0 * a * x == 2.0 * a * z;
    }
  }

  /** With a negative discriminant the quadratic has no real root. */
  lemma QuadraticNoRoot(q: Quadratic, x: real)
    requires 0.0 < q.qa && Discriminant(q) < 0.0
    ensures Eval(q, x) > 0.0
  {
    var y := 2.0 * q.qa * x + q.qb;
    assert 4.0 * q.qa * Eval(q, x) == y * y - Discriminant(q);
    assert 0.0 <= y * y;
  }

  /** Sphere.intersect returns -1 exactly when no point at a non-negative ray
      parameter lies on the sphere, and otherwise the smallest such parameter. */
  lemma SphereIntersectNearest(m: Numerics, center: Vec3, radius: real, org: Vec3, dir: Vec3)
    requires IsSqrt(m.sqrt) && 0.0 < Dot(dir, dir)
    ensures var t := SphereIntersect(m, center, radius, org, dir);
      && (t != -1.0 ==> 0.0 <= t && OnSphere(center, radius, PointAt(org, dir, t)))
      && (forall x :: 0.0 <= x && OnSphere(center, radius, PointAt(org, dir, x)) ==> t != -1.0 && t <= x)
  {
    var t := SphereIntersect(m, center, radius, org, dir);
    var q := RayQuadratic(center, radius, org, dir);
    var disc := Discriminant(q);
    if disc < 0.0 {
      forall x | 0.0 <= x
        ensures !OnSphere(center, radius, PointAt(org, dir, x))
      {
        SphereQuadratic(center, radius, org, dir, x);
        QuadraticNoRoot(q, x);
      }
    } else {
      var sq := m.sqrt(disc);
      var t1 := (-q.qb + sq) / (2.0 * q.qa);
      var t2 := (-q.qb - sq) / (2.0 * q.qa);
      assert t == PickRoot(t1, t2);
      if t != -1.0 {
        SphereQuadratic(center, radius, org, dir, t);
        QuadraticRoots(q, sq, t);
      }
      forall x | 0.0 <= x && OnSphere(center, radius, PointAt(org, dir, x))
        ensures t != -1.0 && t <= x
      {
        SphereQuadratic(center, radius, org, dir, x);
        QuadraticRoots(q, sq, x);
        PickRootNearest(t1, t2, x);
      }
    }
  }

  // --------------------------------------------------------------- normals

  /** Sphere.getNormal(p): the offset from the centre divided by the radius. */
  function SphereNormal(center: Vec3, radius: real, p: Vec3): Vec3
    requires radius != 0.0
  {
    Scale(1.0 / radius, Sub(p, center))
  }

  /** Triangle.getNormal(): the normalised cross product of the two edges. */
  function TriangleNormal(m: Numerics, a: Vec3, b: Vec3, c: Vec3): Vec3 {
    Normalize(m, Cross(Sub(b, a), Sub(c, a)))
  }

  /** At a point on the sphere, the sphere's normal has unit length. */
  lemma SphereNormalUnit(center: Vec3, radius: real, p: Vec3)
    requires radius != 0.0 && OnSphere(center, radius, p)
    ensures Dot(SphereNormal(center, radius, p), SphereNormal(center, radius, p)) == 1.0
  {
    var k := 1.0 / radius;
    var v := Sub(p, center);
    DotScaleLeft(k, v, Scale(k, v));
    DotScaleRight(k, v, v);
    assert k * k * (radius * radius) == 1.0;
  }

  /** The triangle's normal is orthogonal to both edges, and of unit length when
      the triangle is not degenerate. */
  lemma TriangleNormalProperties(m: Numerics, a: Vec3, b: Vec3, c: Vec3)
    ensures Dot(TriangleNormal(m, a, b, c), Sub(b, a)) == 0.0
    ensures Dot(TriangleNormal(m, a, b, c), Sub(c, a)) == 0.0
    ensures IsSqrt(m.sqrt) && 0.0 < Dot(Cross(Sub(b, a), Sub(c, a)), Cross(Sub(b, a), Sub(c, a)))
      ==> Dot(TriangleNormal(m, a, b, c), TriangleNormal(m, a, b, c)) == 1.0
  {
    var n := Cross(Sub(b, a), Sub(c, a));
    NormalizeIsScaling(m, n);
    CrossOrthogonal(Sub(b, a), Sub(c, a));
    DotScaleLeft(NormalizeFactor(m, n), n, Sub(b, a));
    DotScaleLeft(NormalizeFactor(m, n), n, Sub(c, a));
    if IsSqrt(m.sqrt) && 0.0 < Dot(n, n) {
      NormalizeUnit(m, n);
    }
  }

  // ------------------------------------------------------- the shape object

  /** The intersection test of any shape. A bare myshape always misses. */
  function GeometryIntersect(m: Numerics, g: Geometry, org: Vec3, dir: Vec3): (t: real)
    ensures g.Base? ==> t == -1.0
    ensures t == -1.0 || 0.0 <= t || g.Plane?
  {
    match g
    case Base => -1.0
    case Plane(normal, d) => PlaneIntersect(normal, d, org, dir)
    case Triangle(a, b, c) => TriangleIntersect(a, b, c, org, dir)
    case Sphere(center, radius) => SphereIntersect(m, center, radius, org, dir)
  }

  /** The shapes phong.py can shade: those with a normal query. A bare myshape
      has none, and a sphere's normal divides by its radius. */
  predicate Shadeable(g: Geometry) {
    match g
    case Base => false
    case Sphere(_, radius) => radius != 0.0
    case _ => true
  }

  /** The argument-free getNormal() of planes and triangles. */
  function ConstantNormal(m: Numerics, g: Geometry): Vec3
    requires g.Plane? || g.Triangle?
  {
    if g.Plane? then g.normal else TriangleNormal(m, g.a, g.b, g.c)
  }

  /** A myshape object, whose setters update its fields in place. */
  class Shape {
    var diffuse: Vec3
    var specular: Vec3
    var gloss: nat
    var refl: real
    var kd: real
    var ks: real
    var ka: real
    var geom: Geometry

    /** The value of the object as the tracer reads it. */
    function Snapshot(): Primitive
      reads this
    {
      Primitive(geom, Material(diffuse, specular, gloss, refl, kd, ks, ka))
    }

    constructor (geom: Geometry, diffuse: Vec3, specular: Vec3, gloss: nat,
                 refl: real, kd: real, ks: real, ka: real)
      ensures Snapshot() == Primitive(geom, Material(diffuse, specular, gloss, refl, kd, ks, ka))
    {
      this.geom := geom;
      this.diffuse := diffuse;
      this.specular := specular;
      this.gloss := gloss;
      this.refl := refl;
      this.kd := kd;
      this.ks := ks;
      this.ka := ka;
    }

    method SetDiffuse(r: real, g: real, b: real)
      modifies this
      ensures Snapshot() == old(Snapshot()).(mat := old(Snapshot()).mat.(diffuse := Vec3(r, g, b)))
    {
      diffuse := Vec3(r, g, b);
    }

    function GetDiffuse(): (c: Vec3)
      reads this
      ensures c == Snapshot().mat.diffuse
    {
      diffuse
    }

    method SetSpecular(r: real, g: real, b: real)
      modifies this
      ensures Snapshot() == old(Snapshot()).(mat := old(Snapshot()).mat.(specular := Vec3(r, g, b)))
    {
      specular := Vec3(r, g, b);
    }

    function GetSpecular(): (c: Vec3)
      reads this
      ensures c == Snapshot().mat.specular
    {
      specular
    }

    method SetGloss(c: nat)
      modifies this
      ensures Snapshot() == old(Snapshot()).(mat := old(Snapshot()).mat.(gloss := c))
    {
      gloss := c;
    }

    function GetGloss(): (c: nat)
      reads this
      ensures c == Snapshot().mat.gloss
    {
      gloss
    }

    method SetKd(c: real)
      modifies this
      ensures Snapshot() == old(Snapshot()).(mat := old(Snapshot()).mat.(kd := c))
    {
      kd := c;
    }

    function GetKd(): (c: real)
      reads this
      ensures c == Snapshot().mat.kd
    {
      kd
    }

    method SetKs(c: real)
      modifies this
      ensures Snapshot() == old(Snapshot()).(mat := old(Snapshot()).mat.(ks := c))
    {
      ks := c;
    }

    function GetKs(): (c: real)
      reads this
      ensures c == Snapshot().mat.ks
    {
      ks
    }

    method SetKa(c: real)
      modifies this
      ensures Snapshot() == old(Snapshot()).(mat := old(Snapshot()).mat.(ka := c))
    {
      ka := c;
    }

    function GetKa(): (c: real)
      reads this
      ensures c == Snapshot().mat.ka
    {
      ka
    }

    method SetRefl(c: real)
      modifies this
      ensures Snapshot() == old(Snapshot()).(mat := old(Snapshot()).mat.(refl := c))
    {
      refl := c;
    }

    function GetRefl(): (c: real)
      reads this
      ensures c == Snapshot().mat.refl
    {
      refl
    }

    /** myshape.intersect and its overrides: the test of this shape's geometry. */
    function Intersect(m: Numerics, org: Vec3, dir: Vec3): (t: real)
      reads this
      ensures t == GeometryIntersect(m, Snapshot().geom, org, dir)
      ensures geom.Base? ==> t == -1.0
    {
      GeometryIntersect(m, geom, org, dir)
    }

    method SetNormal(normal: Vec3)
      requires geom.Plane?
      modifies this
      ensures Snapshot() == old(Snapshot()).(geom := old(geom).(normal := normal))
    {
      geom := geom.(normal := normal);
    }

    method SetD(d: real)
      requires geom.Plane?
      modifies this
      ensures Snapshot() == old(Snapshot()).(geom := old(geom).(d := d))
    {
      geom := geom.(d := d);
    }

    method SetA(a: Vec3)
      requires geom.Triangle?
      modifies this
      ensures Snapshot() == old(Snapshot()).(geom := old(geom).(a := a))
    {
      geom := geom.(a := a);
    }

    method SetB(b: Vec3)
      requires geom.Triangle?
      modifies this
      ensures Snapshot() == old(Snapshot()).(geom := old(geom).(b := b))
    {
      geom := geom.(b := b);
    }

    method SetC(c: Vec3)
      requires geom.Triangle?
      modifies this
      ensures Snapshot() == old(Snapshot()).(geom := old(geom).(c := c))
    {
      geom := geom.(c := c);
    }

    method SetCenter(center: Vec3)
      requires geom.Sphere?
      modifies this
      ensures Snapshot() == old(Snapshot()).(geom := old(geom).(center := center))
    {
      geom := geom.(center := center);
    }

    method SetRadius(radius: real)
      requires geom.Sphere?
      modifies this
      ensures Snapshot() == old(Snapshot()).(geom := old(geom).(radius := radius))
    {
      geom := geom.(radius := radius);
    }
  }
}
