/** Three-component real vectors: the one shape the tracer uses for points,
    directions and RGB colours alike, with the numpy operations it relies on. */
module Vectors {

  datatype Vec3 = Vec3(x: real, y: real, z: real)

  const Zero: Vec3 := Vec3(0.0, 0.0, 0.0)

  function Add(a: Vec3, b: Vec3): Vec3 { Vec3(a.x + b.x, a.y + b.y, a.z + b.z) }

  function Sub(a: Vec3, b: Vec3): Vec3 { Vec3(a.x - b.x, a.y - b.y, a.z - b.z) }

  function Neg(a: Vec3): Vec3 { Vec3(-a.x, -a.y, -a.z) }

  function Scale(k: real, a: Vec3): Vec3 { Vec3(k * a.x, k * a.y, k * a.z) }

  /** numpy's `*` on two arrays: the component-wise (colour) product. */
  function Mul(a: Vec3, b: Vec3): Vec3 { Vec3(a.x * b.x, a.y * b.y, a.z * b.z) }

  /** What a numpy scalar turns into when it is broadcast against a 3-vector. */
  function Splat(s: real): Vec3 { Vec3(s, s, s) }

  /** `np.sum(a * b)`. */
  function Dot(a: Vec3, b: Vec3): real { a.x * b.x + a.y * b.y + a.z * b.z }

  /** `np.cross(a, b)`. */
  function Cross(a: Vec3, b: Vec3): Vec3 {
    Vec3(a.y * b.z - a.z * b.y, a.z * b.x - a.x * b.z, a.x * b.y - a.y * b.x)
  }

  /** The point `org + t*dir` of a ray. */
  function PointAt(org: Vec3, dir: Vec3, t: real): Vec3 { Add(org, Scale(t, dir)) }

  predicate NonNeg(a: Vec3) { 0.0 <= a.x && 0.0 <= a.y && 0.0 <= a.z }

  function Abs(x: real): real { if x < 0.0 then -x else x }

  function Min(a: real, b: real): real { if a <= b then a else b }

  /** The transcendental functions the tracer calls (`np.sqrt`, `np.tan`, and
      pi inside `np.deg2rad`); nothing but `IsSqrt` is assumed about them. */
  datatype Numerics = Numerics(sqrt: real -> real, tan: real -> real, pi: real)

  /** `sqrt` is the non-negative square root on the non-negative reals. */
  ghost predicate IsSqrt(sqrt: real -> real) {
    forall x :: 0.0 <= x ==> 0.0 <= sqrt(x) && sqrt(x) * sqrt(x) == x
  }

  /** `np.linalg.norm(v)`. */
  function Norm(m: Numerics, v: Vec3): real { m.sqrt(Dot(v, v)) }

  /** `v / np.linalg.norm(v)`. A zero norm gives NaN in numpy; here the vector
      is returned unscaled. */
  function Normalize(m: Numerics, v: Vec3): Vec3 {
    var n := Norm(m, v);
    if n == 0.0 then v else Scale(1.0 / n, v)
  }

  /** The factor by which `Normalize` scales its argument. */
  function NormalizeFactor(m: Numerics, v: Vec3): real {
    var n := Norm(m, v);
    if n == 0.0 then 1.0 else 1.0 / n
  }

  lemma NormalizeIsScaling(m: Numerics, v: Vec3)
    ensures Normalize(m, v) == Scale(NormalizeFactor(m, v), v)
  {
  }

  lemma DotScaleLeft(k: real, a: Vec3, b: Vec3)
    ensures Dot(Scale(k, a), b) == k * Dot(a, b)
  {
  }

  lemma DotScaleRight(k: real, a: Vec3, b: Vec3)
    ensures Dot(a, Scale(k, b)) == k * Dot(a, b)
  {
  }

  lemma DotSymmetric(a: Vec3, b: Vec3)
    ensures Dot(a, b) == Dot(b, a)
  {
  }

  /** Scaling by a non-negative factor keeps a vector non-negative. */
  lemma ScaleNonNeg(k: real, v: Vec3)
    ensures 0.0 <= k && NonNeg(v) ==> NonNeg(Scale(k, v))
  {
    if 0.0 <= k && NonNeg(v) {
      assert 0.0 <= k * v.x && 0.0 <= k * v.y && 0.0 <= k * v.z;
    }
  }

  /** The component-wise product of non-negative vectors is non-negative. */
  lemma MulNonNeg(a: Vec3, b: Vec3)
    ensures NonNeg(a) && NonNeg(b) ==> NonNeg(Mul(a, b))
  {
    if NonNeg(a) && NonNeg(b) {
      assert 0.0 <= a.x * b.x && 0.0 <= a.y * b.y && 0.0 <= a.z * b.z;
    }
  }

  /** The cross product is orthogonal to both of its factors. */
  lemma CrossOrthogonal(a: Vec3, b: Vec3)
    ensures Dot(Cross(a, b), a) == 0.0 && Dot(Cross(a, b), b) == 0.0
  {
  }

  /** Lagrange's identity: |a x b|^2 == |a|^2 |b|^2 - (a.b)^2. */
  lemma CrossLength(a: Vec3, b: Vec3)
    ensures Dot(Cross(a, b), Cross(a, b)) == Dot(a, a) * Dot(b, b) - Dot(a, b) * Dot(a, b)
  {
  }

  /** A normalised vector of non-zero length has unit squared length. */
  lemma NormalizeUnit(m: Numerics, v: Vec3)
    requires IsSqrt(m.sqrt) && 0.0 < Dot(v, v)
    ensures Dot(Normalize(m, v), Normalize(m, v)) == 1.0
  {
    var d := Dot(v, v);
    var n := m.sqrt(d);
    assert 0.0 <= n && n * n == d;
    assert n != 0.0;
    var k := 1.0 / n;
    assert k * k * d == 1.0;
    calc {
      Dot(Normalize(m, v), Normalize(m, v));
      Dot(Scale(k, v), Scale(k, v));
      { DotScaleLeft(k, v, Scale(k, v)); DotScaleRight(k, v, v); }
      k * (k * d);
    }
  }

  /** Normalising a unit vector leaves it unchanged. */
  lemma NormalizeOfUnit(m: Numerics, v: Vec3)
    requires IsSqrt(m.sqrt) && Dot(v, v) == 1.0
    ensures Normalize(m, v) == v
  {
    var n := m.sqrt(1.0);
    assert 0.0 <= n && n * n == 1.0;
    assert (n - 1.0) * (n + 1.0) == 0.0;
    assert n + 1.0 != 0.0;
    assert n - 1.0 == 0.0;
  }
}
