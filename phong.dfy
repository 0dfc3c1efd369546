/** The local shading of phong.py: the clamped Lambert (diffuse) term, the
    Phong (specular) term and the weighted composite colour. */
module Phong {
  import opened Vectors
  import opened Shapes

  /** The clamp `if dot_product < 0: dot_product = 0`. */
  function ClampNonNeg(x: real): (r: real)
    ensures 0.0 <= r && (0.0 <= x ==> r == x)
    ensures x < 0.0 ==> r == 0.0
  {
    if x < 0.0 then 0.0 else x
  }

  /** `x ** n` for the gloss exponent; `0 ** 0` is 1, as in Python. */
  function Pow(x: real, n: nat): (r: real)
    ensures 0.0 <= x ==> 0.0 <= r
    ensures x == 0.0 && 0 < n ==> r == 0.0
    ensures x == 0.0 && n == 0 ==> r == 1.0
  {
    if n == 0 then 1.0 else x * Pow(x, n - 1)
  }

  /** `2*dot(l, n)*n - l`: the mirror image of l about n. */
  function Reflect(l: Vec3, n: Vec3): Vec3 {
    Sub(Scale(2.0 * Dot(l, n), n), l)
  }

  /** About a unit normal, the reflected vector makes the same angle with the
      normal as the original and has the same length. */
  lemma ReflectPreservesAngle(l: Vec3, n: Vec3)
    requires Dot(n, n) == 1.0
    ensures Dot(Reflect(l, n), n) == Dot(l, n)
    ensures Dot(Reflect(l, n), Reflect(l, n)) == Dot(l, l)
  {
    var k := 2.0 * Dot(l, n);
    assert Dot(Reflect(l, n), n) == k * Dot(n, n) - Dot(l, n);
    assert Dot(Reflect(l, n), Reflect(l, n)) == k * k * Dot(n, n) - 2.0 * k * Dot(l, n) + Dot(l, l);
  }

  /** The normal used to shade `obj` at `p`: the point-dependent one for a
      sphere, the shape's constant getNormal() otherwise. */
  function ShadingNormal(m: Numerics, p: Vec3, obj: Primitive): Vec3
    requires Shadeable(obj.geom)
  {
    if obj.geom.Sphere? then SphereNormal(obj.geom.center, obj.geom.radius, p)
    else ConstantNormal(m, obj.geom)
  }

  /** diffuse(p, obj, lhat, s): the Lambert term and the unit normal. */
  function Diffuse(m: Numerics, p: Vec3, obj: Primitive, lhat: Vec3, s: Vec3): (r: (Vec3, Vec3))
    requires Shadeable(obj.geom)
    ensures r.1 == Normalize(m, if obj.geom.Sphere? then SphereNormal(obj.geom.center, obj.geom.radius, p)
                                else ConstantNormal(m, obj.geom))
    ensures Dot(r.1, lhat) <= 0.0 ==> r.0 == Zero
    ensures 0.0 <= Dot(r.1, lhat) ==> r.0 == Scale(Dot(r.1, lhat), Mul(s, obj.mat.diffuse))
    ensures NonNeg(s) && NonNeg(obj.mat.diffuse) ==> NonNeg(r.0)
  {
    var nhat := Normalize(m, ShadingNormal(m, p, obj));
    var lambert := ClampNonNeg(Dot(nhat, lhat));
    MulNonNeg(s, obj.mat.diffuse);
    ScaleNonNeg(lambert, Mul(s, obj.mat.diffuse));
    (Scale(lambert, Mul(s, obj.mat.diffuse)), nhat)
  }

  /** specular(vhat, nhat, obj, lhat, s): the Phong term. */
  function Specular(vhat: Vec3, nhat: Vec3, obj: Primitive, lhat: Vec3, s: Vec3): (cspec: Vec3)
    ensures NonNeg(s) && NonNeg(obj.mat.specular) ==> NonNeg(cspec)
    ensures 0 < obj.mat.gloss && Dot(vhat, Reflect(lhat, nhat)) <= 0.0 ==> cspec == Zero
    ensures obj.mat.gloss == 0 ==> cspec == Mul(s, obj.mat.specular)
    ensures 0.0 <= Dot(vhat, Reflect(lhat, nhat)) ==>
      cspec == Scale(Pow(Dot(vhat, Reflect(lhat, nhat)), obj.mat.gloss), Mul(s, obj.mat.specular))
  {
    var rhat := Reflect(lhat, nhat);
    var phong := ClampNonNeg(Dot(vhat, rhat));
    MulNonNeg(s, obj.mat.specular);
    ScaleNonNeg(Pow(phong, obj.mat.gloss), Mul(s, obj.mat.specular));
    Scale(Pow(phong, obj.mat.gloss), Mul(s, obj.mat.specular))
  }

  /** final_color: the composite `kd*cdiff + ks*cspec + ka*camb + kr*crefl`. */
  function FinalColor(cspec: Vec3, cdiff: Vec3, crefl: Vec3, obj: Primitive, camb: Vec3): (c: Vec3)
    ensures var k := obj.mat;
      && c.x == k.kd * cdiff.x + k.ks * cspec.x + k.ka * camb.x + k.refl * crefl.x
      && c.y == k.kd * cdiff.y + k.ks * cspec.y + k.ka * camb.y + k.refl * crefl.y
      && c.z == k.kd * cdiff.z + k.ks * cspec.z + k.ka * camb.z + k.refl * crefl.z
  {
    var k := obj.mat;
    Add(Add(Add(Scale(k.kd, cdiff), Scale(k.ks, cspec)), Scale(k.ka, camb)), Scale(k.refl, crefl))
  }

  /** The weights a material gives the four terms are all non-negative. */
  predicate NonNegWeights(k: Material) {
    0.0 <= k.kd && 0.0 <= k.ks && 0.0 <= k.ka && 0.0 <= k.refl
  }

  /** The reflected colour enters the composite only through `refl`: two
      reflected colours change the result by `refl` times their difference, so
      a non-reflective shape ignores the reflected colour altogether. */
  lemma FinalColorReflection(cspec: Vec3, cdiff: Vec3, c1: Vec3, c2: Vec3, obj: Primitive, camb: Vec3)
    ensures Sub(FinalColor(cspec, cdiff, c1, obj, camb), FinalColor(cspec, cdiff, c2, obj, camb))
         == Scale(obj.mat.refl, Sub(c1, c2))
    ensures obj.mat.refl == 0.0 ==> FinalColor(cspec, cdiff, c1, obj, camb) == FinalColor(cspec, cdiff, c2, obj, camb)
  {
  }

  /** Non-negative weights and terms give a non-negative colour. */
  lemma FinalColorNonNeg(cspec: Vec3, cdiff: Vec3, crefl: Vec3, obj: Primitive, camb: Vec3)
    requires NonNegWeights(obj.mat)
    requires NonNeg(cspec) && NonNeg(cdiff) && NonNeg(crefl) && NonNeg(camb)
    ensures NonNeg(FinalColor(cspec, cdiff, crefl, obj, camb))
  {
    var k := obj.mat;
    assert 0.0 <= k.kd * cdiff.x && 0.0 <= k.ks * cspec.x && 0.0 <= k.ka * camb.x && 0.0 <= k.refl * crefl.x;
    assert 0.0 <= k.kd * cdiff.y && 0.0 <= k.ks * cspec.y && 0.0 <= k.ka * camb.y && 0.0 <= k.refl * crefl.y;
    assert 0.0 <= k.kd * cdiff.z && 0.0 <= k.ks * cspec.z && 0.0 <= k.ka * camb.z && 0.0 <= k.refl * crefl.z;
  }
}
