/** The Whitted tracer of rt_w_recursion.py: the nearest-hit query cast_ray,
    the depth-bounded reflection recursion and the per-pixel image loop. */
module Tracer {
  import opened Vectors
  import opened Shapes
  import opened Phong

  datatype Option<T> = None | Some(value: T)

  // ---------------------------------------------------------------------
  // cast_ray: the nearest-hit scan
  // ---------------------------------------------------------------------

  /** Object `j` takes part in the scan and is hit in front of the origin:
      it is not the excluded object and its intersection value is positive.
      Objects are identified by their position in the scene list, which is
      what Python's identity comparison `x != closest_obj` distinguishes. */
  predicate Counts<O>(objects: seq<O>, hit: O -> real, ex: Option<nat>, j: nat)
    requires j < |objects|
  {
    Some(j) != ex && hit(objects[j]) > 0.0
  }

  /** `k` is the first object among the first `n` whose positive hit value is
      smallest: no counted object is nearer, and every counted object before
      it is strictly farther. */
  predicate IsFirstNearest<O>(objects: seq<O>, hit: O -> real, ex: Option<nat>, n: nat, k: nat)
    requires n <= |objects|
  {
    && k < n
    && Counts(objects, hit, ex, k)
    && (forall j :: 0 <= j < n && Counts(objects, hit, ex, j) ==> hit(objects[k]) <= hit(objects[j]))
    && (forall j :: 0 <= j < k && Counts(objects, hit, ex, j) ==> hit(objects[k]) < hit(objects[j]))
  }

  /** The object the scan has chosen after looking at the first `n` objects. */
  function NearestUpTo<O>(objects: seq<O>, hit: O -> real, ex: Option<nat>, n: nat): (r: Option<nat>)
    requires n <= |objects|
    ensures r.None? <==> forall j :: 0 <= j < n ==> !Counts(objects, hit, ex, j)
    ensures r.Some? ==> IsFirstNearest(objects, hit, ex, n, r.value)
  {
    if n == 0 then None
    else
      var r := NearestUpTo(objects, hit, ex, n - 1);
      if !Counts(objects, hit, ex, n - 1) then r
      else if r.None? then Some(n - 1)
      else if hit(objects[n - 1]) < hit(objects[r.value]) then Some(n - 1)
      else r
  }

  /** What cast_ray returns: the smallest positive hit value and the object
      attaining it, or the sentinel -1 and no object. */
  datatype CastResult = CastResult(t: real, obj: Option<nat>)

  function Nearest<O>(objects: seq<O>, hit: O -> real, ex: Option<nat>): (r: CastResult)
    ensures r.obj.None? <==> forall j :: 0 <= j < |objects| ==> !Counts(objects, hit, ex, j)
    ensures r.obj.None? ==> r.t == -1.0
    ensures r.obj.Some? ==> IsFirstNearest(objects, hit, ex, |objects|, r.obj.value)
                            && r.t == hit(objects[r.obj.value])
    ensures 0.0 < r.t <==> r.obj.Some?
  {
    var c := NearestUpTo(objects, hit, ex, |objects|);
    if c.None? then CastResult(-1.0, None) else CastResult(hit(objects[c.value]), c)
  }

  /** The first nearest object is unique, so the properties of `Nearest`
      determine its result. */
  lemma FirstNearestUnique<O>(objects: seq<O>, hit: O -> real, ex: Option<nat>, n: nat, k1: nat, k2: nat)
    requires n <= |objects|
    requires IsFirstNearest(objects, hit, ex, n, k1) && IsFirstNearest(objects, hit, ex, n, k2)
    ensures k1 == k2
  {
  }

  /** Ties go to the earliest object: of two counted objects with the same hit
      value, the later one is never returned. */
  lemma TieGoesToEarliest<O>(objects: seq<O>, hit: O -> real, ex: Option<nat>, i: nat, j: nat)
    requires i < j < |objects|
    requires Counts(objects, hit, ex, i) && Counts(objects, hit, ex, j)
    requires hit(objects[i]) == hit(objects[j])
    ensures Nearest(objects, hit, ex).obj != Some(j)
  {
  }

  /** Excluding an object that is not in the list is the same as excluding
      nothing: the two branches of cast_ray agree. */
  lemma NothingExcluded<O>(objects: seq<O>, hit: O -> real, k: nat)
    requires |objects| <= k
    ensures Nearest(objects, hit, Some(k)) == Nearest(objects, hit, None)
  {
    var a := Nearest(objects, hit, Some(k));
    var b := Nearest(objects, hit, None);
    assert forall j :: 0 <= j < |objects| ==> (Counts(objects, hit, Some(k), j) <==> Counts(objects, hit, None, j));
    if a.obj.Some? {
      assert IsFirstNearest(objects, hit, None, |objects|, a.obj.value);
      FirstNearestUnique(objects, hit, None, |objects|, a.obj.value, b.obj.value);
    }
  }

  /** Excluding an object other than the nearest one leaves the answer as it
      was: exclusion only matters for the object that would win. */
  lemma ExcludingALoser<O>(objects: seq<O>, hit: O -> real, k: nat)
    requires Nearest(objects, hit, None).obj.Some?
    requires Nearest(objects, hit, None).obj.value != k
    ensures Nearest(objects, hit, Some(k)) == Nearest(objects, hit, None)
  {
    var w := Nearest(objects, hit, None).obj.value;
    assert forall j :: 0 <= j < |objects| && Counts(objects, hit, Some(k), j) ==> Counts(objects, hit, None, j);
    assert IsFirstNearest(objects, hit, Some(k), |objects|, w);
    var a := Nearest(objects, hit, Some(k));
    FirstNearestUnique(objects, hit, Some(k), |objects|, a.obj.value, w);
  }

  /** cast_ray(r0, rd, closest_obj): one scan over the scene. A `Some`
      exclusion is the object that casts the ray; `None` casts from the
      camera. `closest` is the list the source appends each new minimum to,
      starting from the sentinel; its last entry is the answer. */
  method CastRay<O>(objects: seq<O>, hit: O -> real, ex: Option<nat>) returns (tmin: real, closest: Option<nat>)
    ensures CastResult(tmin, closest) == Nearest(objects, hit, ex)
    ensures closest.None? ==> tmin == -1.0
    ensures closest.Some? ==> IsFirstNearest(objects, hit, ex, |objects|, closest.value)
                              && tmin == hit(objects[closest.value])
  {
    tmin := -1.0;
    var first := true;
    var found: seq<Option<nat>> := [None];
    for k := 0 to |objects|
      invariant 0 < |found|
      invariant found[|found| - 1] == NearestUpTo(objects, hit, ex, k)
      invariant first <==> found[|found| - 1].None?
      invariant first ==> tmin == -1.0
      invariant !first ==> tmin == hit(objects[found[|found| - 1].value])
    {
      if Some(k) != ex {
        var t := hit(objects[k]);
        if t > 0.0 {
          if first {
            tmin := t;
            found := found + [Some(k)];
            first := false;
          } else if t < tmin {
            tmin := t;
            found := found + [Some(k)];
          }
        }
      }
    }
    closest := found[|found| - 1];
  }

  // ---------------------------------------------------------------------
  // The scene and the geometric casts
  // ---------------------------------------------------------------------

  /** The light dictionary of the scene file. */
  datatype Light = Light(toLight: Vec3, color: Vec3, ambient: Vec3, background: Vec3)

  /** The scene objects (in the order the loader lists them) and the light. */
  datatype Scene = Scene(objects: seq<Primitive>, light: Light)

  /** `lhat`: the unit direction to the light. */
  function LightDir(m: Numerics, light: Light): Vec3 { Normalize(m, light.toLight) }

  /** `camb`: the ambient light times the light colour. */
  function AmbientColor(light: Light): Vec3 { Mul(light.ambient, light.color) }

  /** `obj.intersect(org, dir)` as a function of the object. */
  function HitsAlong(m: Numerics, org: Vec3, dir: Vec3): Primitive -> real {
    (o: Primitive) => GeometryIntersect(m, o.geom, org, dir)
  }

  /** cast_ray against the scene's geometry. */
  function Cast(m: Numerics, objects: seq<Primitive>, org: Vec3, dir: Vec3, ex: Option<nat>): (r: CastResult)
    ensures r.obj.None? ==> r.t == -1.0
    ensures r.obj.Some? ==> && r.obj.value < |objects|
                            && Some(r.obj.value) != ex
                            && r.t == GeometryIntersect(m, objects[r.obj.value].geom, org, dir)
    ensures 0.0 < r.t <==> r.obj.Some?
  {
    Nearest(objects, HitsAlong(m, org, dir), ex)
  }

  /** Every object can be shaded: it has a normal, and a sphere's normal does
      not divide by a zero radius. */
  predicate AllShadeable(objects: seq<Primitive>) {
    forall k :: 0 <= k < |objects| ==> Shadeable(objects[k].geom)
  }

  // ---------------------------------------------------------------------
  // reflection_rays
  // ---------------------------------------------------------------------

  /** The local part of one reflection_rays level: the diffuse term with the
      unit normal, the specular term, and the mirror direction `rehat`. */
  datatype Shading = Shading(cdiff: Vec3, nhat: Vec3, cspec: Vec3, rehat: Vec3)

  /** Every colour of the scene and every material weight is non-negative. */
  predicate NonNegScene(sc: Scene) {
    && NonNeg(sc.light.color) && NonNeg(sc.light.ambient) && NonNeg(sc.light.background)
    && forall k :: 0 <= k < |sc.objects| ==>
         NonNeg(sc.objects[k].mat.diffuse) && NonNeg(sc.objects[k].mat.specular) && NonNegWeights(sc.objects[k].mat)
  }

  function Shade(m: Numerics, sc: Scene, rd: Vec3, p: Vec3, k: nat): (sh: Shading)
    requires k < |sc.objects| && AllShadeable(sc.objects)
    ensures NonNegScene(sc) ==> NonNeg(sh.cdiff) && NonNeg(sh.cspec)
  {
    var obj := sc.objects[k];
    var lhat := LightDir(m, sc.light);
    var s := sc.light.color;
    var vhat := Normalize(m, Neg(rd));
    var dn := Diffuse(m, p, obj, lhat, s);
    var cspec := Specular(vhat, dn.1, obj, lhat, s);
    var rehat := Reflect(vhat, dn.1);
    Shading(dn.0, dn.1, cspec, rehat)
  }

  /** reflection_rays(r_d, p, closest_obj, depth), for the object at position
      `k`. The recursive call passes the source's own arguments: the original
      `r_d`, and the scalar `t_min` in place of the hit point, which numpy
      broadcasts to the point `(t_min, t_min, t_min)`. */
  function ReflectionRays(m: Numerics, sc: Scene, rd: Vec3, p: Vec3, k: nat, depth: nat): Vec3
    requires k < |sc.objects| && AllShadeable(sc.objects)
    decreases depth
  {
    var sh := Shade(m, sc, rd, p, k);
    var h := Cast(m, sc.objects, p, sh.rehat, Some(k));
    var crefl :=
      if 0.0 < h.t then
        if 0 < depth then ReflectionRays(m, sc, rd, Splat(h.t), h.obj.value, depth - 1)
        else sc.objects[h.obj.value].mat.diffuse
      else sc.light.background;
    FinalColor(sh.cspec, sh.cdiff, crefl, sc.objects[k], AmbientColor(sc.light))
  }

  /** The three outcomes of a level: every level is the current object's
      composite colour, whose reflected colour is the background on a miss,
      the struck object's raw diffuse colour at depth 0, and otherwise the
      next level; the reflected ray never strikes the object it leaves. */
  lemma ReflectionOutcomes(m: Numerics, sc: Scene, rd: Vec3, p: Vec3, k: nat, depth: nat)
    requires k < |sc.objects| && AllShadeable(sc.objects)
    ensures var sh := Shade(m, sc, rd, p, k);
            var h := Cast(m, sc.objects, p, sh.rehat, Some(k));
            var c := ReflectionRays(m, sc, rd, p, k, depth);
            var local := (crefl: Vec3) => FinalColor(sh.cspec, sh.cdiff, crefl, sc.objects[k], AmbientColor(sc.light));
            && h.obj != Some(k)
            && (h.obj.None? ==> c == local(sc.light.background))
            && (h.obj.Some? && depth == 0 ==> c == local(sc.objects[h.obj.value].mat.diffuse))
            && (h.obj.Some? && 0 < depth ==> c == local(ReflectionRays(m, sc, rd, Splat(h.t), h.obj.value, depth - 1)))
  {
  }

  /** The number of nested reflection_rays calls one call of `ReflectionRays`
      makes, itself included: it follows the same branch as `ReflectionRays`
      and recurses exactly where it does. */
  function Levels(m: Numerics, sc: Scene, rd: Vec3, p: Vec3, k: nat, depth: nat): (n: nat)
    requires k < |sc.objects| && AllShadeable(sc.objects)
    ensures 1 <= n <= depth + 1
    decreases depth
  {
    var sh := Shade(m, sc, rd, p, k);
    var h := Cast(m, sc.objects, p, sh.rehat, Some(k));
    if 0.0 < h.t && 0 < depth then 1 + Levels(m, sc, rd, Splat(h.t), h.obj.value, depth - 1) else 1
  }

  /** When the recursion ends on a miss before the depth bound (fewer than
      `depth + 1` levels), a larger bound does not change the colour: the
      bound matters only for reflection paths at least that long. */
  lemma {:induction false} DepthBeyondLevels(m: Numerics, sc: Scene, rd: Vec3, p: Vec3, k: nat, depth: nat)
    requires k < |sc.objects| && AllShadeable(sc.objects)
    requires Levels(m, sc, rd, p, k, depth) <= depth
    ensures ReflectionRays(m, sc, rd, p, k, depth + 1) == ReflectionRays(m, sc, rd, p, k, depth)
    decreases depth
  {
    var sh := Shade(m, sc, rd, p, k);
    var h := Cast(m, sc.objects, p, sh.rehat, Some(k));
    if 0.0 < h.t {
      DepthBeyondLevels(m, sc, rd, Splat(h.t), h.obj.value, depth - 1);
    }
  }

  /** With non-negative colours and weights the traced colour is
      non-negative at every depth. */
  lemma {:induction false} ReflectionNonNeg(m: Numerics, sc: Scene, rd: Vec3, p: Vec3, k: nat, depth: nat)
    requires k < |sc.objects| && AllShadeable(sc.objects) && NonNegScene(sc)
    ensures NonNeg(ReflectionRays(m, sc, rd, p, k, depth))
    decreases depth
  {
    var sh := Shade(m, sc, rd, p, k);
    var h := Cast(m, sc.objects, p, sh.rehat, Some(k));
    var crefl :=
      if 0.0 < h.t then
        if 0 < depth then ReflectionRays(m, sc, rd, Splat(h.t), h.obj.value, depth - 1)
        else sc.objects[h.obj.value].mat.diffuse
      else sc.light.background;
    if 0.0 < h.t && 0 < depth {
      ReflectionNonNeg(m, sc, rd, Splat(h.t), h.obj.value, depth - 1);
    }
    AmbientNonNeg(sc.light);
    FinalColorNonNeg(sh.cspec, sh.cdiff, crefl, sc.objects[k], AmbientColor(sc.light));
  }

  lemma AmbientNonNeg(light: Light)
    requires NonNeg(light.ambient) && NonNeg(light.color)
    ensures NonNeg(AmbientColor(light))
  {
    var a := light.ambient;
    var c := light.color;
    assert 0.0 <= a.x * c.x && 0.0 <= a.y * c.y && 0.0 <= a.z * c.z;
  }

  /** A non-reflective object is shaded locally: its colour is the composite
      with no reflected contribution, so the depth does not matter. */
  lemma NonReflectiveIsLocal(m: Numerics, sc: Scene, rd: Vec3, p: Vec3, k: nat, depth: nat)
    requires k < |sc.objects| && AllShadeable(sc.objects)
    requires sc.objects[k].mat.refl == 0.0
    ensures var sh := Shade(m, sc, rd, p, k);
            ReflectionRays(m, sc, rd, p, k, depth) == FinalColor(sh.cspec, sh.cdiff, Zero, sc.objects[k], AmbientColor(sc.light))
  {
    var sh := Shade(m, sc, rd, p, k);
    var h := Cast(m, sc.objects, p, sh.rehat, Some(k));
    var crefl :=
      if 0.0 < h.t then
        if 0 < depth then ReflectionRays(m, sc, rd, Splat(h.t), h.obj.value, depth - 1)
        else sc.objects[h.obj.value].mat.diffuse
      else sc.light.background;
    FinalColorReflection(sh.cspec, sh.cdiff, crefl, Zero, sc.objects[k], AmbientColor(sc.light));
  }

  // ---------------------------------------------------------------------
  // generate_image
  // ---------------------------------------------------------------------

  /** `recursive_depth`. */
  const RecursiveDepth: nat := 64

  /** The colour generate_image gives the pixel of primary direction `rd`:
      the background when the primary ray misses, the raw ambient light when
      the shadow ray (which leaves out the struck object) is blocked, and the
      reflection recursion at depth 64 otherwise. */
  function PixelColor(m: Numerics, sc: Scene, r0: Vec3, rd: Vec3): Vec3
    requires AllShadeable(sc.objects)
  {
    var h := Cast(m, sc.objects, r0, rd, None);
    if h.t < 0.0 then sc.light.background
    else
      var p := PointAt(r0, rd, h.t);
      var shadow := Cast(m, sc.objects, p, LightDir(m, sc.light), h.obj);
      if 0.0 < shadow.t then sc.light.ambient
      else ReflectionRays(m, sc, rd, p, h.obj.value, RecursiveDepth)
  }

  /** The classification of a pixel: background exactly when the primary ray
      hits nothing, the ambient light when the struck point is in shadow, and
      otherwise the struck object's shading. */
  lemma PixelCases(m: Numerics, sc: Scene, r0: Vec3, rd: Vec3)
    requires AllShadeable(sc.objects)
    ensures var h := Cast(m, sc.objects, r0, rd, None);
            h.obj.None? <==> forall j :: 0 <= j < |sc.objects| ==> GeometryIntersect(m, sc.objects[j].geom, r0, rd) <= 0.0
    ensures Cast(m, sc.objects, r0, rd, None).obj.None? ==> PixelColor(m, sc, r0, rd) == sc.light.background
    ensures var h := Cast(m, sc.objects, r0, rd, None);
            h.obj.Some? ==>
              var p := PointAt(r0, rd, h.t);
              var shadow := Cast(m, sc.objects, p, LightDir(m, sc.light), h.obj);
              var c := PixelColor(m, sc, r0, rd);
              && shadow.obj != h.obj
              && (shadow.obj.Some? ==> c == sc.light.ambient)
              && (shadow.obj.None? ==> c == ReflectionRays(m, sc, rd, p, h.obj.value, RecursiveDepth))
  {
    var hit := HitsAlong(m, r0, rd);
    assert forall j :: 0 <= j < |sc.objects| ==>
      (Counts(sc.objects, hit, None, j) <==> GeometryIntersect(m, sc.objects[j].geom, r0, rd) > 0.0);
  }

  /** With non-negative colours and weights every pixel is non-negative. */
  lemma PixelNonNeg(m: Numerics, sc: Scene, r0: Vec3, rd: Vec3)
    requires AllShadeable(sc.objects) && NonNegScene(sc)
    ensures NonNeg(PixelColor(m, sc, r0, rd))
  {
    var h := Cast(m, sc.objects, r0, rd, None);
    if 0.0 <= h.t {
      var p := PointAt(r0, rd, h.t);
      ReflectionNonNeg(m, sc, rd, p, h.obj.value, RecursiveDepth);
    }
  }

  /** An empty scene renders as the background everywhere. */
  lemma EmptySceneIsBackground(m: Numerics, sc: Scene, r0: Vec3, rd: Vec3)
    requires |sc.objects| == 0
    ensures PixelColor(m, sc, r0, rd) == sc.light.background
  {
  }

  /** The body of generate_image's inner loop for one primary direction:
      the primary cast, then the shadow cast from the struck point, then the
      reflection recursion. */
  method TracePixel(m: Numerics, sc: Scene, r0: Vec3, rd: Vec3, lhat: Vec3) returns (c: Vec3)
    requires AllShadeable(sc.objects) && lhat == LightDir(m, sc.light)
    ensures c == PixelColor(m, sc, r0, rd)
  {
    var tmin, closest := CastRay(sc.objects, HitsAlong(m, r0, rd), None);
    if tmin < 0.0 {
      c := sc.light.background;
    } else {
      var p := PointAt(r0, rd, tmin);
      var tshadow, temp := CastRay(sc.objects, HitsAlong(m, p, lhat), closest);
      if tshadow > 0.0 {
        c := sc.light.ambient;
      } else {
        c := ReflectionRays(m, sc, rd, p, closest.value, RecursiveDepth);
      }
    }
  }

  /** generate_image(): walks the ray grid row by row and writes pixel row
      `rows-1-r` from grid row `r`, with the counters `i` (falling) and `j`. */
  method GenerateImage(m: Numerics, sc: Scene, r0: Vec3, rdmatrix: array2<Vec3>) returns (pixels: array2<Vec3>)
    requires AllShadeable(sc.objects)
    ensures fresh(pixels)
    ensures pixels.Length0 == rdmatrix.Length0 && pixels.Length1 == rdmatrix.Length1
    ensures forall r, c :: 0 <= r < rdmatrix.Length0 && 0 <= c < rdmatrix.Length1 ==>
              pixels[rdmatrix.Length0 - 1 - r, c] == PixelColor(m, sc, r0, rdmatrix[r, c])
  {
    pixels := new Vec3[rdmatrix.Length0, rdmatrix.Length1]((_, _) => Zero);
    var lhat := LightDir(m, sc.light);
    var i := rdmatrix.Length0 - 1;
    var j := 0;
    for r := 0 to rdmatrix.Length0
      invariant i == rdmatrix.Length0 - 1 - r && j == 0
      invariant forall r', c :: 0 <= r' < r && 0 <= c < rdmatrix.Length1 ==>
                  pixels[rdmatrix.Length0 - 1 - r', c] == PixelColor(m, sc, r0, rdmatrix[r', c])
    {
      for c := 0 to rdmatrix.Length1
        invariant j == c
        invariant forall r', c' :: 0 <= r' < r && 0 <= c' < rdmatrix.Length1 ==>
                    pixels[rdmatrix.Length0 - 1 - r', c'] == PixelColor(m, sc, r0, rdmatrix[r', c'])
        invariant forall c' :: 0 <= c' < c ==> pixels[i, c'] == PixelColor(m, sc, r0, rdmatrix[r, c'])
      {
        pixels[i, j] := TracePixel(m, sc, r0, rdmatrix[r, c], lhat);
        j := j + 1;
      }
      i := i - 1;
      j := 0;
    }
  }
}
