/** The parts of load.py the tracer depends on: the order of the object list
    and generate_rays, which builds the camera basis and the viewing window
    and fills the grid of primary ray directions. */
module Load {
  import opened Vectors
  import opened Shapes
  import opened Tracer

  // ---------------------------------------------------------------------
  // The object list
  // ---------------------------------------------------------------------

  /** `objects = spheres + triangles + planes`. */
  function SceneObjects(spheres: seq<Primitive>, triangles: seq<Primitive>, planes: seq<Primitive>): (objs: seq<Primitive>)
    ensures |objs| == |spheres| + |triangles| + |planes|
    ensures forall i :: 0 <= i < |spheres| ==> objs[i] == spheres[i]
    ensures forall i :: 0 <= i < |triangles| ==> objs[|spheres| + i] == triangles[i]
    ensures forall i :: 0 <= i < |planes| ==> objs[|spheres| + |triangles| + i] == planes[i]
  {
    spheres + triangles + planes
  }

  /** The loader's order decides cast_ray's ties: a sphere and a triangle (or
      a triangle and a plane) at the same positive distance, the later kind
      is never the answer. */
  lemma LoadOrderBreaksTies(m: Numerics, spheres: seq<Primitive>, triangles: seq<Primitive>, planes: seq<Primitive>,
                            org: Vec3, dir: Vec3, i: nat, j: nat)
    requires i < |spheres| && j < |triangles|
    requires 0.0 < GeometryIntersect(m, spheres[i].geom, org, dir) == GeometryIntersect(m, triangles[j].geom, org, dir)
    ensures Cast(m, SceneObjects(spheres, triangles, planes), org, dir, None).obj != Some(|spheres| + j)
  {
    var objs := SceneObjects(spheres, triangles, planes);
    TieGoesToEarliest(objs, HitsAlong(m, org, dir), None, i, |spheres| + j);
  }

  lemma LoadOrderBreaksTiesPlanes(m: Numerics, spheres: seq<Primitive>, triangles: seq<Primitive>, planes: seq<Primitive>,
                                  org: Vec3, dir: Vec3, i: nat, j: nat)
    requires i < |triangles| && j < |planes|
    requires 0.0 < GeometryIntersect(m, triangles[i].geom, org, dir) == GeometryIntersect(m, planes[j].geom, org, dir)
    ensures Cast(m, SceneObjects(spheres, triangles, planes), org, dir, None).obj != Some(|spheres| + |triangles| + j)
  {
    var objs := SceneObjects(spheres, triangles, planes);
    TieGoesToEarliest(objs, HitsAlong(m, org, dir), None, |spheres| + i, |spheres| + |triangles| + j);
  }

  // ---------------------------------------------------------------------
  // The camera basis
  // ---------------------------------------------------------------------

  /** The camera dictionary. `fov` is in degrees. */
  datatype Camera = Camera(lookAt: Vec3, lookFrom: Vec3, up: Vec3, fov: real)

  datatype Basis = Basis(e1: Vec3, e2: Vec3, e3: Vec3)

  /** The Gram-Schmidt step: `e3` along the viewing direction, `e1` across it
      and `up`, `e2` across `e1` and `e3`, each normalised. */
  function ViewBasis(m: Numerics, cam: Camera): Basis {
    var e3 := Normalize(m, Sub(cam.lookAt, cam.lookFrom));
    var e1 := Normalize(m, Cross(e3, cam.up));
    var e2 := Normalize(m, Cross(e1, e3));
    Basis(e1, e2, e3)
  }

  /** The basis vectors are pairwise orthogonal whatever the norm returns: the
      cross products are orthogonal before normalisation, and normalising
      only scales them. */
  lemma BasisOrthogonal(m: Numerics, cam: Camera)
    ensures var b := ViewBasis(m, cam);
            Dot(b.e1, b.e3) == 0.0 && Dot(b.e2, b.e1) == 0.0 && Dot(b.e2, b.e3) == 0.0
  {
    var e3 := Normalize(m, Sub(cam.lookAt, cam.lookFrom));
    var c1 := Cross(e3, cam.up);
    var e1 := Normalize(m, c1);
    var c2 := Cross(e1, e3);
    var e2 := Normalize(m, c2);
    CrossOrthogonal(e3, cam.up);
    CrossOrthogonal(e1, e3);
    NormalizeIsScaling(m, c1);
    NormalizeIsScaling(m, c2);
    DotScaleLeft(NormalizeFactor(m, c1), c1, e3);
    DotScaleLeft(NormalizeFactor(m, c2), c2, e1);
    DotScaleLeft(NormalizeFactor(m, c2), c2, e3);
  }

  /** With a true square root, a camera that does not look at its own position
      and whose up vector is not along the viewing direction gets an
      orthonormal basis. */
  lemma BasisOrthonormal(m: Numerics, cam: Camera)
    requires IsSqrt(m.sqrt)
    requires 0.0 < Dot(Sub(cam.lookAt, cam.lookFrom), Sub(cam.lookAt, cam.lookFrom))
    requires var e3 := Normalize(m, Sub(cam.lookAt, cam.lookFrom));
             0.0 < Dot(Cross(e3, cam.up), Cross(e3, cam.up))
    ensures var b := ViewBasis(m, cam);
            && Dot(b.e1, b.e1) == 1.0 && Dot(b.e2, b.e2) == 1.0 && Dot(b.e3, b.e3) == 1.0
            && Dot(b.e1, b.e3) == 0.0 && Dot(b.e2, b.e1) == 0.0 && Dot(b.e2, b.e3) == 0.0
            && b.e2 == Cross(b.e1, b.e3)
  {
    var e3 := Normalize(m, Sub(cam.lookAt, cam.lookFrom));
    var e1 := Normalize(m, Cross(e3, cam.up));
    NormalizeUnit(m, Sub(cam.lookAt, cam.lookFrom));
    NormalizeUnit(m, Cross(e3, cam.up));
    BasisOrthogonal(m, cam);
    CrossLength(e1, e3);
    assert Dot(Cross(e1, e3), Cross(e1, e3)) == 1.0;
    NormalizeOfUnit(m, Cross(e1, e3));
  }

  // ---------------------------------------------------------------------
  // The viewing window
  // ---------------------------------------------------------------------

  datatype Window = Window(uMax: real, vMax: real, uMin: real, vMin: real, distU: real, distV: real)

  /** `np.deg2rad`. */
  function Deg2Rad(m: Numerics, deg: real): real { deg * m.pi / 180.0 }

  /** The window at the look-at distance and the pixel spacing. */
  function ViewWindow(m: Numerics, cam: Camera, resw: nat, resh: nat): Window {
    var fovx := Deg2Rad(m, cam.fov);
    var fovy := Deg2Rad(m, cam.fov);
    var dist := Norm(m, Sub(cam.lookAt, cam.lookFrom));
    var uMax := dist * m.tan(fovx / 2.0);
    var vMax := dist * m.tan(fovy / 2.0);
    var uMin := -uMax;
    var vMin := -vMax;
    Window(uMax, vMax, uMin, vMin, (uMax - uMin) / (resw as real + 1.0), (vMax - vMin) / (resh as real + 1.0))
  }

  /** The window is symmetric about the look-at point, equally wide in both
      directions (one field of view serves both), and its spacing divides it
      into `resw + 1` and `resh + 1` steps. */
  lemma WindowShape(m: Numerics, cam: Camera, resw: nat, resh: nat)
    ensures var w := ViewWindow(m, cam, resw, resh);
            && w.uMin == -w.uMax && w.vMin == -w.vMax
            && w.uMax == w.vMax
            && w.distU * (resw as real + 1.0) == 2.0 * w.uMax
            && w.distV * (resh as real + 1.0) == 2.0 * w.vMax
  {
  }

  /** The point `s` on the view plane for loop indices `i` and `j`, given
      the basis and the window. As in the source, `j` (which runs over the
      height) scales `e1` with the horizontal spacing, and `i` (which runs over
      the width) scales `e2` with the vertical one. */
  function ViewPoint(cam: Camera, b: Basis, w: Window, i: int, j: int): Vec3 {
    PlanePoint(cam.lookAt, b.e1, b.e2, w.distU * (j as real + 0.5), w.distV * (i as real + 0.5))
  }

  /** The point `o + u*e1 + v*e2` of the plane spanned at `o`. */
  function PlanePoint(o: Vec3, e1: Vec3, e2: Vec3, u: real, v: real): Vec3 {
    Add(Add(o, Scale(u, e1)), Scale(v, e2))
  }

  /** Opposite offsets give points symmetric about `o`. */
  lemma PlanePointsMirror(o: Vec3, e1: Vec3, e2: Vec3, u: real, v: real)
    ensures Add(PlanePoint(o, e1, e2, u, v), PlanePoint(o, e1, e2, -u, -v)) == Scale(2.0, o)
  {
  }

  /** `rd`: the unit direction from the eye through the view point. */
  function RayDirection(m: Numerics, cam: Camera, b: Basis, w: Window, i: int, j: int): Vec3 {
    Normalize(m, Sub(ViewPoint(cam, b, w, i, j), cam.lookFrom))
  }

  /** A view point at a positive distance from the eye gives a unit ray
      direction. */
  lemma RayDirectionUnit(m: Numerics, cam: Camera, b: Basis, w: Window, i: int, j: int)
    requires IsSqrt(m.sqrt)
    requires var d := Sub(ViewPoint(cam, b, w, i, j), cam.lookFrom); 0.0 < Dot(d, d)
    ensures Dot(RayDirection(m, cam, b, w, i, j), RayDirection(m, cam, b, w, i, j)) == 1.0
  {
    NormalizeUnit(m, Sub(ViewPoint(cam, b, w, i, j), cam.lookFrom));
  }

  /** The view points of slots `(a, c)` and `(2*w_range-1-a, 2*h_range-1-c)`
      lie symmetrically about the look-at point: their loop indices `i, j` are
      `-1-i, -1-j`, so the offsets `(j+0.5)` and `(i+0.5)` change sign. */
  lemma ViewPointsMirror(cam: Camera, b: Basis, w: Window, resw: nat, resh: nat, a: int, c: int)
    ensures var wr := resw / 2;
            var hr := resh / 2;
            Add(ViewPoint(cam, b, w, a - wr, c - hr),
                ViewPoint(cam, b, w, (2 * wr - 1 - a) - wr, (2 * hr - 1 - c) - hr))
            == Scale(2.0, cam.lookAt)
  {
    var wr := resw / 2;
    var hr := resh / 2;
    var i := a - wr;
    var j := c - hr;
    assert (2 * wr - 1 - a) - wr == -1 - i;
    assert (2 * hr - 1 - c) - hr == -1 - j;
    var u := w.distU * (j as real + 0.5);
    var v := w.distV * (i as real + 0.5);
    assert w.distU * ((-1 - j) as real + 0.5) == -u;
    assert w.distV * ((-1 - i) as real + 0.5) == -v;
    PlanePointsMirror(cam.lookAt, b.e1, b.e2, u, v);
  }

  /** An offset `d*(k+0.5)` with `k` in `[-half, half)` stays inside
      `[-mx, mx]` when the spacing `d` divides `2*mx` into `res+1` steps and
      `2*half <= res + 1`. */
  lemma OffsetInside(d: real, mx: real, res: nat, half: nat, k: int)
    requires d * (res as real + 1.0) == 2.0 * mx && 0.0 <= mx
    requires 2 * half <= res + 1 && -(half as int) <= k < half
    ensures -mx <= d * (k as real + 0.5) <= mx
  {
    var n := res as real + 1.0;
    var o := k as real + 0.5;
    assert -n / 2.0 <= o <= n / 2.0;
    assert d * o <= d * (n / 2.0);
    assert d * (-n / 2.0) <= d * o;
  }

  /** On a square image every view point lies inside the window. */
  lemma SquareImageInsideWindow(m: Numerics, cam: Camera, res: nat, i: int, j: int)
    requires 0.0 <= ViewWindow(m, cam, res, res).uMax
    requires -(res / 2) <= i < res / 2 && -(res / 2) <= j < res / 2
    ensures var w := ViewWindow(m, cam, res, res);
            && w.uMin <= w.distU * (j as real + 0.5) <= w.uMax
            && w.vMin <= w.distV * (i as real + 0.5) <= w.vMax
  {
    var w := ViewWindow(m, cam, res, res);
    WindowShape(m, cam, res, res);
    OffsetInside(w.distU, w.uMax, res, res / 2, j);
    OffsetInside(w.distV, w.vMax, res, res / 2, i);
  }

  /** On a tall image the horizontal offset leaves the window: with width 2 and
      height 8 the first column's `j = -4` gives `-3.5 * dist_u`, beyond
      `u_min`. */
  lemma TallImageLeavesWindow(m: Numerics, cam: Camera)
    requires 0.0 < ViewWindow(m, cam, 2, 8).uMax
    ensures var w := ViewWindow(m, cam, 2, 8);
            w.distU * ((-4) as real + 0.5) < w.uMin
  {
    WindowShape(m, cam, 2, 8);
  }

  // ---------------------------------------------------------------------
  // generate_rays
  // ---------------------------------------------------------------------

  /** generate_rays(camera, resw, resh): the basis and the window, then the
      loop that fills the grid. */
  method GenerateRays(m: Numerics, cam: Camera, resw: nat, resh: nat) returns (rd: array2<Vec3>, ghost written: seq<(int, int)>)
    ensures fresh(rd) && rd.Length0 == resw && rd.Length1 == resh
    ensures forall a, b :: 0 <= a < 2 * (resw / 2) && 0 <= b < 2 * (resh / 2) ==>
              rd[a, b] == RayDirection(m, cam, ViewBasis(m, cam), ViewWindow(m, cam, resw, resh), a - resw / 2, b - resh / 2)
    ensures forall q :: q in written <==> 0 <= q.0 < 2 * (resw / 2) && 0 <= q.1 < 2 * (resh / 2)
    ensures forall x, y :: 0 <= x < y < |written| ==> written[x] != written[y]
    ensures resw % 2 == 0 && resh % 2 == 0 ==> forall a, b :: 0 <= a < resw && 0 <= b < resh ==> (a, b) in written
    ensures resw % 2 == 1 ==> forall q :: q in written ==> q.0 != resw - 1
    ensures resh % 2 == 1 ==> forall q :: q in written ==> q.1 != resh - 1
  {
    var basis := ViewBasis(m, cam);
    var w := ViewWindow(m, cam, resw, resh);
    rd, written := FillRays(m, cam, basis, w, resw, resh);
  }

  /** The populating loop of generate_rays: for `i` in `[-w_range, w_range)`
      and `j` in `[-h_range, h_range)` it stores the ray direction of `(i, j)`
      in slot `[i + w_range][j + h_range]`. `written` lists the slots in the
      order they are stored; every slot is stored at most once. */
  method FillRays(m: Numerics, cam: Camera, basis: Basis, w: Window, resw: nat, resh: nat)
    returns (rd: array2<Vec3>, ghost written: seq<(int, int)>)
    ensures fresh(rd) && rd.Length0 == resw && rd.Length1 == resh
    ensures forall a, b :: 0 <= a < 2 * (resw / 2) && 0 <= b < 2 * (resh / 2) ==>
              rd[a, b] == RayDirection(m, cam, basis, w, a - resw / 2, b - resh / 2)
    ensures forall q :: q in written <==> 0 <= q.0 < 2 * (resw / 2) && 0 <= q.1 < 2 * (resh / 2)
    ensures forall x, y :: 0 <= x < y < |written| ==> written[x] != written[y]
  {
    var r0 := cam.lookFrom;
    var pat := cam.lookAt;
    rd := new Vec3[resw, resh]((_, _) => Zero);
    written := [];
    var wr := resw / 2;
    var hr := resh / 2;
    for i := -wr to wr
      invariant forall q :: q in written <==> 0 <= q.0 < i + wr && 0 <= q.1 < 2 * hr
      invariant forall x, y :: 0 <= x < y < |written| ==> written[x] != written[y]
      invariant forall a, b :: 0 <= a < i + wr && 0 <= b < 2 * hr ==>
                  rd[a, b] == RayDirection(m, cam, basis, w, a - wr, b - hr)
    {
      for j := -hr to hr
        invariant forall q :: q in written <==>
                    (0 <= q.0 < i + wr && 0 <= q.1 < 2 * hr) || (q.0 == i + wr && 0 <= q.1 < j + hr)
        invariant forall x, y :: 0 <= x < y < |written| ==> written[x] != written[y]
        invariant forall a, b :: (0 <= a < i + wr && 0 <= b < 2 * hr) || (a == i + wr && 0 <= b < j + hr) ==>
                    rd[a, b] == RayDirection(m, cam, basis, w, a - wr, b - hr)
      {
        var s := PlanePoint(pat, basis.e1, basis.e2, w.distU * (j as real + 0.5), w.distV * (i as real + 0.5));
        var dir := Normalize(m, Sub(s, r0));
        assert s == ViewPoint(cam, basis, w, i, j);
        assert dir == RayDirection(m, cam, basis, w, i, j);
        rd[i + wr, j + hr] := dir;
        written := written + [(i + wr, j + hr)];
      }
    }
  }
}
