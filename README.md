# A verified model of a Whitted ray tracer

The repository renders a scene of spheres, triangles and planes with a
recursive (Whitted) ray tracer. This project models its core in Dafny:

- `vectors.dfy` (module `Vectors`): the three-component vectors that the tracer
  uses for points, directions and RGB colours alike. It also holds the numpy
  operations the tracer relies on: sums, scaling, the component-wise product,
  the dot and cross products, the norm and normalisation.
  - `np.sqrt`, `np.tan` and the `pi` inside `np.deg2rad` are parameters of
    type `Numerics`.
  - The only thing assumed about them is `IsSqrt`, which says `sqrt` is the
    real square root. It is assumed only where a property needs it.
- `shapes.dfy` (module `Shapes`): the shapes of `myshapes.py`.
  - Their material and their geometry are values: `Material`, `Geometry`
    and `Primitive`.
  - Each has its intersection test: the one-sided plane test, the
    Möller–Trumbore triangle test, and the quadratic sphere test with its root
    selection. Each has its surface normal too.
  - The mutable `myshape` object is the class `Shape`. Its setters update the
    fields in place.
  - What is proved:
    - a plane hit lies on the plane, and it is the only parameter that does;
    - a triangle hit is a convex combination of the three corners, and
      conversely a crossing inside the triangle, beyond the tolerances, is
      reported at exactly its parameter;
    - for a non-zero ray direction and a true square root, the sphere test
      returns exactly the nearest non-negative parameter at which the ray
      meets the sphere, or -1 when there is none;
    - the sphere normal has unit length at a point on a sphere of non-zero
      radius, and the triangle normal has unit length for a non-degenerate
      triangle under a true square root.
- `phong.py`, modelled in `phong.dfy` (module `Phong`): the clamped Lambert
  term, the Phong term and the weighted composite colour `final_color`.
- `rt_w_recursion.py`, modelled in `tracer.dfy` (module `Tracer`):
  - `cast_ray` is a loop over the object list. It is proved equal to the
    recursive function `Nearest`, whose contract is declarative: the answer
    is the first strictly nearest positive hit. `FirstNearestUnique` shows
    that this contract determines the answer.
  - Objects are identified by their position in the list. That is what the
    identity comparison `x != closest_obj` distinguishes, since `myshape`
    defines no equality.
  - `reflection_rays` is a recursive function with the source's depth bound.
    Its recursive call passes exactly the arguments the source passes:
    - the original view direction `r_d`;
    - the scalar `t_min` as the new point, which numpy broadcasts to
      `(t_min, t_min, t_min)`.
  - `generate_image` is a nested loop over a two-dimensional array of
    directions. It writes row `rows-1-r` of the picture from grid row `r`.
- `load.py`, modelled in `load.dfy` (module `Load`):
  - the order `spheres + triangles + planes` in which the loader builds the
    object list, and how that order settles ties in `cast_ray`;
  - `generate_rays`: the Gram-Schmidt camera basis, the viewing window, the
    pixel spacing and the nested loop that fills the array of ray directions.

Floating point is modelled by exact reals.

## Model

| member | source | states |
|---|---|---|
| Vectors.CrossOrthogonal | load.py:61-62 | `np.cross(a, b)` is orthogonal to `a` and to `b`, the fact that the Gram-Schmidt step relies on |
| Vectors.CrossLength | load.py:62 | Lagrange's identity for the squared length of a cross product, which makes `cross(e1, e3)` a unit vector when `e1`, `e3` are orthonormal |
| Vectors.NormalizeUnit | phong.py:12 | `v / norm(v)` has unit squared length for every non-zero `v` under a true square root |
| Vectors.NormalizeOfUnit | load.py:62 | normalising a vector that already has unit length leaves it unchanged |
| Shapes.PlaneIntersect | myshapes.py:89-103 | the plane test returns -1 unless the ray runs against the normal by at least the 1e-6 tolerance; otherwise `t` solves `t*(n·dir) == d - n·org` |
| Shapes.PlaneHitOnPlane | myshapes.py:89-103 | on the division path the returned `t` puts `org + t*dir` on the plane `n·p == d`, and no other parameter does |
| Shapes.TriangleIntersect | myshapes.py:144-172 | the result is -1 or exceeds 1e-6; a determinant within the tolerance is a miss; a hit has `0 <= u <= 1`, `v >= 0`, `u + v <= 1` and equals the barycentric `t`; conversely, with the determinant outside the tolerance, barycentrics inside the triangle and `t > 1e-6` give that `t` |
| Shapes.BarySolves | myshapes.py:148-167 | when the determinant is non-zero, the computed `(u, v, t)` solve `org + t*dir == A + u*(B-A) + v*(C-A)` (Cramer's rule behind Möller–Trumbore) |
| Shapes.TriangleHitInside | myshapes.py:144-172 | a triangle hit point is the convex combination `(1-u-v)*A + u*B + v*C` with non-negative weights |
| Shapes.BaryUnique | myshapes.py:148-165 | Cramer's rule read backwards: if `org - A == u*(B-A) + v*(C-A) - t*dir`, the three Möller–Trumbore triple products are `u`, `v` and `t` times the determinant |
| Shapes.TriangleCrossingFound | myshapes.py:144-172 | the converse of `TriangleHitInside`: a ray that meets the triangle at `A + u*(B-A) + v*(C-A)` with `u, v >= 0`, `u + v <= 1`, at a parameter `s > 1e-6`, with the determinant outside the tolerance, gets `TriangleBary == (u, v, s)` and `TriangleIntersect == s` |
| Shapes.PickRoot | myshapes.py:220-227 | the picked root is -1, or a non-negative one of the two roots |
| Shapes.PickRootNearest | myshapes.py:220-227 | the picked root is a hit and no larger than any non-negative root |
| Shapes.SphereIntersect | myshapes.py:205-227 | the sphere test returns -1 or a non-negative parameter, including for a zero direction |
| Shapes.SphereQuadratic | myshapes.py:208-210 | `a*x^2 + b*x + c` built from `a = dir·dir`, `b = 2 dir·(org-center)`, `c = |org-center|^2 - r^2` vanishes exactly when `org + x*dir` lies on the sphere |
| Shapes.QuadraticRoots | myshapes.py:212-218 | with `a > 0` and a square root of the discriminant, the zeros of the quadratic are exactly the two values `t1`, `t2` of the quadratic formula |
| Shapes.QuadraticNoRoot | myshapes.py:212-215 | with `a > 0` and a negative discriminant the quadratic has no zero, so the early -1 loses no hit |
| Shapes.SphereIntersectNearest | myshapes.py:205-227 | for a non-zero direction the test returns -1 exactly when no point at a non-negative parameter lies on the sphere, and otherwise the smallest such parameter, whose point is on the sphere |
| Shapes.SphereNormalUnit | myshapes.py:202-203 | `SphereNormal`, the normal `(p - center)/radius`, has unit length at a point on the sphere |
| Shapes.TriangleNormalProperties | myshapes.py:140-142 | `TriangleNormal` is orthogonal to both edges, and of unit length when the triangle is not degenerate |
| Shapes.GeometryIntersect | myshapes.py:56-58 | the dispatch of `intersect`: a bare myshape always misses (-1), and only a plane can return a negative value other than -1 |
| Shapes.Shape.constructor | myshapes.py:5-12 | the new object holds exactly the given geometry and material |
| Shapes.Shape.SetDiffuse | myshapes.py:14-15 | replaces the diffuse colour by `(r, g, b)` and changes nothing else |
| Shapes.Shape.GetDiffuse | myshapes.py:17-18 | returns the diffuse colour the object holds |
| Shapes.Shape.SetSpecular | myshapes.py:20-21 | replaces the specular colour by `(r, g, b)` and changes nothing else |
| Shapes.Shape.GetSpecular | myshapes.py:23-24 | returns the specular colour the object holds |
| Shapes.Shape.SetGloss | myshapes.py:26-27 | replaces the gloss exponent and changes nothing else |
| Shapes.Shape.GetGloss | myshapes.py:29-30 | returns the gloss exponent the object holds |
| Shapes.Shape.SetKd | myshapes.py:32-33 | replaces the diffuse weight and changes nothing else |
| Shapes.Shape.GetKd | myshapes.py:35-36 | returns the diffuse weight the object holds |
| Shapes.Shape.SetKs | myshapes.py:38-39 | replaces the specular weight and changes nothing else |
| Shapes.Shape.GetKs | myshapes.py:41-42 | returns the specular weight the object holds |
| Shapes.Shape.SetKa | myshapes.py:44-45 | replaces the ambient weight and changes nothing else |
| Shapes.Shape.GetKa | myshapes.py:47-48 | returns the ambient weight the object holds |
| Shapes.Shape.SetRefl | myshapes.py:50-51 | replaces the reflection weight and changes nothing else |
| Shapes.Shape.GetRefl | myshapes.py:53-54 | returns the reflection weight the object holds |
| Shapes.Shape.Intersect | myshapes.py:56-58 | the object's `intersect` is the test of its current geometry; a bare myshape misses |
| Shapes.Shape.SetNormal | myshapes.py:77-78 | replaces a plane's normal and changes nothing else |
| Shapes.Shape.SetD | myshapes.py:83-84 | replaces a plane's distance and changes nothing else |
| Shapes.Shape.SetA | myshapes.py:122-123 | replaces a triangle's first corner and changes nothing else |
| Shapes.Shape.SetB | myshapes.py:128-129 | replaces a triangle's second corner and changes nothing else |
| Shapes.Shape.SetC | myshapes.py:134-135 | replaces a triangle's third corner and changes nothing else |
| Shapes.Shape.SetCenter | myshapes.py:193-194 | replaces a sphere's centre and changes nothing else |
| Shapes.Shape.SetRadius | myshapes.py:199-200 | replaces a sphere's radius and changes nothing else |
| Phong.ClampNonNeg | phong.py:15-16 | a negative input becomes 0 and a non-negative input is kept, so the result is never negative |
| Phong.Pow | phong.py:29 | `x ** n` is non-negative for `x >= 0`; `0 ** n` is 0 for `n > 0` and `0 ** 0` is 1 |
| Phong.ReflectPreservesAngle | phong.py:24 | about a unit normal, `Reflect(l, n)`, which is `2(l·n)n - l`, makes the same angle with the normal as `l` and has the same length |
| Phong.Diffuse | phong.py:4-19 | the normal is the normalised point normal for a sphere and the constant normal otherwise; the term is zero when the light is behind the surface and `(n·l) * (s*mdiff)` when it is in front; non-negative colours give a non-negative term |
| Phong.Specular | phong.py:21-30 | on the lit side (`vhat·rhat >= 0`) the term is `(vhat·rhat)^gloss * (s*mspec)`; non-negative colours give a non-negative term; with a positive exponent it is zero when the view is on the wrong side of the mirror direction; a zero exponent gives `s*mspec` |
| Phong.FinalColor | phong.py:32-37 | each colour channel is `kd*cdiff + ks*cspec + ka*camb + kr*crefl` |
| Phong.FinalColorReflection | phong.py:37 | changing the reflected colour changes the composite by `kr` times the difference, so `kr == 0` makes it irrelevant |
| Phong.FinalColorNonNeg | phong.py:37 | non-negative weights and terms give a non-negative colour |
| Tracer.NearestUpTo | rt_w_recursion.py:33-44 | over the first `n` objects the scan finds nothing exactly when no object counts; otherwise it finds a counting object strictly nearer than every earlier counting one and no farther than any later one |
| Tracer.Nearest | rt_w_recursion.py:23-72 | cast_ray's result: no object exactly when nothing counts, and then `t == -1`; otherwise the first nearest counting object and its `t`; `t > 0` exactly when an object is returned |
| Tracer.FirstNearestUnique | rt_w_recursion.py:42 | at most one object is the first nearest, so the scan's answer is determined |
| Tracer.TieGoesToEarliest | rt_w_recursion.py:42 | because the comparison is strict, of two objects hit at the same positive distance the later one is never returned |
| Tracer.NothingExcluded | rt_w_recursion.py:49-57 | excluding an object outside the list gives the same result as the branch with no exclusion |
| Tracer.ExcludingALoser | rt_w_recursion.py:57-72 | when the scan without exclusion returns some object other than `k`, excluding `k` gives the same result |
| Tracer.CastRay | rt_w_recursion.py:23-72 | the loop with `first`, `tmin` and the growing `closest` list computes the declarative nearest hit, with -1 and no object on a miss |
| Tracer.Cast | rt_w_recursion.py:23-72 | against the scene the returned object is a valid, non-excluded index, its intersection value is the returned `t`, and `t > 0` exactly when an object is returned |
| Tracer.Shade | rt_w_recursion.py:76-80 | in a scene with non-negative colours and weights, the diffuse and specular terms of a level are non-negative |
| Tracer.ReflectionOutcomes | rt_w_recursion.py:75-90 | `ReflectionRays`: each level is the current object's composite; its reflected colour is the background on a miss, the struck object's raw diffuse colour at depth 0, and otherwise the next level, with the source's arguments; the reflected ray never strikes the object it leaves |
| Tracer.Levels | rt_w_recursion.py:82-85 | the number of nested calls a `ReflectionRays` call makes is between 1 and `depth + 1`, so `recursive_depth` bounds the recursion |
| Tracer.DepthBeyondLevels | rt_w_recursion.py:82-90 | `ReflectionRays`: when the recursion ends on a miss before the depth bound (`Levels <= depth`), depth `depth + 1` gives the same colour as `depth` |
| Tracer.ReflectionNonNeg | rt_w_recursion.py:75-90 | `ReflectionRays`: with non-negative colours and weights the traced colour is non-negative at every depth |
| Tracer.NonReflectiveIsLocal | rt_w_recursion.py:85-90 | `ReflectionRays`: for an object with zero reflection weight the result is the local composite, whatever the recursion returns |
| Tracer.PixelCases | rt_w_recursion.py:99-113 | `PixelColor`: a pixel takes the background branch exactly when no object is hit in front of the eye, and is then the background colour; a hit point is in shadow only by another object; then the pixel is the ambient light, and otherwise it is the reflection recursion at depth 64 |
| Tracer.PixelNonNeg | rt_w_recursion.py:99-113 | `PixelColor`: with non-negative colours and weights every pixel is non-negative |
| Tracer.EmptySceneIsBackground | rt_w_recursion.py:100-102 | `PixelColor`: an empty scene renders as the background |
| Tracer.TracePixel | rt_w_recursion.py:99-113 | the two casts and the recursion of one pixel compute the pixel colour |
| Tracer.GenerateImage | rt_w_recursion.py:92-118 | the result has the grid's dimensions, and pixel `(rows-1-r, c)` is the colour of grid direction `(r, c)` |
| Load.SceneObjects | load.py:34 | the object list holds the spheres, then the triangles, then the planes, each in its own order |
| Load.LoadOrderBreaksTies | load.py:34 | a sphere and a triangle hit at the same distance: the triangle is not the answer |
| Load.LoadOrderBreaksTiesPlanes | load.py:34 | a triangle and a plane hit at the same distance: the plane is not the answer |
| Load.BasisOrthogonal | load.py:59-62 | `ViewBasis`: `e1`, `e2`, `e3` are pairwise orthogonal whatever the norm returns |
| Load.BasisOrthonormal | load.py:59-62 | `ViewBasis`: with a true square root, a camera that does not look at its own position and whose up vector is not along the view gets an orthonormal basis, and the last normalisation is a no-op (`e2 == cross(e1, e3)`) |
| Load.WindowShape | load.py:64-74 | `ViewWindow`: the window is symmetric, equally wide in both directions, and the spacing divides it into `resw + 1` (`resh + 1`) steps |
| Load.ViewPointsMirror | load.py:82-88 | `ViewPoint`: the view points of slots `(a, c)` and `(2w-1-a, 2h-1-c)` are symmetric about the look-at point |
| Load.OffsetInside | load.py:73-85 | an offset `d*(k+0.5)` with `k` in `[-half, half)` stays inside the window when the spacing divides it into `res+1` steps and `2*half <= res+1` |
| Load.SquareImageInsideWindow | load.py:65-85 | for a non-negative window half-width `u_max`, on a square image every view point lies inside the window |
| Load.TallImageLeavesWindow | load.py:73-85 | for a positive window half-width `u_max`, on a 2×8 image the column index `j = -4` scaled by the width spacing lands outside the window, because `j` runs over the height |
| Load.RayDirectionUnit | load.py:87 | `RayDirection`: under a true square root, a view point at a positive distance from the eye gives a unit direction |
| Load.GenerateRays | load.py:52-89 | the array is `resw × resh`; each written slot `(i+w, j+h)` holds the normalised direction `RayDirection` from the eye to the view point of `(i, j)`, which is a unit vector by `RayDirectionUnit`; the slots written are exactly `[0, 2w) × [0, 2h)`, each once; even sizes write every slot, and an odd size never writes the last row or column |
| Load.FillRays | load.py:77-88 | the nested loop over `range(-w, w)` and `range(-h, h)` stores each direction at `(i+w, j+h)` and writes exactly those slots, each once |

## Left out

- `loadScene`'s JSON reading is not modelled (load.py:6-50). Only its object order is kept. The camera, the light and the object list are parameters (`Camera`, `Light`, `Scene`).
- The module globals of rt_w_recursion.py are not modelled: the resolution, the file names and the image save. `lhat`, `camb`, `s` and the background are derived from the `Light` parameter.
- `generate_dist_rays` and `generate_dist_image` are not modelled, because the source marks them as not working.
- `__repr__` and `print('got here')` produce I/O only.
- `plt.imsave` and the `__main__` block are not modelled: they are I/O.
- float32, NaN and infinity are not modelled: arithmetic is exact. Three cases where numpy would divide by zero are given a fixed convention instead:
  - Normalising a zero vector returns it unchanged.
  - A zero ray direction misses a sphere (-1). numpy gives NaN there, and `cast_ray` treats NaN as a miss.
  - Shading requires every object to be `Shadeable`. A bare myshape has no `getNormal`, and a zero radius divides by zero.
- `np.sqrt`, `np.tan` and `pi` are parameters. Only the square root has a stated meaning (`IsSqrt`), and it is assumed only where a property needs it.
- Phong.Pow: the gloss exponent is a natural number. Fractional exponents, which Python's `**` would accept, are not modelled.
- Load.GenerateRays: the slots that an odd resolution leaves unwritten start as the zero vector. `np.empty` leaves them undefined.
- Tracer.GenerateImage: the size of the picture is taken from the grid of directions. The source uses the global resolution, which is the same value.
- Degenerate cameras are not rejected. A camera looking at its own position, or with `up` along the view direction, is not refused by the code, so it is not refused here either. `BasisOrthonormal` states when the basis is orthonormal.
- The tracer works on `Primitive` values: the material and geometry that `Shape.Snapshot()` reads off a live object. Aliasing between live shape objects during a render is not modelled, because nothing mutates shapes while rendering.
- The getters for geometry fields (`getNormal` of a plane, `getD`, `getA`, `getB`, `getC`, `getCenter`, `getRadius`) are plain field reads of `Shape.geom`. They are not separate members.
