# Mouse picking on a textured quad

OpenGLPickTest draws a quad made of two triangles. Each time the cursor
moves, it works out which triangle is under the mouse and the texture
coordinate (UV) at that spot, and prints both. This project models the three
routines that do this and proves what they compute.

- `glhUnProjectf` turns a window position and depth back into a point in
  object space. It multiplies by the inverse of projection * view and then
  divides by w. It fails when w is zero.
- `intersectTriangle` intersects a ray with a triangle.
  - It rejects rays parallel to the triangle's plane (|b| < 1e-5).
  - It rejects planes behind the ray's origin.
  - It rejects plane hits outside the closed triangle, tested with the
    parametric coordinates (s, t).
  - Otherwise it writes (s, t) and returns r when `r > 1e-5 || r < lastHitT`,
    and INFINITY_T when that test fails.
- `cursor_position_callback` handles a cursor move.
  - It flips the cursor's y axis and ignores positions outside the window.
  - It builds the pick ray from two points, unprojected at window depths -1
    and 1.
  - It moves each triangle by `worldMat` and intersects it with the ray,
    always passing `lastT = INFINITY_T`. The last triangle that gives a result
    below INFINITY_T is selected.
  - It interpolates the UV from that triangle's vertex UVs.

The modules follow the structure of the program:

- `Linear`: the linmath.h vector and matrix operations the code uses, with
  column-major 4x4 matrices as in linmath.h.
- `Unprojection`: `glhUnProjectf`.
- `RayTriangle`: `intersectTriangle`.
- `Picking`: the vertex and index tables and `cursor_position_callback`.
- `Wrappers`: an `Option` type.

Each routine appears twice in the model:

- as a function stating the result (`UnProject`, `Intersect`, `Pick`);
- as a method that makes the program's steps on arrays (`GlhUnProject`,
  `IntersectTriangle`, `CursorPositionCallback`).

Each method is proved equal to its function, and the properties are proved
about the functions.

Where the code and its own description disagree, the model follows the code:

- The names `lastHitT` (main.cpp:67) and `lastT` (main.cpp:136), and the
  test `r < lastHitT` (main.cpp:116), suggest that the callback keeps the
  nearest hit. It actually keeps the last triangle that registers: `lastT`
  stays INFINITY_T, and the acceptance test is an "or"
  (`LastHitIgnoredBeyondEps`, `LaterTriangleWins`).
  - With `lastT` = INFINITY_T, every r in [0, 1e10) is accepted, including
    r <= 1e-5. The epsilon rejection therefore never takes effect in the
    callback (`RegistersIff`).
  - Both triangles of the quad lie on one plane after any `worldMat`. When
    both register they do so at the same r (`BothRegisterAtSameDistance`),
    so "last" and "nearest" differ only on that tie, which the second
    triangle wins.
- The near point is described as an NDC depth of -1. The callback passes
  window depth -1, which `2z - 1` maps to NDC depth -3. The ray it gives
  still lies under the cursor (`PickRayUnderCursor`).

## Model

| member | source | states |
|---|---|---|
| `Unprojection.GlhUnProject` | main.cpp:40-65 | Returns 1 and writes the unprojected point into objectCoordinate[0..2] exactly when the transformed w is nonzero. Otherwise it returns 0 and the array is unchanged. Entries past index 2 are never touched. |
| `Unprojection.UnProjectRoundTrip` | main.cpp:46-63 | When `invert` really inverts projection * view, the point glhUnProjectf returns projects back through projection * view to the NDC point it was computed from, and from there to the original window position. |
| `Unprojection.UnProjectClip` | main.cpp:57-63 | projection * view maps the returned point to the NDC input scaled by the nonzero reciprocal of w: the same point in homogeneous coordinates. |
| `Unprojection.WindowOfNdc` | main.cpp:52-54 | The window-to-NDC mapping is undone by the viewport mapping, so no window position is lost. |
| `Unprojection.NdcCorners` | main.cpp:52-55 | The window's corners (0, 0) and (winW, winH), and depths 0 and 1, map to the corners -1 and 1 of the NDC cube, with w = 1. |
| `RayTriangle.IntersectTriangle` | main.cpp:67-117 | The returned value is Intersect's hit parameter. coord[0..1] receive (s, t) exactly when Intersect writes them, and are unchanged otherwise. |
| `RayTriangle.ParallelMisses` | main.cpp:79-85 | A ray with abs(n.dir) < 1e-5 gets INFINITY_T and coord is left alone. |
| `RayTriangle.BehindMisses` | main.cpp:88-90 | A plane hit with r < 0 gets INFINITY_T and coord is left alone. |
| `RayTriangle.OutsideMisses` | main.cpp:104-111 | A plane hit whose (s, t) lies outside the closed triangle gets INFINITY_T and coord is left alone. |
| `RayTriangle.CoordWritten` | main.cpp:81-114 | coord is written if and only if the ray is not parallel, r >= 0 and (s, t) lies in the closed triangle. What is written is the hit point's (s, t), and it lies in the triangle. |
| `RayTriangle.HitIsInFront` | main.cpp:81-116 | Any result other than INFINITY_T equals the plane-hit parameter r >= 0, and coordinates inside the triangle have been written. |
| `RayTriangle.AcceptanceRule` | main.cpp:113-116 | Once coord is written, the result is r when r > 1e-5 or r < lastHitT, and INFINITY_T otherwise. |
| `RayTriangle.LastHitIgnoredBeyondEps` | main.cpp:116 | For a non-parallel ray whose r exceeds 1e-5, the whole outcome is the same for every lastHitT: lastHitT never rejects a farther hit. |
| `RayTriangle.RejectedHitStillWritesCoord` | main.cpp:104-116 | A non-parallel plane hit with 0 <= r <= 1e-5 and r >= lastHitT whose (s, t) lies in the closed triangle writes that (s, t) to coord, yet the result is INFINITY_T. |
| `RayTriangle.RayPointOnPlane` | main.cpp:78-94 | For a non-parallel ray, the point orig + r dir lies on the triangle's plane. |
| `RayTriangle.NormalEquations` | main.cpp:95-109 | When D is nonzero, the s and t of any point solve the normal equations w.u = s u.u + t u.v and w.v = s u.v + t v.v. |
| `RayTriangle.HitPointMatchesCoord` | main.cpp:92-114 | Soundness: whenever coord is written, the ray's plane hit orig + r dir is exactly the triangle point V0 + s u + t v named by the written (s, t). |
| `RayTriangle.TrianglePointFound` | main.cpp:92-116 | Completeness: when the plane hit in front of the origin is the triangle point V0 + s u + t v for (s, t) in the closed triangle, intersectTriangle writes exactly (s, t) and returns the acceptance test's result for r. |
| `RayTriangle.NormalLength` | main.cpp:76-102 | The normal u x v has nonzero length whenever D = (u.v)^2 - (u.u)(v.v) is nonzero. |
| `RayTriangle.SolveUnique` | main.cpp:102-109 | The divisions for s and t recover the only solution of the normal equations when D is nonzero. |
| `Linear.MulVecAssociative` | main.cpp:46-57 | Multiplying a vector by a matrix product equals multiplying by the factors right to left. |
| `Linear.RightInverseUndoes` | main.cpp:49-57 | A right inverse of A, applied first, is undone by A for every vector. |
| `Linear.LagrangeIdentity` | main.cpp:76-102 | \|u x v\|^2 = \|u\|^2 \|v\|^2 - (u.v)^2, which ties intersectTriangle's D to the length of its normal. |
| `Linear.OrthogonalToAllIsZero` | main.cpp:74-76 | A vector orthogonal to u, v and a nonzero u x v is the zero vector. |
| `Linear.TripleProduct` | main.cpp:76 | The vector triple product a x (b x c) = b (a.c) - c (a.b). |
| `Linear.Cross3` | main.cpp:76 | The cross product is orthogonal to both of its arguments. |
| `Picking.CornerTable` | main.cpp:24-38 | The six triangle corners read through the index table have the positions and UVs of the vertex table. |
| `Picking.QuadPointCorners` | main.cpp:24-34 | The affine texture map of the quad agrees with the vertex table at all four corners. |
| `Picking.ViewTriangleOf` | main.cpp:141-149 | The inner loop fills viewtri with the triangle's three corners, each moved by worldMat in homogeneous coordinates (w = 1). |
| `Picking.SelectFace` | main.cpp:136-159 | hitIndex is -1 exactly when no triangle registers. Otherwise hitIndex and hitCoord are the last registering triangle and the coordinates it wrote. |
| `Picking.LastHit` | main.cpp:136-159 | A selected triangle is one of those already examined. |
| `Picking.LastHitIsLast` | main.cpp:136-159 | The selection is empty if and only if no triangle registers. Otherwise the selected triangle registers, carries the coordinates it wrote, and no later triangle registers. |
| `Picking.PickRay` | main.cpp:131-133 | orgpos and endpos are the unprojections at window depths -1 and 1, or their previous contents when glhUnProjectf fails. raydir is endpos - orgpos. |
| `Picking.CursorPositionCallback` | main.cpp:119-177 | The callback's outcome is exactly Pick's: outside the window, no hit, or the selected triangle with its coordinates and UV. |
| `Picking.OutsideWindowIff` | main.cpp:123-129 | The callback returns early if and only if the y-flipped cursor lies outside the closed window rectangle. |
| `Picking.PickSelectsLastRegistered` | main.cpp:136-174 | A reported hit lies inside the window and names a registering triangle, with its written coordinates and their interpolated UV, and no later triangle registers. Nothing is reported if and only if the cursor is inside the window and no triangle registers. |
| `Picking.LaterTriangleWins` | main.cpp:153-158 | Whenever the second triangle registers, it is the one reported: the last hit wins, not the nearest. |
| `Picking.SharedCorners` | main.cpp:35-38 | The second triangle's first two corners are the first triangle's third and second corners, seen through the same matrices. |
| `Picking.MovedParallelogram` | main.cpp:28-38 | After any worldMat, the moved corners still form a parallelogram: moved V3 - V2 equals moved V1 - V0. |
| `Picking.FacesShareRayParam` | main.cpp:141-153 | Both triangles get the same parallel test and the same r from every ray, because they share a plane after any worldMat. |
| `Picking.BothRegisterAtSameDistance` | main.cpp:136-158 | When both triangles register, they return the same hit parameter. Keeping the last hit instead of the nearest therefore only settles that tie. |
| `RayTriangle.ParallelogramSharesPlane` | main.cpp:74-88 | Triangles V0 V1 V2 and V2 V1 V3 of a parallelogram have the same normal and give every ray the same a and b. |
| `Linear.MulVecAdd` | main.cpp:148 | mat4x4_mul_vec4 distributes over a sum of vectors. |
| `Picking.RegistersIff` | main.cpp:136-154 | With lastT = INFINITY_T, a triangle registers if and only if it writes coord and its plane hit r is below INFINITY_T. Its result is then r. |
| `Picking.HitUv` | main.cpp:163-170 | The callback's step-by-step UV computation (two edge differences, scaled by the hit coordinates, summed, plus the first corner's UV) yields exactly `Interpolate` of the hit triangle and coordinates. |
| `Picking.FirstFaceInterpolate` | main.cpp:164-171 | On the first triangle the interpolated UV equals the parametric coordinates. |
| `Picking.SecondFaceInterpolate` | main.cpp:164-171 | On the second triangle the interpolated UV of (s, t) is (s + t, 1 - s). |
| `Picking.UvInUnitSquare` | main.cpp:164-171 | Coordinates inside the closed triangle give a UV inside the unit square [0, 1] x [0, 1]. |
| `Picking.InterpolateIsTextureCoordinate` | main.cpp:164-171 | The interpolated UV is the texture coordinate of the object-space point that the parametric coordinates name on that triangle. |
| `Picking.TransformedTrianglePoint` | main.cpp:143-153 | Moving a triangle by worldMat and then taking the point for (s, t) gives the same point as taking it on the untransformed triangle and then moving it. |
| `Picking.ReportedUvIsUnderCursor` | main.cpp:119-174 | When a hit is reported, the ray reaches, at the returned parameter, the point of the moved quad whose texture coordinate is the reported UV, and that UV lies in the unit square. |
| `Picking.PickRayUnderCursor` | main.cpp:123-133 | When both unprojections succeed and `invert` inverts projection * view, every point of the pick ray that projects at all lands on the cursor's window position. |
| `Unprojection.UnProject` | main.cpp:40-65 | Defines what glhUnProjectf computes. It has no contract of its own; its meaning is stated by `UnProjectRoundTrip` and `UnProjectClip`, and `GlhUnProject` is proved equal to it. |
| `Unprojection.Ndc` | main.cpp:52-55 | Defines the vector `in`. It has no contract of its own; its meaning is stated by `WindowOfNdc` and `NdcCorners`. |
| `RayTriangle.Intersect` | main.cpp:67-117 | Defines intersectTriangle's outcome, test by test. It has no contract of its own; its meaning is stated by `ParallelMisses`, `BehindMisses`, `OutsideMisses`, `CoordWritten`, `HitPointMatchesCoord` and `TrianglePointFound`, and `IntersectTriangle` is proved equal to it. |
| `RayTriangle.Accept` | main.cpp:116 | Defines the final test `r > 1e-5 \|\| r < lastHitT`. It has no contract of its own; its meaning is stated by `AcceptanceRule`, `LastHitIgnoredBeyondEps` and `RejectedHitStillWritesCoord`. |
| `Picking.ViewVertex` | main.cpp:143-148 | Defines viewtri[i] as worldMat times corner i in homogeneous coordinates. It has no contract of its own; its meaning is stated by `ViewTriangleOf` and `TransformedTrianglePoint`. |
| `Picking.ViewTriangle` | main.cpp:141-149 | Defines the moved triangle. It has no contract of its own; its meaning is stated by `ViewTriangleOf` and `FacesShareRayParam`. |
| `Picking.ScreenCoord` | main.cpp:123 | Defines the y-flipped cursor position. It has no contract of its own; its meaning is stated by `OutsideWindowIff`. |
| `Picking.InWindow` | main.cpp:126-127 | Defines the window test, edges included. It has no contract of its own; its meaning is stated by `OutsideWindowIff`. |
| `Picking.RayOrigin` | main.cpp:131 | Defines orgpos, with the stale contents when unprojection fails. It has no contract of its own; its meaning is stated by `PickRay` and `PickRayUnderCursor`. |
| `Picking.RayEnd` | main.cpp:132 | Defines endpos, with the stale contents when unprojection fails. It has no contract of its own; its meaning is stated by `PickRay` and `PickRayUnderCursor`. |
| `Picking.FaceHit` | main.cpp:153 | Defines the outcome of one intersectTriangle call with lastT = INFINITY_T. It has no contract of its own; its meaning is stated by `RegistersIff`. |
| `Picking.Registers` | main.cpp:154 | Defines the callback's test hitT < INFINITY_T. It has no contract of its own; its meaning is stated by `RegistersIff`. |
| `Picking.Interpolate` | main.cpp:164-171 | Defines the UV interpolation. It has no contract of its own; its meaning is stated by `FirstFaceInterpolate`, `SecondFaceInterpolate`, `UvInUnitSquare` and `InterpolateIsTextureCoordinate`. |
| `Picking.Pick` | main.cpp:119-177 | Defines the callback's report. It has no contract of its own; its meaning is stated by `OutsideWindowIff`, `PickSelectsLastRegistered` and `ReportedUvIsUnderCursor`, and `CursorPositionCallback` is proved equal to it. |
| `Linear.MulVec` | main.cpp:148 | Defines mat4x4_mul_vec4, also called at main.cpp:57 (linmath.h is not part of this model). It has no contract of its own; its meaning is stated by `MulVecLinear`, `MulVecAdd` and `MulVecAssociative`. |
| `Linear.MatMul` | main.cpp:46 | Defines mat4x4_mul. It has no contract of its own; its meaning is stated by `MulVecAssociative`. |

## Left out

- The model works over exact real numbers, not IEEE floats.
  - The float literals 1e-5, 1e10, 0.6 and 0.4 are taken as exact reals.
  - Rounding, overflow, infinities and NaN are not modelled.
  - The double-to-float casts of the cursor position are the identity.
- `RayTriangle.Intersect` adds a miss for a zero denominator D. In floats,
  the program would divide by zero and get Inf or NaN. Over the reals,
  D = -|u x v|^2. D is zero only for a degenerate triangle, and then
  n.dir = 0, so the parallel test rejects the ray before D is computed. The
  model does not prove this, so the extra branch is kept.
- `abs(b)` is modelled as the absolute value of a real. A C++ toolchain
  that resolves `abs` to the integer overload would truncate b first; the
  model does not capture that.
- linmath.h's `mat4x4_invert` is not part of this model. The inverse is the
  parameter `invert`, and the round-trip lemmas require that it really is a
  right inverse of projection * view.
- `Unprojection.GlhUnProject` and `Picking.Pick` require a positive window
  size (`ValidWindow`). The program divides by the window size, and real
  division by zero has no value.
- glhUnProjectf's `viewport` argument is never read, so it is passed
  through and ignored.
- The callback discards glhUnProjectf's return value. When unprojection
  fails, the model uses whatever orgpos and endpos held before; these are
  the parameters `staleOrg` and `staleEnd`.
- `hitCoord` is uninitialised when no triangle registers. It is never read
  then, so `SelectFace` starts it at (0, 0).
- GLFW, OpenGL, the render loop, the event callbacks and the shaders are
  left out; they are I/O and not part of the picking core.
- The `fprintf` that reports a hit is modelled as the `Report` value the
  callback returns.
- `Picking.LastHit`: its own contract states only that the selected index is
  one already examined. What the selection means is stated by
  `Picking.LastHitIsLast`.
