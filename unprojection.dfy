/**
  glhUnProjectf: from a window position and a depth back to object space.

  The window point is first mapped to normalised device coordinates (NDC)
  using the global window size, then multiplied by the inverse of
  projection * view, and finally divided by its w component. When that
  component is zero there is no finite point and the function reports
  failure without writing its output.

  linmath.h's mat4x4_invert is not part of this model: the inverse is the
  parameter `invert`, and the round-trip facts below require that it really
  is an inverse of the matrix it is applied to.
*/
module Unprojection {
  import opened Wrappers
  import opened Linear

  /** The window size must be positive: glhUnProjectf divides by it. */
  predicate ValidWindow(winW: int, winH: int) {
    winW > 0 && winH > 0
  }

  /**
    The vector `in` of glhUnProjectf: window x and y scaled into [-1, 1]
    by the window size, depth mapped by 2z - 1, and w = 1.
  */
  function Ndc(win: Vec3, winW: int, winH: int): Vec4
    requires ValidWindow(winW, winH)
  {
    Vec4(win.x / (winW as real) * 2.0 - 1.0,
         win.y / (winH as real) * 2.0 - 1.0,
         2.0 * win.z - 1.0,
         1.0)
  }

  /** The viewport transform that Ndc undoes: NDC back to window coordinates. */
  function WindowOf(c: Vec3, winW: int, winH: int): Vec3 {
    Vec3((c.x + 1.0) / 2.0 * (winW as real), (c.y + 1.0) / 2.0 * (winH as real), (c.z + 1.0) / 2.0)
  }

  /** The matrix glhUnProjectf inverts: projection * view. */
  function ViewProjection(view: Mat4, projection: Mat4): Mat4 {
    MatMul(projection, view)
  }

  /**
    What glhUnProjectf computes: None when the transformed w is zero
    (return value 0), otherwise the object-space point (return value 1).
    The w component is inverted once and the three coordinates multiplied
    by that reciprocal, as the program does.
  */
  function UnProject(win: Vec3, view: Mat4, projection: Mat4, winW: int, winH: int,
                     invert: Mat4 -> Mat4): Option<Vec3>
    requires ValidWindow(winW, winH)
  {
    var out := MulVec(invert(ViewProjection(view, projection)), Ndc(win, winW, winH));
    if out.w == 0.0 then None
    else
      var k := 1.0 / out.w;
      Some(Vec3(out.x * k, out.y * k, out.z * k))
  }

  /**
    The forward map that unprojection reverses: object space through
    projection * view to clip space, then the perspective divide to NDC.
  */
  function Project(p: Vec3, a: Mat4): Option<Vec3> {
    var clip := MulVec(a, Point(p));
    if clip.w == 0.0 then None
    else Some(Vec3(clip.x / clip.w, clip.y / clip.w, clip.z / clip.w))
  }

  /** Ndc and WindowOf are inverse to each other. */
  lemma WindowOfNdc(win: Vec3, winW: int, winH: int)
    requires ValidWindow(winW, winH)
    ensures WindowOf(Xyz(Ndc(win, winW, winH)), winW, winH) == win
  {
    var c := Ndc(win, winW, winH);
    WindowCoordinate(win.x, winW as real, c.x);
    WindowCoordinate(win.y, winH as real, c.y);
  }

  /** One axis of WindowOfNdc. */
  lemma WindowCoordinate(x: real, size: real, c: real)
    requires size > 0.0
    requires c == x / size * 2.0 - 1.0
    ensures (c + 1.0) / 2.0 * size == x
  {
    assert c + 1.0 == x / size * 2.0;
  }

  /** The window edges map to the edges of the NDC cube. */
  lemma NdcCorners(winW: int, winH: int)
    requires ValidWindow(winW, winH)
    ensures Ndc(Vec3(0.0, 0.0, 0.0), winW, winH) == Vec4(-1.0, -1.0, -1.0, 1.0)
    ensures Ndc(Vec3(winW as real, winH as real, 1.0), winW, winH) == Vec4(1.0, 1.0, 1.0, 1.0)
  {
    SelfQuotient(winW as real);
    SelfQuotient(winH as real);
  }

  lemma SelfQuotient(x: real)
    requires x > 0.0
    ensures x / x == 1.0
  {
  }

  /**
    The point glhUnProjectf returns projects back to the window point it
    was computed from, provided `invert` is a true inverse of
    projection * view.
  */
  lemma UnProjectRoundTrip(win: Vec3, view: Mat4, projection: Mat4, winW: int, winH: int,
                           invert: Mat4 -> Mat4)
    requires ValidWindow(winW, winH)
    requires IsRightInverse(invert(ViewProjection(view, projection)), ViewProjection(view, projection))
    requires UnProject(win, view, projection, winW, winH, invert).Some?
    ensures var p := UnProject(win, view, projection, winW, winH, invert).value;
            var q := Project(p, ViewProjection(view, projection));
            q.Some? && q.value == Xyz(Ndc(win, winW, winH)) && WindowOf(q.value, winW, winH) == win
  {
    var a := ViewProjection(view, projection);
    var c := Ndc(win, winW, winH);
    var k := 1.0 / MulVec(invert(a), c).w;
    UnProjectClip(win, view, projection, winW, winH, invert);
    CancelScale(c.x, k);
    CancelScale(c.y, k);
    CancelScale(c.z, k);
    WindowOfNdc(win, winW, winH);
  }

  /**
    In clip space the unprojected point is the NDC point scaled by the
    nonzero reciprocal k of the transformed w: projection * view maps it to
    k * Ndc(win).
  */
  lemma UnProjectClip(win: Vec3, view: Mat4, projection: Mat4, winW: int, winH: int,
                      invert: Mat4 -> Mat4)
    requires ValidWindow(winW, winH)
    requires IsRightInverse(invert(ViewProjection(view, projection)), ViewProjection(view, projection))
    requires UnProject(win, view, projection, winW, winH, invert).Some?
    ensures var a := ViewProjection(view, projection);
            var k := 1.0 / MulVec(invert(a), Ndc(win, winW, winH)).w;
            var p := UnProject(win, view, projection, winW, winH, invert).value;
            k != 0.0 && MulVec(a, Point(p)) == Scale4(Ndc(win, winW, winH), k)
  {
    var a := ViewProjection(view, projection);
    var c := Ndc(win, winW, winH);
    var out := MulVec(invert(a), c);
    var k := 1.0 / out.w;
    var p := Vec3(out.x * k, out.y * k, out.z * k);
    assert UnProject(win, view, projection, winW, winH, invert).value == p;
    ReciprocalNonzero(out.w, k);
    assert Point(p) == Scale4(out, k);
    MulVecScale(a, out, k);
    RightInverseUndoes(invert(a), a, c);
  }

  lemma ReciprocalNonzero(w: real, k: real)
    requires w != 0.0 && k == 1.0 / w
    ensures k != 0.0 && w * k == 1.0
  {
  }

  lemma CancelScale(x: real, k: real)
    requires k != 0.0
    ensures x * k / k == x
  {
  }

  /**
    The program's glhUnProjectf. It returns 1 and writes the point into
    objectCoordinate[0..2] exactly when UnProject yields one; it returns 0
    and writes nothing when the transformed w is zero. The viewport
    argument is never read.
  */
  method GlhUnProject(winx: real, winy: real, winz: real, view: Mat4, projection: Mat4,
                      viewport: array<int>, objectCoordinate: array<real>,
                      winW: int, winH: int, invert: Mat4 -> Mat4) returns (status: int)
    requires ValidWindow(winW, winH)
    requires objectCoordinate.Length >= 3
    modifies objectCoordinate
    ensures var r := UnProject(Vec3(winx, winy, winz), view, projection, winW, winH, invert);
            (status == 1 <==> r.Some?) && (status == 0 <==> r.None?)
    ensures var r := UnProject(Vec3(winx, winy, winz), view, projection, winW, winH, invert);
            if r.Some? then
              objectCoordinate[..3] == [r.value.x, r.value.y, r.value.z]
              && objectCoordinate[3..] == old(objectCoordinate[3..])
            else
              objectCoordinate[..] == old(objectCoordinate[..])
  {
    var a := MatMul(projection, view);
    var m := invert(a);
    var input := Vec4(winx / (winW as real) * 2.0 - 1.0,
                      winy / (winH as real) * 2.0 - 1.0,
                      2.0 * winz - 1.0,
                      1.0);
    var out := MulVec(m, input);
    if out.w == 0.0 {
      return 0;
    }
    var k := 1.0 / out.w;
    assert input == Ndc(Vec3(winx, winy, winz), winW, winH);
    ghost var r := UnProject(Vec3(winx, winy, winz), view, projection, winW, winH, invert);
    assert r.value.x == out.x * k && r.value.y == out.y * k && r.value.z == out.z * k;
    objectCoordinate[0] := out.x * k;
    objectCoordinate[1] := out.y * k;
    objectCoordinate[2] := out.z * k;
    assert objectCoordinate[..3] == [out.x * k, out.y * k, out.z * k];
    return 1;
  }
}
