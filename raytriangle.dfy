/**
  intersectTriangle: where a ray meets a triangle, if it does.

  The ray orig + r * dir is first intersected with the triangle's plane
  (normal n = u x v for the edges u = V1 - V0 and v = V2 - V0); then the
  hit point I is written as V0 + s * u + t * v by solving the 2x2 normal
  equations with denominator D = (u.v)^2 - (u.u)(v.v). The program tests,
  in this order: the ray is parallel to the plane (|n.dir| < 1e-5), the
  plane lies behind the origin (r < 0), s is outside [0, 1], t < 0 or
  s + t > 1. Each test that fails returns INFINITY_T without touching
  `coord`. Otherwise (s, t) is written to `coord` and the result is r when
  r > 1e-5 or r < lastHitT, and INFINITY_T when neither holds.

  The program divides by D without a test. Over the reals D = -|u x v|^2,
  so D is zero only for a degenerate triangle, where n = 0 and the parallel
  test has already returned. That argument is not proved here; the model
  makes the case an explicit miss.
*/
module RayTriangle {
  import opened Wrappers
  import opened Linear

  /** The 1e-5 tolerance of the parallel test and of the final acceptance. */
  const Eps: real := 0.00001

  /** INFINITY_T, the "no hit" value (1e10). */
  const InfinityT: real := 10000000000.0

  function Abs(x: real): real {
    if x < 0.0 then -x else x
  }

  /** The `vec4 vertices[3]` argument; only x, y and z of each are read. */
  datatype Triangle = Triangle(v0: Vec4, v1: Vec4, v2: Vec4)

  /** What a call produces: the returned value and what it wrote to `coord`. */
  datatype Outcome = Outcome(hitT: real, coord: Option<Vec2>)

  function EdgeU(tri: Triangle): Vec3 { Sub3(Xyz(tri.v1), Xyz(tri.v0)) }
  function EdgeV(tri: Triangle): Vec3 { Sub3(Xyz(tri.v2), Xyz(tri.v0)) }
  function Normal(tri: Triangle): Vec3 { Cross3(EdgeU(tri), EdgeV(tri)) }

  /** a = -n.(orig - V0) */
  function PlaneA(orig: Vec3, tri: Triangle): real {
    -Dot3(Normal(tri), Sub3(orig, Xyz(tri.v0)))
  }

  /** b = n.dir */
  function PlaneB(dir: Vec3, tri: Triangle): real {
    Dot3(Normal(tri), dir)
  }

  predicate Parallel(dir: Vec3, tri: Triangle) {
    Abs(PlaneB(dir, tri)) < Eps
  }

  /** The ray parameter of the plane hit, r = a / b. */
  function RayParam(orig: Vec3, dir: Vec3, tri: Triangle): real
    requires !Parallel(dir, tri)
  {
    PlaneA(orig, tri) / PlaneB(dir, tri)
  }

  function RayPoint(orig: Vec3, dir: Vec3, r: real): Vec3 {
    Add3(orig, Scale3(dir, r))
  }

  /** p q - r s: the shape of every 2x2 determinant intersectTriangle forms. */
  function Minor(p: real, q: real, r: real, s: real): real { p * q - r * s }

  /** D = (u.v)^2 - (u.u)(v.v) */
  function Denominator(tri: Triangle): real {
    var u, v := EdgeU(tri), EdgeV(tri);
    Minor(Dot3(u, v), Dot3(u, v), Dot3(u, u), Dot3(v, v))
  }

  /** s = ((u.v)(w.v) - (v.v)(w.u)) / D for w = p - V0 */
  function BaryS(tri: Triangle, p: Vec3): real
    requires Denominator(tri) != 0.0
  {
    var u, v, w := EdgeU(tri), EdgeV(tri), Sub3(p, Xyz(tri.v0));
    Minor(Dot3(u, v), Dot3(w, v), Dot3(v, v), Dot3(w, u)) / Denominator(tri)
  }

  /** t = ((u.v)(w.u) - (u.u)(w.v)) / D for w = p - V0 */
  function BaryT(tri: Triangle, p: Vec3): real
    requires Denominator(tri) != 0.0
  {
    var u, v, w := EdgeU(tri), EdgeV(tri), Sub3(p, Xyz(tri.v0));
    Minor(Dot3(u, v), Dot3(w, u), Dot3(u, u), Dot3(w, v)) / Denominator(tri)
  }

  /** The point with parametric coordinates (s, t): V0 + s u + t v. */
  function TrianglePoint(tri: Triangle, s: real, t: real): Vec3 {
    Add3(Xyz(tri.v0), Add3(Scale3(EdgeU(tri), s), Scale3(EdgeV(tri), t)))
  }

  /** The closed triangle in parametric coordinates. */
  predicate InUnitTriangle(c: Vec2) {
    0.0 <= c.x <= 1.0 && 0.0 <= c.y && c.x + c.y <= 1.0
  }

  function Miss(): Outcome { Outcome(InfinityT, None) }

  /** The final test of intersectTriangle: r > 1e-5 or r < lastHitT. */
  function Accept(r: real, lastHitT: real): real {
    if r > Eps || r < lastHitT then r else InfinityT
  }

  /** intersectTriangle, test by test in the program's order. */
  function Intersect(orig: Vec3, dir: Vec3, tri: Triangle, lastHitT: real): Outcome {
    if Parallel(dir, tri) then Miss()
    else
      var r := RayParam(orig, dir, tri);
      if r < 0.0 then Miss()
      else if Denominator(tri) == 0.0 then Miss()
      else
        var p := RayPoint(orig, dir, r);
        var s := BaryS(tri, p);
        if s < 0.0 || s > 1.0 then Miss()
        else
          var t := BaryT(tri, p);
          if t < 0.0 || s + t > 1.0 then Miss()
          else Outcome(Accept(r, lastHitT), Some(Vec2(s, t)))
  }

  // ---- the miss branches ----

  /** A ray parallel to the plane misses and leaves coord alone. */
  lemma ParallelMisses(orig: Vec3, dir: Vec3, tri: Triangle, lastHitT: real)
    requires Parallel(dir, tri)
    ensures Intersect(orig, dir, tri, lastHitT) == Outcome(InfinityT, None)
  {
  }

  /** A plane behind the ray's origin is a miss that leaves coord alone. */
  lemma BehindMisses(orig: Vec3, dir: Vec3, tri: Triangle, lastHitT: real)
    requires !Parallel(dir, tri) && RayParam(orig, dir, tri) < 0.0
    ensures Intersect(orig, dir, tri, lastHitT) == Outcome(InfinityT, None)
  {
  }

  /** A plane hit outside the triangle is a miss that leaves coord alone. */
  lemma OutsideMisses(orig: Vec3, dir: Vec3, tri: Triangle, lastHitT: real)
    requires !Parallel(dir, tri) && Denominator(tri) != 0.0
    requires !InUnitTriangle(Vec2(BaryS(tri, RayPoint(orig, dir, RayParam(orig, dir, tri))),
                                  BaryT(tri, RayPoint(orig, dir, RayParam(orig, dir, tri)))))
    ensures Intersect(orig, dir, tri, lastHitT) == Outcome(InfinityT, None)
  {
  }

  // ---- what a hit means ----

  /**
    coord is written exactly when the plane hit lies in front of the
    origin and inside the closed triangle; what is written is the hit's
    parametric coordinates.
  */
  lemma CoordWritten(orig: Vec3, dir: Vec3, tri: Triangle, lastHitT: real)
    ensures var o := Intersect(orig, dir, tri, lastHitT);
            o.coord.Some? <==>
              (!Parallel(dir, tri) && RayParam(orig, dir, tri) >= 0.0 && Denominator(tri) != 0.0
               && InUnitTriangle(Vec2(BaryS(tri, RayPoint(orig, dir, RayParam(orig, dir, tri))),
                                      BaryT(tri, RayPoint(orig, dir, RayParam(orig, dir, tri))))))
    ensures var o := Intersect(orig, dir, tri, lastHitT);
            o.coord.Some? ==>
              var p := RayPoint(orig, dir, RayParam(orig, dir, tri));
              o.coord.value == Vec2(BaryS(tri, p), BaryT(tri, p)) && InUnitTriangle(o.coord.value)
  {
  }

  /**
    A result other than INFINITY_T is the plane-hit parameter r >= 0, and
    the coordinates have then been written and lie in the triangle.
  */
  lemma HitIsInFront(orig: Vec3, dir: Vec3, tri: Triangle, lastHitT: real)
    ensures var o := Intersect(orig, dir, tri, lastHitT);
            o.hitT != InfinityT ==>
              !Parallel(dir, tri) && o.hitT == RayParam(orig, dir, tri) && o.hitT >= 0.0
              && o.coord.Some? && InUnitTriangle(o.coord.value)
  {
  }

  /** The final test: once coord is written the result is Accept(r, lastHitT). */
  lemma AcceptanceRule(orig: Vec3, dir: Vec3, tri: Triangle, lastHitT: real)
    ensures var o := Intersect(orig, dir, tri, lastHitT);
            o.coord.Some? ==> o.hitT == Accept(RayParam(orig, dir, tri), lastHitT)
  {
  }

  /**
    Because the test is an "or", every r > 1e-5 is accepted whatever
    lastHitT is: lastHitT never rejects a farther hit.
  */
  lemma LastHitIgnoredBeyondEps(orig: Vec3, dir: Vec3, tri: Triangle, l1: real, l2: real)
    requires !Parallel(dir, tri) && RayParam(orig, dir, tri) > Eps
    ensures Intersect(orig, dir, tri, l1) == Intersect(orig, dir, tri, l2)
  {
  }

  /**
    A hit rejected by the final test still overwrites coord: the result
    is INFINITY_T but the coordinates are those of the rejected hit.
  */
  lemma RejectedHitStillWritesCoord(orig: Vec3, dir: Vec3, tri: Triangle, lastHitT: real)
    requires !Parallel(dir, tri) && Denominator(tri) != 0.0
    requires 0.0 <= RayParam(orig, dir, tri) <= Eps && RayParam(orig, dir, tri) >= lastHitT
    requires InUnitTriangle(Vec2(BaryS(tri, RayPoint(orig, dir, RayParam(orig, dir, tri))),
                                 BaryT(tri, RayPoint(orig, dir, RayParam(orig, dir, tri)))))
    ensures var p := RayPoint(orig, dir, RayParam(orig, dir, tri));
            Intersect(orig, dir, tri, lastHitT) == Outcome(InfinityT, Some(Vec2(BaryS(tri, p), BaryT(tri, p))))
  {
  }

  /**
    Two triangles V0 V1 V2 and V2 V1 V3 of a parallelogram (V3 - V2 = V1 - V0)
    have the same normal and give every ray the same a and b: the same
    parallel test and the same r.
  */
  lemma ParallelogramSharesPlane(q0: Vec4, q1: Vec4, q2: Vec4, q3: Vec4, orig: Vec3, dir: Vec3)
    requires Sub3(Xyz(q3), Xyz(q2)) == Sub3(Xyz(q1), Xyz(q0))
    ensures var t0, t1 := Triangle(q0, q1, q2), Triangle(q2, q1, q3);
            Normal(t0) == Normal(t1)
            && PlaneA(orig, t0) == PlaneA(orig, t1) && PlaneB(dir, t0) == PlaneB(dir, t1)
    ensures var t0, t1 := Triangle(q0, q1, q2), Triangle(q2, q1, q3);
            (Parallel(dir, t0) <==> Parallel(dir, t1))
            && (!Parallel(dir, t0) ==> RayParam(orig, dir, t0) == RayParam(orig, dir, t1))
  {
    var t0, t1 := Triangle(q0, q1, q2), Triangle(q2, q1, q3);
    var u, v := EdgeU(t0), EdgeV(t0);
    assert EdgeU(t1) == Sub3(u, v);
    assert EdgeV(t1) == u;
    CrossShear(u, v);
    var n := Normal(t0);
    assert Sub3(orig, Xyz(q2)) == Sub3(Sub3(orig, Xyz(q0)), v);
    DotSub(n, Sub3(orig, Xyz(q0)), v);
  }

  // ---- geometry of a hit ----

  /** The point orig + r dir lies on the triangle's plane. */
  lemma RayPointOnPlane(orig: Vec3, dir: Vec3, tri: Triangle)
    requires !Parallel(dir, tri)
    ensures Dot3(Normal(tri), Sub3(RayPoint(orig, dir, RayParam(orig, dir, tri)), Xyz(tri.v0))) == 0.0
  {
    var n, r := Normal(tri), RayParam(orig, dir, tri);
    var w0 := Sub3(orig, Xyz(tri.v0));
    var a, b := PlaneA(orig, tri), PlaneB(dir, tri);
    assert Sub3(RayPoint(orig, dir, r), Xyz(tri.v0)) == Add3(w0, Scale3(dir, r));
    DotAddScale(n, w0, dir, r);
    QuotientTimes(a, b, r);
  }

  lemma DotAddScale(n: Vec3, w: Vec3, d: Vec3, r: real)
    ensures Dot3(n, Add3(w, Scale3(d, r))) == Dot3(n, w) + Dot3(n, d) * r
  {
  }

  lemma QuotientTimes(a: real, b: real, r: real)
    requires b != 0.0 && r == a / b
    ensures b * r == a
  {
  }

  /**
    The written coordinates solve the normal equations of the hit point:
    w.u = s (u.u) + t (u.v) and w.v = s (u.v) + t (v.v) for w = I - V0.
  */
  lemma NormalEquations(tri: Triangle, p: Vec3)
    requires Denominator(tri) != 0.0
    ensures var u, v, w := EdgeU(tri), EdgeV(tri), Sub3(p, Xyz(tri.v0));
            var s, t := BaryS(tri, p), BaryT(tri, p);
            Dot3(w, u) == s * Dot3(u, u) + t * Dot3(u, v)
            && Dot3(w, v) == s * Dot3(u, v) + t * Dot3(v, v)
  {
    var u, v, w := EdgeU(tri), EdgeV(tri), Sub3(p, Xyz(tri.v0));
    BaryAgree(tri, p, Dot3(u, u), Dot3(u, v), Dot3(v, v), Dot3(w, u), Dot3(w, v), Denominator(tri));
    SolveNormal(Dot3(u, u), Dot3(u, v), Dot3(v, v), Dot3(w, u), Dot3(w, v),
                Denominator(tri), BaryS(tri, p), BaryT(tri, p));
  }

  /** BaryS and BaryT from the dot products as the program computes them. */
  lemma BaryAgree(tri: Triangle, p: Vec3, uu: real, uv: real, vv: real, wu: real, wv: real, d: real)
    requires d == Denominator(tri) && d != 0.0
    requires var u, v, w := EdgeU(tri), EdgeV(tri), Sub3(p, Xyz(tri.v0));
             uu == Dot3(u, u) && uv == Dot3(u, v) && vv == Dot3(v, v) && wu == Dot3(w, u) && wv == Dot3(w, v)
    ensures BaryS(tri, p) == Minor(uv, wv, vv, wu) / d && BaryT(tri, p) == Minor(uv, wu, uu, wv) / d
  {
  }

  /** Cramer's rule for the 2x2 system with matrix [[uu, uv], [uv, vv]]. */
  lemma SolveNormal(uu: real, uv: real, vv: real, wu: real, wv: real, d: real, s: real, t: real)
    requires d == Minor(uv, uv, uu, vv) && d != 0.0
    requires s == Minor(uv, wv, vv, wu) / d && t == Minor(uv, wu, uu, wv) / d
    ensures wu == s * uu + t * uv && wv == s * uv + t * vv
  {
  }

  /**
    Soundness: the point the ray reaches, orig + r dir, is the triangle
    point V0 + s u + t v named by the coordinates that were written.
  */
  lemma HitPointMatchesCoord(orig: Vec3, dir: Vec3, tri: Triangle, lastHitT: real)
    requires Intersect(orig, dir, tri, lastHitT).coord.Some?
    ensures var c := Intersect(orig, dir, tri, lastHitT).coord.value;
            RayPoint(orig, dir, RayParam(orig, dir, tri)) == TrianglePoint(tri, c.x, c.y)
  {
    var r := RayParam(orig, dir, tri);
    var p := RayPoint(orig, dir, r);
    var s, t := BaryS(tri, p), BaryT(tri, p);
    var u, v, n := EdgeU(tri), EdgeV(tri), Normal(tri);
    var w := Sub3(p, Xyz(tri.v0));
    var e := Sub3(w, Add3(Scale3(u, s), Scale3(v, t)));
    NormalEquations(tri, p);
    RayPointOnPlane(orig, dir, tri);
    DotCombination(u, w, u, v, s, t);
    DotCombination(v, w, u, v, s, t);
    DotCombination(n, w, u, v, s, t);
    DotSymmetric(u, v);
    DotSymmetric(w, n);
    DotSymmetric(u, n);
    DotSymmetric(v, n);
    assert Dot3(e, u) == 0.0 && Dot3(e, v) == 0.0 && Dot3(e, n) == 0.0;
    NormalLength(tri);
    OrthogonalToAllIsZero(e, u, v);
    assert p == TrianglePoint(tri, s, t);
  }

  /** |u x v|^2 = -D, so it is non-zero whenever D is. */
  lemma NormalLength(tri: Triangle)
    requires Denominator(tri) != 0.0
    ensures Dot3(Normal(tri), Normal(tri)) != 0.0
  {
    var u, v := EdgeU(tri), EdgeV(tri);
    LagrangeIdentity(u, v);
    Opposite(Dot3(Normal(tri), Normal(tri)), Denominator(tri),
             Dot3(u, v) * Dot3(u, v), Dot3(u, u) * Dot3(v, v));
  }

  lemma Opposite(g: real, d: real, p: real, q: real)
    requires g == q - p && d == p - q && d != 0.0
    ensures g != 0.0
  {
  }

  /**
    Completeness: when the plane hit in front of the origin is some point
    V0 + s u + t v of the closed triangle, coord receives exactly (s, t)
    and the result is Accept(r, lastHitT).
  */
  lemma TrianglePointFound(orig: Vec3, dir: Vec3, tri: Triangle, lastHitT: real, s: real, t: real)
    requires !Parallel(dir, tri) && RayParam(orig, dir, tri) >= 0.0 && Denominator(tri) != 0.0
    requires RayPoint(orig, dir, RayParam(orig, dir, tri)) == TrianglePoint(tri, s, t)
    requires InUnitTriangle(Vec2(s, t))
    ensures Intersect(orig, dir, tri, lastHitT)
         == Outcome(Accept(RayParam(orig, dir, tri), lastHitT), Some(Vec2(s, t)))
  {
    var p := TrianglePoint(tri, s, t);
    var u, v := EdgeU(tri), EdgeV(tri);
    var w := Sub3(p, Xyz(tri.v0));
    OffsetFromBase(Xyz(tri.v0), Add3(Scale3(u, s), Scale3(v, t)));
    assert w == Add3(Scale3(u, s), Scale3(v, t));
    DotSpan(u, v, s, t, u);
    DotSpan(u, v, s, t, v);
    DotSymmetric(u, v);
    BaryAgree(tri, p, Dot3(u, u), Dot3(u, v), Dot3(v, v), Dot3(w, u), Dot3(w, v), Denominator(tri));
    SolveUnique(Dot3(u, u), Dot3(u, v), Dot3(v, v), Dot3(w, u), Dot3(w, v), Denominator(tri), s, t);
    assert BaryS(tri, p) == s;
    assert BaryT(tri, p) == t;
  }

  /** The 2x2 system has only the solution Cramer's rule gives. */
  lemma SolveUnique(uu: real, uv: real, vv: real, wu: real, wv: real, d: real, s: real, t: real)
    requires d == Minor(uv, uv, uu, vv) && d != 0.0
    requires wu == s * uu + t * uv && wv == s * uv + t * vv
    ensures Minor(uv, wv, vv, wu) / d == s && Minor(uv, wu, uu, wv) / d == t
  {
  }

  /**
    The program's intersectTriangle on its arrays: the result and the
    contents of coord afterwards are those of Intersect; coord[0..1] are
    written only when Intersect writes them.
  */
  method IntersectTriangle(orig: Vec3, dir: Vec3, vertices: array<Vec4>, lastHitT: real,
                           coord: array<real>) returns (hitT: real)
    requires vertices.Length >= 3 && coord.Length >= 2
    modifies coord
    ensures var o := Intersect(orig, dir, Triangle(vertices[0], vertices[1], vertices[2]), lastHitT);
            hitT == o.hitT
            && if o.coord.Some? then
                 coord[..2] == [o.coord.value.x, o.coord.value.y] && coord[2..] == old(coord[2..])
               else
                 coord[..] == old(coord[..])
  {
    ghost var tri := Triangle(vertices[0], vertices[1], vertices[2]);
    var u := Sub3(Xyz(vertices[1]), Xyz(vertices[0]));
    var v := Sub3(Xyz(vertices[2]), Xyz(vertices[0]));
    var n := Cross3(u, v);
    var w0 := Sub3(orig, Xyz(vertices[0]));
    var a := -Dot3(n, w0);
    var b := Dot3(n, dir);
    assert u == EdgeU(tri) && v == EdgeV(tri) && n == Normal(tri);
    assert a == PlaneA(orig, tri) && b == PlaneB(dir, tri);
    if Abs(b) < Eps {
      ParallelMisses(orig, dir, tri, lastHitT);
      return InfinityT;
    }
    var r := a / b;
    if r < 0.0 {
      BehindMisses(orig, dir, tri, lastHitT);
      return InfinityT;
    }
    var rdir := Scale3(dir, r);
    var hit := Add3(orig, rdir);
    var uu := Dot3(u, u);
    var uv := Dot3(u, v);
    var vv := Dot3(v, v);
    var w := Sub3(hit, Xyz(vertices[0]));
    var wu := Dot3(w, u);
    var wv := Dot3(w, v);
    var d := uv * uv - uu * vv;
    assert hit == RayPoint(orig, dir, RayParam(orig, dir, tri));
    assert d == Denominator(tri);
    if d == 0.0 {
      return InfinityT;
    }
    var s := (uv * wv - vv * wu) / d;
    var t := (uv * wu - uu * wv) / d;
    BaryAgree(tri, hit, uu, uv, vv, wu, wv, d);
    if s < 0.0 || s > 1.0 {
      OutsideMisses(orig, dir, tri, lastHitT);
      return InfinityT;
    }
    if t < 0.0 || s + t > 1.0 {
      OutsideMisses(orig, dir, tri, lastHitT);
      return InfinityT;
    }
    CoordWritten(orig, dir, tri, lastHitT);
    AcceptanceRule(orig, dir, tri, lastHitT);
    coord[0] := s;
    coord[1] := t;
    assert coord[..2] == [s, t];
    hitT := if r > Eps || r < lastHitT then r else InfinityT;
  }
}
