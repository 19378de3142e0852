/**
  cursor_position_callback: which triangle of the quad is under the mouse,
  and which texture coordinate.

  The cursor position is turned into window coordinates (y counted from
  the bottom) and rejected when it lies outside the window. Two points on the
  pick ray are unprojected at window depths -1 and 1; the ray runs from
  the first towards the second. Each of the two triangles of the quad is
  moved by worldMat and intersected with the ray, always with
  lastT = INFINITY_T. A triangle whose result is below INFINITY_T
  overwrites the selection, so the last hit triangle wins, not the
  nearest. For a selected triangle the UV is interpolated from its
  vertices' UVs with the parametric coordinates of the hit.

  The program ignores glhUnProjectf's result: when it fails, its output
  vector keeps whatever it held before. The model makes those contents the
  parameters staleOrg and staleEnd.
*/
module Picking {
  import opened Wrappers
  import opened Linear
  import opened Unprojection
  import opened RayTriangle

  /** An entry of the vertex table: object-space position and texture coordinate. */
  datatype Vertex = Vertex(pos: Vec3, uv: Vec2)

  /** The quad: four corners at (+-0.6, +-0.4, 0) with the UVs of a unit square. */
  const Vertices: seq<Vertex> := [
    Vertex(Vec3(-0.6, -0.4, 0.0), Vec2(0.0, 0.0)),
    Vertex(Vec3( 0.6, -0.4, 0.0), Vec2(1.0, 0.0)),
    Vertex(Vec3(-0.6,  0.4, 0.0), Vec2(0.0, 1.0)),
    Vertex(Vec3( 0.6,  0.4, 0.0), Vec2(1.0, 1.0))
  ]

  /** The two triangles of the quad, as indices into Vertices. */
  const Indices: seq<seq<nat>> := [[0, 1, 2], [2, 1, 3]]

  const FaceCount: nat := 2

  /** The globals the callback reads: the three matrices and the window size. */
  datatype Scene = Scene(viewMat: Mat4, worldMat: Mat4, projMat: Mat4, winW: int, winH: int)

  /** Corner i of triangle face. */
  function Corner(face: nat, i: nat): Vertex
    requires face < FaceCount && i < 3
  {
    Vertices[Indices[face][i]]
  }

  /** The six corners of the two triangles, read off the tables. */
  lemma CornerTable()
    ensures Corner(0, 0) == Vertex(Vec3(-0.6, -0.4, 0.0), Vec2(0.0, 0.0))
    ensures Corner(0, 1) == Vertex(Vec3( 0.6, -0.4, 0.0), Vec2(1.0, 0.0))
    ensures Corner(0, 2) == Vertex(Vec3(-0.6,  0.4, 0.0), Vec2(0.0, 1.0))
    ensures Corner(1, 0) == Vertex(Vec3(-0.6,  0.4, 0.0), Vec2(0.0, 1.0))
    ensures Corner(1, 1) == Vertex(Vec3( 0.6, -0.4, 0.0), Vec2(1.0, 0.0))
    ensures Corner(1, 2) == Vertex(Vec3( 0.6,  0.4, 0.0), Vec2(1.0, 1.0))
  {
  }

  /** Corner i of triangle face moved by worldMat: viewtri[i]. */
  function ViewVertex(scene: Scene, face: nat, i: nat): Vec4
    requires face < FaceCount && i < 3
  {
    MulVec(scene.worldMat, Point(Corner(face, i).pos))
  }

  function ViewTriangle(scene: Scene, face: nat): Triangle
    requires face < FaceCount
  {
    Triangle(ViewVertex(scene, face, 0), ViewVertex(scene, face, 1), ViewVertex(scene, face, 2))
  }

  /** screenCoord: the cursor with the y axis flipped to point up. */
  function ScreenCoord(xpos: real, ypos: real, winH: int): Vec2 {
    Vec2(xpos, winH as real - ypos)
  }

  /** The window test; its edges belong to the window. */
  predicate InWindow(sc: Vec2, winW: int, winH: int) {
    0.0 <= sc.x <= winW as real && 0.0 <= sc.y <= winH as real
  }

  /** orgpos: the unprojection at depth -1, or the stale contents when it fails. */
  function RayOrigin(scene: Scene, sc: Vec2, staleOrg: Vec3, invert: Mat4 -> Mat4): Vec3
    requires ValidWindow(scene.winW, scene.winH)
  {
    match UnProject(Vec3(sc.x, sc.y, -1.0), scene.viewMat, scene.projMat, scene.winW, scene.winH, invert)
    case Some(p) => p
    case None => staleOrg
  }

  /** endpos: the unprojection at depth 1, or the stale contents when it fails. */
  function RayEnd(scene: Scene, sc: Vec2, staleEnd: Vec3, invert: Mat4 -> Mat4): Vec3
    requires ValidWindow(scene.winW, scene.winH)
  {
    match UnProject(Vec3(sc.x, sc.y, 1.0), scene.viewMat, scene.projMat, scene.winW, scene.winH, invert)
    case Some(p) => p
    case None => staleEnd
  }

  /** What intersectTriangle yields for one triangle, always with lastT = INFINITY_T. */
  function FaceHit(scene: Scene, org: Vec3, dir: Vec3, face: nat): Outcome
    requires face < FaceCount
  {
    Intersect(org, dir, ViewTriangle(scene, face), InfinityT)
  }

  /** The callback's test for a hit: hitT < INFINITY_T. */
  predicate Registers(scene: Scene, org: Vec3, dir: Vec3, face: nat)
    requires face < FaceCount
  {
    FaceHit(scene, org, dir, face).hitT < InfinityT
  }

  /** hitIndex and hitCoord. */
  datatype Selection = Selection(index: nat, coord: Vec2)

  /**
    The selection after the loop has looked at the first n triangles: the
    last of them that registers, with the coordinates it wrote.
  */
  function LastHit(scene: Scene, org: Vec3, dir: Vec3, n: nat): (sel: Option<Selection>)
    requires n <= FaceCount
    ensures sel.Some? ==> sel.value.index < n
  {
    if n == 0 then None
    else if Registers(scene, org, dir, n - 1) then
      HitIsInFront(org, dir, ViewTriangle(scene, n - 1), InfinityT);
      Some(Selection(n - 1, FaceHit(scene, org, dir, n - 1).coord.value))
    else LastHit(scene, org, dir, n - 1)
  }

  /** The UV at parametric coordinates c of triangle face: uv0 + c.x (uv1 - uv0) + c.y (uv2 - uv0). */
  function Interpolate(face: nat, c: Vec2): Vec2
    requires face < FaceCount
  {
    var uv0 := Corner(face, 0).uv;
    Add2(Add2(Scale2(Sub2(Corner(face, 1).uv, uv0), c.x), Scale2(Sub2(Corner(face, 2).uv, uv0), c.y)), uv0)
  }

  /** What one call of the callback amounts to. */
  datatype Report =
    | OutsideWindow           // returned before any unprojection
    | NoHit                   // no triangle registered: nothing is printed
    | Hit(index: nat, coord: Vec2, uv: Vec2)   // "Hit Index=%d UV=(%f,%f)"

  /** orgpos for a cursor position. */
  function CursorOrigin(scene: Scene, xpos: real, ypos: real, staleOrg: Vec3, invert: Mat4 -> Mat4): Vec3
    requires ValidWindow(scene.winW, scene.winH)
  {
    RayOrigin(scene, ScreenCoord(xpos, ypos, scene.winH), staleOrg, invert)
  }

  /** raydir for a cursor position. */
  function CursorDirection(scene: Scene, xpos: real, ypos: real, staleOrg: Vec3, staleEnd: Vec3,
                           invert: Mat4 -> Mat4): Vec3
    requires ValidWindow(scene.winW, scene.winH)
  {
    Sub3(RayEnd(scene, ScreenCoord(xpos, ypos, scene.winH), staleEnd, invert),
         CursorOrigin(scene, xpos, ypos, staleOrg, invert))
  }

  /** cursor_position_callback as a function of the cursor and the globals it reads. */
  function Pick(scene: Scene, xpos: real, ypos: real, staleOrg: Vec3, staleEnd: Vec3,
                invert: Mat4 -> Mat4): Report
    requires ValidWindow(scene.winW, scene.winH)
  {
    var sc := ScreenCoord(xpos, ypos, scene.winH);
    if !InWindow(sc, scene.winW, scene.winH) then OutsideWindow
    else
      var org := CursorOrigin(scene, xpos, ypos, staleOrg, invert);
      var dir := CursorDirection(scene, xpos, ypos, staleOrg, staleEnd, invert);
      match LastHit(scene, org, dir, FaceCount)
      case None => NoHit
      case Some(sel) => Hit(sel.index, sel.coord, Interpolate(sel.index, sel.coord))
  }

  // ---- the callback ----

  /**
    The program's cursor_position_callback. viewport is handed to
    glhUnProjectf, which never reads it; staleOrg and staleEnd are what
    orgpos and endpos hold before glhUnProjectf writes them. The report
    is exactly Pick's.
  */
  method CursorPositionCallback(scene: Scene, viewport: array<int>, xpos: real, ypos: real,
                                staleOrg: Vec3, staleEnd: Vec3, invert: Mat4 -> Mat4)
    returns (report: Report)
    requires ValidWindow(scene.winW, scene.winH)
    ensures report == Pick(scene, xpos, ypos, staleOrg, staleEnd, invert)
  {
    var screenCoord := Vec2(xpos, scene.winH as real - ypos);
    if screenCoord.x < 0.0 || screenCoord.x > scene.winW as real
       || screenCoord.y < 0.0 || screenCoord.y > scene.winH as real {
      assert !InWindow(ScreenCoord(xpos, ypos, scene.winH), scene.winW, scene.winH);
      return OutsideWindow;
    }
    var org, raydir := PickRay(scene, viewport, screenCoord, staleOrg, staleEnd, invert);
    assert screenCoord == ScreenCoord(xpos, ypos, scene.winH);
    assert org == CursorOrigin(scene, xpos, ypos, staleOrg, invert);
    assert raydir == CursorDirection(scene, xpos, ypos, staleOrg, staleEnd, invert);
    var hitIndex, hitCoord := SelectFace(scene, org, raydir);
    if hitIndex != -1 {
      var uv := HitUv(hitIndex, hitCoord);
      report := Hit(hitIndex, hitCoord, uv);
    } else {
      report := NoHit;
    }
  }

  /** The UV computation after the loop, step by step as the callback does it. */
  method HitUv(hitIndex: nat, hitCoord: Vec2) returns (uv: Vec2)
    requires hitIndex < FaceCount
    ensures uv == Interpolate(hitIndex, hitCoord)
  {
    var v0 := Sub2(Vertices[Indices[hitIndex][1]].uv, Vertices[Indices[hitIndex][0]].uv);
    var v1 := Sub2(Vertices[Indices[hitIndex][2]].uv, Vertices[Indices[hitIndex][0]].uv);
    var uv0 := Scale2(v0, hitCoord.x);
    var uv1 := Scale2(v1, hitCoord.y);
    uv := Add2(uv0, uv1);
    uv := Add2(uv, Vertices[Indices[hitIndex][0]].uv);
  }

  /**
    The first part of the callback: orgpos and endpos from glhUnProjectf
    at depths -1 and 1, and raydir = endpos - orgpos.
  */
  method PickRay(scene: Scene, viewport: array<int>, screenCoord: Vec2,
                 staleOrg: Vec3, staleEnd: Vec3, invert: Mat4 -> Mat4)
    returns (org: Vec3, raydir: Vec3)
    requires ValidWindow(scene.winW, scene.winH)
    ensures org == RayOrigin(scene, screenCoord, staleOrg, invert)
    ensures raydir == Sub3(RayEnd(scene, screenCoord, staleEnd, invert), org)
  {
    var orgpos := new real[3] [staleOrg.x, staleOrg.y, staleOrg.z];
    var endpos := new real[3] [staleEnd.x, staleEnd.y, staleEnd.z];
    var _ := GlhUnProject(screenCoord.x, screenCoord.y, -1.0, scene.viewMat, scene.projMat,
                          viewport, orgpos, scene.winW, scene.winH, invert);
    var _ := GlhUnProject(screenCoord.x, screenCoord.y, 1.0, scene.viewMat, scene.projMat,
                          viewport, endpos, scene.winW, scene.winH, invert);
    org := Vec3(orgpos[0], orgpos[1], orgpos[2]);
    raydir := Sub3(Vec3(endpos[0], endpos[1], endpos[2]), org);
  }

  /**
    The loop over the two triangles: hitIndex is -1 when none registers,
    otherwise hitIndex and hitCoord are LastHit's selection.
  */
  method SelectFace(scene: Scene, org: Vec3, raydir: Vec3) returns (hitIndex: int, hitCoord: Vec2)
    ensures -1 <= hitIndex < FaceCount as int
    ensures hitIndex == -1 <==> LastHit(scene, org, raydir, FaceCount) == None
    ensures hitIndex != -1 ==> LastHit(scene, org, raydir, FaceCount) == Some(Selection(hitIndex, hitCoord))
  {
    var lastT := InfinityT;
    hitIndex := -1;
    hitCoord := Vec2(0.0, 0.0);
    for t := 0 to FaceCount
      invariant -1 <= hitIndex < t
      invariant hitIndex == -1 <==> LastHit(scene, org, raydir, t) == None
      invariant hitIndex != -1 ==> LastHit(scene, org, raydir, t) == Some(Selection(hitIndex, hitCoord))
    {
      var viewtri := ViewTriangleOf(scene, t);
      var coord := new real[2];
      var hitT := IntersectTriangle(org, raydir, viewtri, lastT, coord);
      if hitT < InfinityT {
        HitIsInFront(org, raydir, ViewTriangle(scene, t), InfinityT);
        hitIndex := t;
        hitCoord := Vec2(coord[0], coord[1]);
      }
    }
  }

  /** The inner loop: worldtri[i] from the vertex table, viewtri[i] = worldMat * worldtri[i]. */
  method ViewTriangleOf(scene: Scene, t: nat) returns (viewtri: array<Vec4>)
    requires t < FaceCount
    ensures fresh(viewtri) && viewtri.Length == 3
    ensures Triangle(viewtri[0], viewtri[1], viewtri[2]) == ViewTriangle(scene, t)
  {
    viewtri := new Vec4[3];
    var worldtri := new Vec4[3];
    for i := 0 to 3
      invariant forall j :: 0 <= j < i ==> viewtri[j] == ViewVertex(scene, t, j)
    {
      var pos := Vertices[Indices[t][i]].pos;
      worldtri[i] := Vec4(pos.x, pos.y, pos.z, 1.0);
      viewtri[i] := MulVec(scene.worldMat, worldtri[i]);
    }
  }

  // ---- which triangle is selected ----

  /**
    LastHit picks the last registering triangle among the first n: it is
    None exactly when none registers, and otherwise names one that registers,
    carries the coordinates that triangle wrote, and no later one registers.
  */
  lemma {:induction false} LastHitIsLast(scene: Scene, org: Vec3, dir: Vec3, n: nat)
    requires n <= FaceCount
    ensures LastHit(scene, org, dir, n) == None
            <==> forall j :: 0 <= j < n ==> !Registers(scene, org, dir, j)
    ensures LastHit(scene, org, dir, n).Some? ==>
              var sel := LastHit(scene, org, dir, n).value;
              Registers(scene, org, dir, sel.index)
              && FaceHit(scene, org, dir, sel.index).coord == Some(sel.coord)
              && forall j :: sel.index < j < n ==> !Registers(scene, org, dir, j)
  {
    if n > 0 {
      LastHitIsLast(scene, org, dir, n - 1);
      if Registers(scene, org, dir, n - 1) {
        HitIsInFront(org, dir, ViewTriangle(scene, n - 1), InfinityT);
      }
    }
  }

  /** The callback returns early exactly when the cursor is outside the window. */
  lemma OutsideWindowIff(scene: Scene, xpos: real, ypos: real, staleOrg: Vec3, staleEnd: Vec3,
                         invert: Mat4 -> Mat4)
    requires ValidWindow(scene.winW, scene.winH)
    ensures Pick(scene, xpos, ypos, staleOrg, staleEnd, invert) == OutsideWindow
            <==> !InWindow(ScreenCoord(xpos, ypos, scene.winH), scene.winW, scene.winH)
  {
  }

  /**
    A reported hit names a triangle that registers, with the coordinates it
    wrote and the UV interpolated from them, and no later triangle
    registers; nothing is reported exactly when the cursor is inside the
    window and no triangle registers.
  */
  lemma PickSelectsLastRegistered(scene: Scene, xpos: real, ypos: real, staleOrg: Vec3, staleEnd: Vec3,
                                  invert: Mat4 -> Mat4)
    requires ValidWindow(scene.winW, scene.winH)
    ensures var org := CursorOrigin(scene, xpos, ypos, staleOrg, invert);
            var dir := CursorDirection(scene, xpos, ypos, staleOrg, staleEnd, invert);
            var rep := Pick(scene, xpos, ypos, staleOrg, staleEnd, invert);
            rep.Hit? ==>
              InWindow(ScreenCoord(xpos, ypos, scene.winH), scene.winW, scene.winH)
              && rep.index < FaceCount && Registers(scene, org, dir, rep.index)
              && FaceHit(scene, org, dir, rep.index).coord == Some(rep.coord)
              && rep.uv == Interpolate(rep.index, rep.coord)
              && forall j :: rep.index < j < FaceCount ==> !Registers(scene, org, dir, j)
    ensures var org := CursorOrigin(scene, xpos, ypos, staleOrg, invert);
            var dir := CursorDirection(scene, xpos, ypos, staleOrg, staleEnd, invert);
            Pick(scene, xpos, ypos, staleOrg, staleEnd, invert) == NoHit
            <==> InWindow(ScreenCoord(xpos, ypos, scene.winH), scene.winW, scene.winH)
                 && forall j :: 0 <= j < FaceCount ==> !Registers(scene, org, dir, j)
  {
    var org := CursorOrigin(scene, xpos, ypos, staleOrg, invert);
    var dir := CursorDirection(scene, xpos, ypos, staleOrg, staleEnd, invert);
    LastHitIsLast(scene, org, dir, FaceCount);
  }

  /**
    The second triangle wins whenever it registers: the selection is the
    last hit, not the nearest. Both triangles lie on one plane, so when both
    register they do so at the same r (BothRegisterAtSameDistance) and this
    rule only settles that tie.
  */
  lemma LaterTriangleWins(scene: Scene, xpos: real, ypos: real, staleOrg: Vec3, staleEnd: Vec3,
                          invert: Mat4 -> Mat4)
    requires ValidWindow(scene.winW, scene.winH)
    requires InWindow(ScreenCoord(xpos, ypos, scene.winH), scene.winW, scene.winH)
    requires var org := CursorOrigin(scene, xpos, ypos, staleOrg, invert);
             var dir := CursorDirection(scene, xpos, ypos, staleOrg, staleEnd, invert);
             Registers(scene, org, dir, 1)
    ensures Pick(scene, xpos, ypos, staleOrg, staleEnd, invert).Hit?
    ensures Pick(scene, xpos, ypos, staleOrg, staleEnd, invert).index == 1
  {
  }

  /** The second triangle starts with the first one's third and second corners. */
  lemma SharedCorners(scene: Scene)
    ensures ViewVertex(scene, 1, 0) == ViewVertex(scene, 0, 2)
    ensures ViewVertex(scene, 1, 1) == ViewVertex(scene, 0, 1)
  {
    assert Corner(1, 0) == Corner(0, 2) && Corner(1, 1) == Corner(0, 1);
  }

  /** worldMat keeps the quad a parallelogram: moved V3 - V2 equals moved V1 - V0. */
  lemma MovedParallelogram(scene: Scene)
    ensures Sub3(Xyz(ViewVertex(scene, 1, 2)), Xyz(ViewVertex(scene, 0, 2)))
         == Sub3(Xyz(ViewVertex(scene, 0, 1)), Xyz(ViewVertex(scene, 0, 0)))
  {
    CornerTable();
    var p0, p1 := Point(Vec3(-0.6, -0.4, 0.0)), Point(Vec3(0.6, -0.4, 0.0));
    var p2, p3 := Point(Vec3(-0.6, 0.4, 0.0)), Point(Vec3(0.6, 0.4, 0.0));
    MovedEdges(scene.worldMat, p0, p1, p2, p3,
               ViewVertex(scene, 0, 0), ViewVertex(scene, 0, 1), ViewVertex(scene, 0, 2), ViewVertex(scene, 1, 2));
  }

  /**
    A linear map keeps a parallelogram one: p3 + p0 = p1 + p2 gives
    q3 - q2 = q1 - q0 for the images q = m p.
  */
  lemma MovedEdges(m: Mat4, p0: Vec4, p1: Vec4, p2: Vec4, p3: Vec4, q0: Vec4, q1: Vec4, q2: Vec4, q3: Vec4)
    requires Add4(p3, p0) == Add4(p1, p2)
    requires q0 == MulVec(m, p0) && q1 == MulVec(m, p1) && q2 == MulVec(m, p2) && q3 == MulVec(m, p3)
    ensures Sub3(Xyz(q3), Xyz(q2)) == Sub3(Xyz(q1), Xyz(q0))
  {
    MulVecAdd(m, p3, p0);
    MulVecAdd(m, p1, p2);
    SumsToEdges(q3, q0, q1, q2);
  }

  /** a + b = c + d gives a - d = c - b, in x, y and z. */
  lemma SumsToEdges(a: Vec4, b: Vec4, c: Vec4, d: Vec4)
    requires Add4(a, b) == Add4(c, d)
    ensures Sub3(Xyz(a), Xyz(d)) == Sub3(Xyz(c), Xyz(b))
  {
  }

  /**
    The two triangles of the quad lie on one plane after any worldMat, so
    every ray gets the same parallel test and the same r from both.
  */
  lemma FacesShareRayParam(scene: Scene, org: Vec3, dir: Vec3)
    ensures Parallel(dir, ViewTriangle(scene, 0)) <==> Parallel(dir, ViewTriangle(scene, 1))
    ensures !Parallel(dir, ViewTriangle(scene, 0)) ==>
              RayParam(org, dir, ViewTriangle(scene, 0)) == RayParam(org, dir, ViewTriangle(scene, 1))
  {
    SharedCorners(scene);
    MovedParallelogram(scene);
    ParallelogramSharesPlane(ViewVertex(scene, 0, 0), ViewVertex(scene, 0, 1), ViewVertex(scene, 0, 2),
                             ViewVertex(scene, 1, 2), org, dir);
  }

  /**
    When both triangles register they register at the same distance r, so
    keeping the last hit instead of the nearest only decides this tie, in
    favour of the second triangle.
  */
  lemma BothRegisterAtSameDistance(scene: Scene, org: Vec3, dir: Vec3)
    requires Registers(scene, org, dir, 0) && Registers(scene, org, dir, 1)
    ensures FaceHit(scene, org, dir, 0).hitT == FaceHit(scene, org, dir, 1).hitT
  {
    RegistersIff(scene, org, dir, 0);
    RegistersIff(scene, org, dir, 1);
    HitIsInFront(org, dir, ViewTriangle(scene, 0), InfinityT);
    FacesShareRayParam(scene, org, dir);
  }

  /**
    With lastT = INFINITY_T the acceptance test passes every r, so a
    triangle registers exactly when it writes coord and its plane hit is
    nearer than INFINITY_T; its result is then that r.
  */
  lemma RegistersIff(scene: Scene, org: Vec3, dir: Vec3, face: nat)
    requires face < FaceCount
    ensures var tri := ViewTriangle(scene, face);
            Registers(scene, org, dir, face)
            <==> FaceHit(scene, org, dir, face).coord.Some? && RayParam(org, dir, tri) < InfinityT
    ensures var tri := ViewTriangle(scene, face);
            FaceHit(scene, org, dir, face).coord.Some? ==>
              FaceHit(scene, org, dir, face).hitT == RayParam(org, dir, tri)
  {
    var tri := ViewTriangle(scene, face);
    HitIsInFront(org, dir, tri, InfinityT);
    AcceptanceRule(org, dir, tri, InfinityT);
  }

  // ---- the reported UV ----

  /** The interpolated UV of each triangle in closed form: the first triangle's UV is c itself. */
  lemma FirstFaceInterpolate(c: Vec2)
    ensures Interpolate(0, c) == c
  {
    CornerTable();
    FirstFaceUv(Corner(0, 0).uv, Corner(0, 1).uv, Corner(0, 2).uv, c);
  }

  /** The second triangle's UV is (c.x + c.y, 1 - c.x). */
  lemma SecondFaceInterpolate(c: Vec2)
    ensures Interpolate(1, c) == Vec2(c.x + c.y, 1.0 - c.x)
  {
    CornerTable();
    SecondFaceUv(Corner(1, 0).uv, Corner(1, 1).uv, Corner(1, 2).uv, c);
  }

  lemma FirstFaceUv(uv0: Vec2, uv1: Vec2, uv2: Vec2, c: Vec2)
    requires uv0 == Vec2(0.0, 0.0) && uv1 == Vec2(1.0, 0.0) && uv2 == Vec2(0.0, 1.0)
    ensures Add2(Add2(Scale2(Sub2(uv1, uv0), c.x), Scale2(Sub2(uv2, uv0), c.y)), uv0) == c
  {
  }

  lemma SecondFaceUv(uv0: Vec2, uv1: Vec2, uv2: Vec2, c: Vec2)
    requires uv0 == Vec2(0.0, 1.0) && uv1 == Vec2(1.0, 0.0) && uv2 == Vec2(1.0, 1.0)
    ensures Add2(Add2(Scale2(Sub2(uv1, uv0), c.x), Scale2(Sub2(uv2, uv0), c.y)), uv0)
         == Vec2(c.x + c.y, 1.0 - c.x)
  {
  }

  /** The texture's unit square [0, 1] x [0, 1]. */
  predicate InUnitSquare(uv: Vec2) {
    0.0 <= uv.x <= 1.0 && 0.0 <= uv.y <= 1.0
  }

  /** Coordinates inside the closed triangle give a UV inside the unit square. */
  lemma UvInUnitSquare(face: nat, c: Vec2)
    requires face < FaceCount && InUnitTriangle(c)
    ensures InUnitSquare(Interpolate(face, c))
  {
    if face == 0 {
      FirstFaceInterpolate(c);
      UnitSquareBounds(Interpolate(face, c), c);
    } else {
      SecondFaceInterpolate(c);
      UnitSquareBounds(Interpolate(face, c), c);
    }
  }

  /** Both closed forms of the UV map the closed triangle into the unit square. */
  lemma UnitSquareBounds(uv: Vec2, c: Vec2)
    requires InUnitTriangle(c)
    requires uv == c || uv == Vec2(c.x + c.y, 1.0 - c.x)
    ensures InUnitSquare(uv)
  {
  }

  /**
    The quad's texture map: the object-space point with texture coordinate
    uv. It is affine and agrees with the vertex table at all four corners.
  */
  function QuadPoint(uv: Vec2): Vec3 {
    Vec3(-0.6 + 1.2 * uv.x, -0.4 + 0.8 * uv.y, 0.0)
  }

  lemma QuadPointCorners()
    ensures forall k :: 0 <= k < |Vertices| ==> QuadPoint(Vertices[k].uv) == Vertices[k].pos
  {
  }

  /** The object-space point with parametric coordinates c on triangle face. */
  function ModelPoint(face: nat, c: Vec2): Vec3
    requires face < FaceCount
  {
    var p0 := Corner(face, 0).pos;
    Add3(p0, Add3(Scale3(Sub3(Corner(face, 1).pos, p0), c.x), Scale3(Sub3(Corner(face, 2).pos, p0), c.y)))
  }

  /** Interpolating the UVs gives the texture coordinate of the point the coordinates name. */
  lemma InterpolateIsTextureCoordinate(face: nat, c: Vec2)
    requires face < FaceCount
    ensures QuadPoint(Interpolate(face, c)) == ModelPoint(face, c)
  {
    if face == 0 {
      FirstFaceInterpolate(c);
      FirstFaceModelPoint(c);
    } else {
      SecondFaceInterpolate(c);
      SecondFaceModelPoint(c);
    }
  }

  lemma FirstFaceModelPoint(c: Vec2)
    ensures ModelPoint(0, c) == QuadPoint(c)
  {
    CornerTable();
    FirstFacePoint(Corner(0, 0).pos, Corner(0, 1).pos, Corner(0, 2).pos, c);
  }

  lemma SecondFaceModelPoint(c: Vec2)
    ensures ModelPoint(1, c) == QuadPoint(Vec2(c.x + c.y, 1.0 - c.x))
  {
    CornerTable();
    SecondFacePoint(Corner(1, 0).pos, Corner(1, 1).pos, Corner(1, 2).pos, c);
  }

  lemma FirstFacePoint(p0: Vec3, p1: Vec3, p2: Vec3, c: Vec2)
    requires p0 == Vec3(-0.6, -0.4, 0.0) && p1 == Vec3(0.6, -0.4, 0.0) && p2 == Vec3(-0.6, 0.4, 0.0)
    ensures Add3(p0, Add3(Scale3(Sub3(p1, p0), c.x), Scale3(Sub3(p2, p0), c.y))) == QuadPoint(c)
  {
  }

  lemma SecondFacePoint(p0: Vec3, p1: Vec3, p2: Vec3, c: Vec2)
    requires p0 == Vec3(-0.6, 0.4, 0.0) && p1 == Vec3(0.6, -0.4, 0.0) && p2 == Vec3(0.6, 0.4, 0.0)
    ensures Add3(p0, Add3(Scale3(Sub3(p1, p0), c.x), Scale3(Sub3(p2, p0), c.y)))
         == QuadPoint(Vec2(c.x + c.y, 1.0 - c.x))
  {
  }

  /**
    Moving a triangle by m and taking a point by parametric coordinates
    commute: only x, y and z of the moved corners are read, and m is
    linear.
  */
  lemma TransformedTrianglePoint(m: Mat4, p0: Vec3, p1: Vec3, p2: Vec3, s: real, t: real)
    ensures var tri := Triangle(MulVec(m, Point(p0)), MulVec(m, Point(p1)), MulVec(m, Point(p2)));
            TrianglePoint(tri, s, t)
              == Xyz(MulVec(m, Point(Add3(p0, Add3(Scale3(Sub3(p1, p0), s), Scale3(Sub3(p2, p0), t))))))
  {
    var y := Add4(Scale4(Point(p1), s), Scale4(Point(p2), t));
    PointAffine(p0, p1, p2, s, t);
    MulVecLinear(m, Point(p0), y, 1.0 - s - t, 1.0);
    MulVecLinear(m, Point(p1), Point(p2), s, t);
    TriangleAffine(MulVec(m, Point(p0)), MulVec(m, Point(p1)), MulVec(m, Point(p2)), s, t);
  }

  /** The point with coordinates (s, t) as a weighted sum of the corners, in homogeneous coordinates. */
  lemma PointAffine(p0: Vec3, p1: Vec3, p2: Vec3, s: real, t: real)
    ensures Point(Add3(p0, Add3(Scale3(Sub3(p1, p0), s), Scale3(Sub3(p2, p0), t))))
         == Add4(Scale4(Point(p0), 1.0 - s - t), Scale4(Add4(Scale4(Point(p1), s), Scale4(Point(p2), t)), 1.0))
  {
    AffineRow(p0.x, p1.x, p2.x, s, t);
    AffineRow(p0.y, p1.y, p2.y, s, t);
    AffineRow(p0.z, p1.z, p2.z, s, t);
  }

  /** TrianglePoint as the same weighted sum of the (homogeneous) corners. */
  lemma TriangleAffine(q0: Vec4, q1: Vec4, q2: Vec4, s: real, t: real)
    ensures TrianglePoint(Triangle(q0, q1, q2), s, t)
         == Xyz(Add4(Scale4(q0, 1.0 - s - t), Scale4(Add4(Scale4(q1, s), Scale4(q2, t)), 1.0)))
  {
    AffineRow(q0.x, q1.x, q2.x, s, t);
    AffineRow(q0.y, q1.y, q2.y, s, t);
    AffineRow(q0.z, q1.z, q2.z, s, t);
  }

  /** a0 + s (a1 - a0) + t (a2 - a0) as a weighted sum of the corners. */
  lemma AffineRow(a0: real, a1: real, a2: real, s: real, t: real)
    ensures a0 + ((a1 - a0) * s + (a2 - a0) * t) == a0 * (1.0 - s - t) + (a1 * s + a2 * t) * 1.0
  {
  }

  /**
    What a reported hit means: the ray reaches, at parameter hitT, the
    point of the quad (moved by worldMat) whose texture coordinate is the
    reported UV, and that UV lies in the unit square.
  */
  lemma ReportedUvIsUnderCursor(scene: Scene, xpos: real, ypos: real, staleOrg: Vec3, staleEnd: Vec3,
                                invert: Mat4 -> Mat4)
    requires ValidWindow(scene.winW, scene.winH)
    requires Pick(scene, xpos, ypos, staleOrg, staleEnd, invert).Hit?
    ensures var org := CursorOrigin(scene, xpos, ypos, staleOrg, invert);
            var dir := CursorDirection(scene, xpos, ypos, staleOrg, staleEnd, invert);
            var rep := Pick(scene, xpos, ypos, staleOrg, staleEnd, invert);
            rep.index < FaceCount
            && RayPoint(org, dir, FaceHit(scene, org, dir, rep.index).hitT)
               == Xyz(MulVec(scene.worldMat, Point(QuadPoint(rep.uv))))
            && InUnitSquare(rep.uv)
  {
    var org := CursorOrigin(scene, xpos, ypos, staleOrg, invert);
    var dir := CursorDirection(scene, xpos, ypos, staleOrg, staleEnd, invert);
    var rep := Pick(scene, xpos, ypos, staleOrg, staleEnd, invert);
    PickSelectsLastRegistered(scene, xpos, ypos, staleOrg, staleEnd, invert);
    var i, c := rep.index, rep.coord;
    var tri := ViewTriangle(scene, i);
    RegistersIff(scene, org, dir, i);
    HitPointMatchesCoord(org, dir, tri, InfinityT);
    TransformedTrianglePoint(scene.worldMat, Corner(i, 0).pos, Corner(i, 1).pos, Corner(i, 2).pos, c.x, c.y);
    InterpolateIsTextureCoordinate(i, c);
    HitIsInFront(org, dir, tri, InfinityT);
    UvInUnitSquare(i, c);
  }

  // ---- the pick ray ----

  /**
    The pick ray lies under the cursor: when both unprojections succeed and
    invert really inverts projection * view, every point of the ray that
    projects at all lands on the cursor's window position.
  */
  lemma PickRayUnderCursor(scene: Scene, xpos: real, ypos: real, staleOrg: Vec3, staleEnd: Vec3,
                           invert: Mat4 -> Mat4, r: real)
    requires ValidWindow(scene.winW, scene.winH)
    requires var a := ViewProjection(scene.viewMat, scene.projMat);
             IsRightInverse(invert(a), a)
    requires var sc := ScreenCoord(xpos, ypos, scene.winH);
             UnProject(Vec3(sc.x, sc.y, -1.0), scene.viewMat, scene.projMat, scene.winW, scene.winH, invert).Some?
             && UnProject(Vec3(sc.x, sc.y, 1.0), scene.viewMat, scene.projMat, scene.winW, scene.winH, invert).Some?
    ensures var org := CursorOrigin(scene, xpos, ypos, staleOrg, invert);
            var dir := CursorDirection(scene, xpos, ypos, staleOrg, staleEnd, invert);
            var q := Project(RayPoint(org, dir, r), ViewProjection(scene.viewMat, scene.projMat));
            q.Some? ==>
              var w := WindowOf(q.value, scene.winW, scene.winH);
              w.x == xpos && w.y == scene.winH as real - ypos
  {
    var a := ViewProjection(scene.viewMat, scene.projMat);
    var sc := ScreenCoord(xpos, ypos, scene.winH);
    var near, far := Vec3(sc.x, sc.y, -1.0), Vec3(sc.x, sc.y, 1.0);
    var p0 := UnProject(near, scene.viewMat, scene.projMat, scene.winW, scene.winH, invert).value;
    var p1 := UnProject(far, scene.viewMat, scene.projMat, scene.winW, scene.winH, invert).value;
    var n0, n1 := Ndc(near, scene.winW, scene.winH), Ndc(far, scene.winW, scene.winH);
    var k0 := 1.0 / MulVec(invert(a), n0).w;
    var k1 := 1.0 / MulVec(invert(a), n1).w;
    UnProjectClip(near, scene.viewMat, scene.projMat, scene.winW, scene.winH, invert);
    UnProjectClip(far, scene.viewMat, scene.projMat, scene.winW, scene.winH, invert);
    assert CursorOrigin(scene, xpos, ypos, staleOrg, invert) == p0;
    assert CursorDirection(scene, xpos, ypos, staleOrg, staleEnd, invert) == Sub3(p1, p0);
    HomogeneousRayPoint(p0, p1, r);
    MulVecLinear(a, Point(p0), Point(p1), 1.0 - r, r);
    var clip := MulVec(a, Point(RayPoint(p0, Sub3(p1, p0), r)));
    if clip.w != 0.0 {
      MixedClipDivides(MulVec(a, Point(p0)), MulVec(a, Point(p1)), n0, n1, k0, k1, r, clip);
      WindowOfNdc(near, scene.winW, scene.winH);
    }
  }

  /** orig + r (end - orig) in homogeneous coordinates is (1 - r) orig + r end. */
  lemma HomogeneousRayPoint(p0: Vec3, p1: Vec3, r: real)
    ensures Point(RayPoint(p0, Sub3(p1, p0), r)) == Add4(Scale4(Point(p0), 1.0 - r), Scale4(Point(p1), r))
  {
    LerpRow(p0.x, p1.x, r);
    LerpRow(p0.y, p1.y, r);
    LerpRow(p0.z, p1.z, r);
  }

  lemma LerpRow(a0: real, a1: real, r: real)
    ensures a0 + (a1 - a0) * r == a0 * (1.0 - r) + a1 * r
  {
  }

  /**
    A mix of two clip points k0 n0 and k1 n1 whose NDC points n0 and n1
    agree in x and y divides back to that x and y.
  */
  lemma MixedClipDivides(c0: Vec4, c1: Vec4, n0: Vec4, n1: Vec4, k0: real, k1: real, r: real, clip: Vec4)
    requires c0 == Scale4(n0, k0) && c1 == Scale4(n1, k1)
    requires n0.x == n1.x && n0.y == n1.y && n0.w == 1.0 && n1.w == 1.0
    requires clip == Add4(Scale4(c0, 1.0 - r), Scale4(c1, r))
    requires clip.w != 0.0
    ensures clip.x / clip.w == n0.x && clip.y / clip.w == n0.y
  {
    PerspectiveDivide(n0.x, n1.x, n0.w, n1.w, k0, k1, r, clip.x, clip.w);
    PerspectiveDivide(n0.y, n1.y, n0.w, n1.w, k0, k1, r, clip.y, clip.w);
  }

  /**
    Two clip points with the same x over w, mixed with any weights whose
    w is nonzero, keep that x over w.
  */
  lemma PerspectiveDivide(a0: real, a1: real, w0: real, w1: real, k0: real, k1: real, r: real,
                          cx: real, cw: real)
    requires a0 == a1 && w0 == 1.0 && w1 == 1.0
    requires cx == a0 * k0 * (1.0 - r) + a1 * k1 * r
    requires cw == w0 * k0 * (1.0 - r) + w1 * k1 * r
    requires cw != 0.0
    ensures cx / cw == a0
  {
    assert cw == k0 * (1.0 - r) + k1 * r;
    assert cx == a0 * cw;
  }
}
