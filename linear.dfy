/**
  Small fixed-size vectors and 4x4 matrices over the reals: the subset of
  linmath.h that the picking code uses (vec2/vec3/vec4 add, sub, scale,
  inner and cross product, mat4x4_mul, mat4x4_mul_vec4).

  A matrix is stored the way linmath.h stores a mat4x4: as four columns,
  so that M[i][j] is row j of column i. Multiplying a matrix by a vector
  sums the columns weighted by the vector's components, and the product
  of two matrices has as its column i the first matrix times column i of
  the second.
*/
module Linear {

  datatype Vec2 = Vec2(x: real, y: real)
  datatype Vec3 = Vec3(x: real, y: real, z: real)
  datatype Vec4 = Vec4(x: real, y: real, z: real, w: real)

  /** A 4x4 matrix given by its columns. */
  datatype Mat4 = Mat4(c0: Vec4, c1: Vec4, c2: Vec4, c3: Vec4)

  // ---- vec2 ----

  function Add2(a: Vec2, b: Vec2): Vec2 { Vec2(a.x + b.x, a.y + b.y) }
  function Sub2(a: Vec2, b: Vec2): Vec2 { Vec2(a.x - b.x, a.y - b.y) }
  function Scale2(a: Vec2, k: real): Vec2 { Vec2(a.x * k, a.y * k) }

  // ---- vec3 ----

  function Add3(a: Vec3, b: Vec3): Vec3 { Vec3(a.x + b.x, a.y + b.y, a.z + b.z) }
  function Sub3(a: Vec3, b: Vec3): Vec3 { Vec3(a.x - b.x, a.y - b.y, a.z - b.z) }
  function Scale3(a: Vec3, k: real): Vec3 { Vec3(a.x * k, a.y * k, a.z * k) }

  function Dot3(a: Vec3, b: Vec3): real { a.x * b.x + a.y * b.y + a.z * b.z }

  /** The cross product; it is orthogonal to both of its arguments. */
  function Cross3(a: Vec3, b: Vec3): (n: Vec3)
    ensures Dot3(n, a) == 0.0 && Dot3(n, b) == 0.0
  {
    Vec3(a.y * b.z - a.z * b.y, a.z * b.x - a.x * b.z, a.x * b.y - a.y * b.x)
  }

  const Zero3: Vec3 := Vec3(0.0, 0.0, 0.0)

  // ---- vec4 ----

  function Add4(a: Vec4, b: Vec4): Vec4 { Vec4(a.x + b.x, a.y + b.y, a.z + b.z, a.w + b.w) }
  function Scale4(a: Vec4, k: real): Vec4 { Vec4(a.x * k, a.y * k, a.z * k, a.w * k) }

  /** The first three components: what linmath's vec3 operations see of a vec4. */
  function Xyz(v: Vec4): Vec3 { Vec3(v.x, v.y, v.z) }

  /** A position in homogeneous coordinates (w = 1). */
  function Point(p: Vec3): (h: Vec4)
    ensures Xyz(h) == p && h.w == 1.0
  {
    Vec4(p.x, p.y, p.z, 1.0)
  }

  // ---- mat4x4 ----

  /** mat4x4_mul_vec4: entry j of the result is the sum over i of M[i][j] * v[i]. */
  function MulVec(m: Mat4, v: Vec4): Vec4 {
    Vec4(m.c0.x * v.x + m.c1.x * v.y + m.c2.x * v.z + m.c3.x * v.w,
         m.c0.y * v.x + m.c1.y * v.y + m.c2.y * v.z + m.c3.y * v.w,
         m.c0.z * v.x + m.c1.z * v.y + m.c2.z * v.z + m.c3.z * v.w,
         m.c0.w * v.x + m.c1.w * v.y + m.c2.w * v.z + m.c3.w * v.w)
  }

  /** mat4x4_mul: column i of the product is a times column i of b. */
  function MatMul(a: Mat4, b: Mat4): Mat4 {
    Mat4(MulVec(a, b.c0), MulVec(a, b.c1), MulVec(a, b.c2), MulVec(a, b.c3))
  }

  const Identity: Mat4 :=
    Mat4(Vec4(1.0, 0.0, 0.0, 0.0), Vec4(0.0, 1.0, 0.0, 0.0),
         Vec4(0.0, 0.0, 1.0, 0.0), Vec4(0.0, 0.0, 0.0, 1.0))

  /** m undoes a when applied first: a * m is the identity. */
  predicate IsRightInverse(m: Mat4, a: Mat4) {
    MatMul(a, m) == Identity
  }

  // ---- facts ----

  lemma IdentityMulVec(v: Vec4)
    ensures MulVec(Identity, v) == v
  {
  }

  /** Matrix-vector multiplication is linear in the vector. */
  lemma MulVecLinear(m: Mat4, a: Vec4, b: Vec4, k: real, l: real)
    ensures MulVec(m, Add4(Scale4(a, k), Scale4(b, l)))
         == Add4(Scale4(MulVec(m, a), k), Scale4(MulVec(m, b), l))
  {
    LinearRowX(m, a, b, k, l);
    LinearRowY(m, a, b, k, l);
    LinearRowZ(m, a, b, k, l);
    LinearRowW(m, a, b, k, l);
  }

  lemma LinearRowX(m: Mat4, a: Vec4, b: Vec4, k: real, l: real)
    ensures MulVec(m, Add4(Scale4(a, k), Scale4(b, l))).x == Add4(Scale4(MulVec(m, a), k), Scale4(MulVec(m, b), l)).x
  {
    ScalarRow(m.c0.x, m.c1.x, m.c2.x, m.c3.x,
              Add4(Scale4(a, k), Scale4(b, l)).x, Add4(Scale4(a, k), Scale4(b, l)).y,
              Add4(Scale4(a, k), Scale4(b, l)).z, Add4(Scale4(a, k), Scale4(b, l)).w,
              a.x, a.y, a.z, a.w, b.x, b.y, b.z, b.w, MulVec(m, a).x, MulVec(m, b).x, k, l);
  }

  lemma LinearRowY(m: Mat4, a: Vec4, b: Vec4, k: real, l: real)
    ensures MulVec(m, Add4(Scale4(a, k), Scale4(b, l))).y == Add4(Scale4(MulVec(m, a), k), Scale4(MulVec(m, b), l)).y
  {
    ScalarRow(m.c0.y, m.c1.y, m.c2.y, m.c3.y,
              Add4(Scale4(a, k), Scale4(b, l)).x, Add4(Scale4(a, k), Scale4(b, l)).y,
              Add4(Scale4(a, k), Scale4(b, l)).z, Add4(Scale4(a, k), Scale4(b, l)).w,
              a.x, a.y, a.z, a.w, b.x, b.y, b.z, b.w, MulVec(m, a).y, MulVec(m, b).y, k, l);
  }

  lemma LinearRowZ(m: Mat4, a: Vec4, b: Vec4, k: real, l: real)
    ensures MulVec(m, Add4(Scale4(a, k), Scale4(b, l))).z == Add4(Scale4(MulVec(m, a), k), Scale4(MulVec(m, b), l)).z
  {
    ScalarRow(m.c0.z, m.c1.z, m.c2.z, m.c3.z,
              Add4(Scale4(a, k), Scale4(b, l)).x, Add4(Scale4(a, k), Scale4(b, l)).y,
              Add4(Scale4(a, k), Scale4(b, l)).z, Add4(Scale4(a, k), Scale4(b, l)).w,
              a.x, a.y, a.z, a.w, b.x, b.y, b.z, b.w, MulVec(m, a).z, MulVec(m, b).z, k, l);
  }

  lemma LinearRowW(m: Mat4, a: Vec4, b: Vec4, k: real, l: real)
    ensures MulVec(m, Add4(Scale4(a, k), Scale4(b, l))).w == Add4(Scale4(MulVec(m, a), k), Scale4(MulVec(m, b), l)).w
  {
    ScalarRow(m.c0.w, m.c1.w, m.c2.w, m.c3.w,
              Add4(Scale4(a, k), Scale4(b, l)).x, Add4(Scale4(a, k), Scale4(b, l)).y,
              Add4(Scale4(a, k), Scale4(b, l)).z, Add4(Scale4(a, k), Scale4(b, l)).w,
              a.x, a.y, a.z, a.w, b.x, b.y, b.z, b.w, MulVec(m, a).w, MulVec(m, b).w, k, l);
  }

  /** One row of MulVecLinear on plain reals. */
  lemma ScalarRow(p: real, q: real, r: real, s: real, x0: real, x1: real, x2: real, x3: real,
                  a0: real, a1: real, a2: real, a3: real, b0: real, b1: real, b2: real, b3: real,
                  ta: real, tb: real, k: real, l: real)
    requires x0 == a0 * k + b0 * l && x1 == a1 * k + b1 * l
    requires x2 == a2 * k + b2 * l && x3 == a3 * k + b3 * l
    requires ta == p * a0 + q * a1 + r * a2 + s * a3
    requires tb == p * b0 + q * b1 + r * b2 + s * b3
    ensures p * x0 + q * x1 + r * x2 + s * x3 == ta * k + tb * l
  {
  }

  lemma MulVecScale(m: Mat4, a: Vec4, k: real)
    ensures MulVec(m, Scale4(a, k)) == Scale4(MulVec(m, a), k)
  {
    ScaleRowX(m, a, k);
    ScaleRowY(m, a, k);
    ScaleRowZ(m, a, k);
    ScaleRowW(m, a, k);
  }

  lemma ScaleRowX(m: Mat4, a: Vec4, k: real)
    ensures MulVec(m, Scale4(a, k)).x == Scale4(MulVec(m, a), k).x
  {
    ScalarRow(m.c0.x, m.c1.x, m.c2.x, m.c3.x,
              Scale4(a, k).x, Scale4(a, k).y, Scale4(a, k).z, Scale4(a, k).w,
              a.x, a.y, a.z, a.w, 0.0, 0.0, 0.0, 0.0, MulVec(m, a).x, 0.0, k, 0.0);
  }

  lemma ScaleRowY(m: Mat4, a: Vec4, k: real)
    ensures MulVec(m, Scale4(a, k)).y == Scale4(MulVec(m, a), k).y
  {
    ScalarRow(m.c0.y, m.c1.y, m.c2.y, m.c3.y,
              Scale4(a, k).x, Scale4(a, k).y, Scale4(a, k).z, Scale4(a, k).w,
              a.x, a.y, a.z, a.w, 0.0, 0.0, 0.0, 0.0, MulVec(m, a).y, 0.0, k, 0.0);
  }

  lemma ScaleRowZ(m: Mat4, a: Vec4, k: real)
    ensures MulVec(m, Scale4(a, k)).z == Scale4(MulVec(m, a), k).z
  {
    ScalarRow(m.c0.z, m.c1.z, m.c2.z, m.c3.z,
              Scale4(a, k).x, Scale4(a, k).y, Scale4(a, k).z, Scale4(a, k).w,
              a.x, a.y, a.z, a.w, 0.0, 0.0, 0.0, 0.0, MulVec(m, a).z, 0.0, k, 0.0);
  }

  lemma ScaleRowW(m: Mat4, a: Vec4, k: real)
    ensures MulVec(m, Scale4(a, k)).w == Scale4(MulVec(m, a), k).w
  {
    ScalarRow(m.c0.w, m.c1.w, m.c2.w, m.c3.w,
              Scale4(a, k).x, Scale4(a, k).y, Scale4(a, k).z, Scale4(a, k).w,
              a.x, a.y, a.z, a.w, 0.0, 0.0, 0.0, 0.0, MulVec(m, a).w, 0.0, k, 0.0);
  }

  /** Applying a product applies its factors right to left. */
  lemma MulVecAssociative(a: Mat4, b: Mat4, v: Vec4)
    ensures MulVec(MatMul(a, b), v) == MulVec(a, MulVec(b, v))
  {
    AssociativeX(a, b, v);
    AssociativeY(a, b, v);
    AssociativeZ(a, b, v);
    AssociativeW(a, b, v);
  }

  lemma AssociativeX(a: Mat4, b: Mat4, v: Vec4)
    ensures MulVec(MatMul(a, b), v).x == MulVec(a, MulVec(b, v)).x
  {
    AssociativeRow(a.c0.x, a.c1.x, a.c2.x, a.c3.x,
                   b.c0.x, b.c0.y, b.c0.z, b.c0.w, b.c1.x, b.c1.y, b.c1.z, b.c1.w,
                   b.c2.x, b.c2.y, b.c2.z, b.c2.w, b.c3.x, b.c3.y, b.c3.z, b.c3.w,
                   v.x, v.y, v.z, v.w,
                   MatMul(a, b).c0.x, MatMul(a, b).c1.x, MatMul(a, b).c2.x, MatMul(a, b).c3.x,
                   MulVec(b, v).x, MulVec(b, v).y, MulVec(b, v).z, MulVec(b, v).w);
  }

  lemma AssociativeY(a: Mat4, b: Mat4, v: Vec4)
    ensures MulVec(MatMul(a, b), v).y == MulVec(a, MulVec(b, v)).y
  {
    AssociativeRow(a.c0.y, a.c1.y, a.c2.y, a.c3.y,
                   b.c0.x, b.c0.y, b.c0.z, b.c0.w, b.c1.x, b.c1.y, b.c1.z, b.c1.w,
                   b.c2.x, b.c2.y, b.c2.z, b.c2.w, b.c3.x, b.c3.y, b.c3.z, b.c3.w,
                   v.x, v.y, v.z, v.w,
                   MatMul(a, b).c0.y, MatMul(a, b).c1.y, MatMul(a, b).c2.y, MatMul(a, b).c3.y,
                   MulVec(b, v).x, MulVec(b, v).y, MulVec(b, v).z, MulVec(b, v).w);
  }

  lemma AssociativeZ(a: Mat4, b: Mat4, v: Vec4)
    ensures MulVec(MatMul(a, b), v).z == MulVec(a, MulVec(b, v)).z
  {
    AssociativeRow(a.c0.z, a.c1.z, a.c2.z, a.c3.z,
                   b.c0.x, b.c0.y, b.c0.z, b.c0.w, b.c1.x, b.c1.y, b.c1.z, b.c1.w,
                   b.c2.x, b.c2.y, b.c2.z, b.c2.w, b.c3.x, b.c3.y, b.c3.z, b.c3.w,
                   v.x, v.y, v.z, v.w,
                   MatMul(a, b).c0.z, MatMul(a, b).c1.z, MatMul(a, b).c2.z, MatMul(a, b).c3.z,
                   MulVec(b, v).x, MulVec(b, v).y, MulVec(b, v).z, MulVec(b, v).w);
  }

  lemma AssociativeW(a: Mat4, b: Mat4, v: Vec4)
    ensures MulVec(MatMul(a, b), v).w == MulVec(a, MulVec(b, v)).w
  {
    AssociativeRow(a.c0.w, a.c1.w, a.c2.w, a.c3.w,
                   b.c0.x, b.c0.y, b.c0.z, b.c0.w, b.c1.x, b.c1.y, b.c1.z, b.c1.w,
                   b.c2.x, b.c2.y, b.c2.z, b.c2.w, b.c3.x, b.c3.y, b.c3.z, b.c3.w,
                   v.x, v.y, v.z, v.w,
                   MatMul(a, b).c0.w, MatMul(a, b).c1.w, MatMul(a, b).c2.w, MatMul(a, b).c3.w,
                   MulVec(b, v).x, MulVec(b, v).y, MulVec(b, v).z, MulVec(b, v).w);
  }

  /** One row of MulVecAssociative on plain reals: (r B) v == r (B v). */
  lemma AssociativeRow(r0: real, r1: real, r2: real, r3: real,
                       b00: real, b01: real, b02: real, b03: real, b10: real, b11: real, b12: real, b13: real,
                       b20: real, b21: real, b22: real, b23: real, b30: real, b31: real, b32: real, b33: real,
                       v0: real, v1: real, v2: real, v3: real,
                       rb0: real, rb1: real, rb2: real, rb3: real, bw0: real, bw1: real, bw2: real, bw3: real)
    requires rb0 == r0 * b00 + r1 * b01 + r2 * b02 + r3 * b03
    requires rb1 == r0 * b10 + r1 * b11 + r2 * b12 + r3 * b13
    requires rb2 == r0 * b20 + r1 * b21 + r2 * b22 + r3 * b23
    requires rb3 == r0 * b30 + r1 * b31 + r2 * b32 + r3 * b33
    requires bw0 == b00 * v0 + b10 * v1 + b20 * v2 + b30 * v3
    requires bw1 == b01 * v0 + b11 * v1 + b21 * v2 + b31 * v3
    requires bw2 == b02 * v0 + b12 * v1 + b22 * v2 + b32 * v3
    requires bw3 == b03 * v0 + b13 * v1 + b23 * v2 + b33 * v3
    ensures rb0 * v0 + rb1 * v1 + rb2 * v2 + rb3 * v3 == r0 * bw0 + r1 * bw1 + r2 * bw2 + r3 * bw3
  {
  }

  /** A right inverse of a sends every vector to one that a maps back. */
  lemma RightInverseUndoes(m: Mat4, a: Mat4, v: Vec4)
    requires IsRightInverse(m, a)
    ensures MulVec(a, MulVec(m, v)) == v
  {
    MulVecAssociative(a, m, v);
    IdentityMulVec(v);
  }

  /** Lagrange's identity: |u x v|^2 = |u|^2 |v|^2 - (u.v)^2. */
  lemma LagrangeIdentity(u: Vec3, v: Vec3)
    ensures Dot3(Cross3(u, v), Cross3(u, v)) == Dot3(u, u) * Dot3(v, v) - Dot3(u, v) * Dot3(u, v)
  {
  }

  /** The BAC-CAB rule: a x (b x c) = b (a.c) - c (a.b). */
  lemma TripleProduct(a: Vec3, b: Vec3, c: Vec3)
    ensures Cross3(a, Cross3(b, c)) == Sub3(Scale3(b, Dot3(a, c)), Scale3(c, Dot3(a, b)))
  {
    TripleX(a, b, c);
    TripleY(a, b, c);
    TripleZ(a, b, c);
  }

  lemma TripleX(a: Vec3, b: Vec3, c: Vec3)
    ensures Cross3(a, Cross3(b, c)).x == Sub3(Scale3(b, Dot3(a, c)), Scale3(c, Dot3(a, b))).x
  {
    var n := Cross3(b, c);
    TripleRow(a.x, a.y, a.z, b.x, b.y, b.z, c.x, c.y, c.z, n.y, n.z, Dot3(a, c), Dot3(a, b));
  }

  lemma TripleY(a: Vec3, b: Vec3, c: Vec3)
    ensures Cross3(a, Cross3(b, c)).y == Sub3(Scale3(b, Dot3(a, c)), Scale3(c, Dot3(a, b))).y
  {
    var n := Cross3(b, c);
    TripleRow(a.y, a.z, a.x, b.y, b.z, b.x, c.y, c.z, c.x, n.z, n.x, Dot3(a, c), Dot3(a, b));
  }

  lemma TripleZ(a: Vec3, b: Vec3, c: Vec3)
    ensures Cross3(a, Cross3(b, c)).z == Sub3(Scale3(b, Dot3(a, c)), Scale3(c, Dot3(a, b))).z
  {
    var n := Cross3(b, c);
    TripleRow(a.z, a.x, a.y, b.z, b.x, b.y, c.z, c.x, c.y, n.x, n.y, Dot3(a, c), Dot3(a, b));
  }

  /** The first component of TripleProduct, on plain reals (n = b x c). */
  lemma TripleRow(a0: real, a1: real, a2: real, b0: real, b1: real, b2: real,
                  c0: real, c1: real, c2: real, n1: real, n2: real, ac: real, ab: real)
    requires n1 == b2 * c0 - b0 * c2 && n2 == b0 * c1 - b1 * c0
    requires ac == a0 * c0 + a1 * c1 + a2 * c2 && ab == a0 * b0 + a1 * b1 + a2 * b2
    ensures a1 * n2 - a2 * n1 == b0 * ac - c0 * ab
  {
  }

  /**
    A vector orthogonal to u, v and u x v is zero once u x v is not:
    the three directions span space.
  */
  lemma OrthogonalToAllIsZero(e: Vec3, u: Vec3, v: Vec3)
    requires Dot3(Cross3(u, v), Cross3(u, v)) != 0.0
    requires Dot3(e, u) == 0.0 && Dot3(e, v) == 0.0 && Dot3(e, Cross3(u, v)) == 0.0
    ensures e == Zero3
  {
    var n := Cross3(u, v);
    TripleProduct(e, u, v);
    assert Cross3(e, n) == Zero3;
    var g, ne := Dot3(n, n), Dot3(n, e);
    assert ne == 0.0;
    TripleProduct(n, e, n);
    assert Cross3(n, Cross3(e, n)) == Zero3;
    assert Sub3(Scale3(e, g), Scale3(n, ne)) == Zero3;
    ScaleByZero(n, ne);
    assert Scale3(e, g) == Sub3(Scale3(e, g), Zero3);
    UnscaleZero(e, g);
  }

  lemma ScaleByZero(n: Vec3, k: real)
    requires k == 0.0
    ensures Scale3(n, k) == Zero3
  {
  }

  /** Only the zero vector scales to zero by a non-zero factor. */
  lemma UnscaleZero(e: Vec3, g: real)
    requires g != 0.0
    requires Scale3(e, g) == Zero3
    ensures e == Zero3
  {
    CancelFactor(e.x, g);
    CancelFactor(e.y, g);
    CancelFactor(e.z, g);
  }

  lemma CancelFactor(a: real, g: real)
    requires a * g == 0.0 && g != 0.0
    ensures a == 0.0
  {
  }

  lemma DotSymmetric(a: Vec3, b: Vec3)
    ensures Dot3(a, b) == Dot3(b, a)
  {
  }

  /** The inner product distributes over w - (s u + t v). */
  lemma DotCombination(x: Vec3, w: Vec3, u: Vec3, v: Vec3, s: real, t: real)
    ensures Dot3(Sub3(w, Add3(Scale3(u, s), Scale3(v, t))), x)
         == Dot3(w, x) - s * Dot3(u, x) - t * Dot3(v, x)
  {
  }

  /** Subtracting the base point of a + x gives back x. */
  lemma OffsetFromBase(a: Vec3, x: Vec3)
    ensures Sub3(Add3(a, x), a) == x
  {
  }

  /** The dot product is linear in its first argument. */
  lemma DotSpan(u: Vec3, v: Vec3, s: real, t: real, x: Vec3)
    ensures Dot3(Add3(Scale3(u, s), Scale3(v, t)), x) == s * Dot3(u, x) + t * Dot3(v, x)
  {
  }

  /** Shearing the first factor along the second keeps the cross product: (u - v) x u = u x v. */
  lemma CrossShear(u: Vec3, v: Vec3)
    ensures Cross3(Sub3(u, v), u) == Cross3(u, v)
  {
  }

  /** The dot product distributes over a difference in its second argument. */
  lemma DotSub(n: Vec3, a: Vec3, b: Vec3)
    ensures Dot3(n, Sub3(a, b)) == Dot3(n, a) - Dot3(n, b)
  {
  }

  /** Matrix-vector multiplication distributes over a sum of vectors. */
  lemma MulVecAdd(m: Mat4, a: Vec4, b: Vec4)
    ensures MulVec(m, Add4(a, b)) == Add4(MulVec(m, a), MulVec(m, b))
  {
    MulVecLinear(m, a, b, 1.0, 1.0);
    assert Scale4(a, 1.0) == a && Scale4(b, 1.0) == b;
    assert Scale4(MulVec(m, a), 1.0) == MulVec(m, a) && Scale4(MulVec(m, b), 1.0) == MulVec(m, b);
  }
}
