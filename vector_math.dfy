/**
 * Three-dimensional vectors over the reals, and Rodrigues' axis-angle
 * rotation in the matrix form that main.c builds.
 *
 * The C code computes with `float`; here the components are exact reals,
 * and cos(theta), sin(theta) and the square root taken by `normalise` are
 * parameters (`ct`, `st`, `n`) rather than library calls.
 *
 * The vector lemmas each rest on one identity between real numbers, stated
 * over the components (the lemmas whose names end in `Scalar`), so that the
 * solver works on plain polynomial arithmetic.
 */
module VectorMath {

  datatype Vector = Vector(x: real, y: real, z: real)

  /** A 3x3 matrix, row by row. */
  datatype Matrix = Matrix(r0: Vector, r1: Vector, r2: Vector)

  /** add_vector: res = a + b. */
  function Add(a: Vector, b: Vector): Vector {
    Vector(a.x + b.x, a.y + b.y, a.z + b.z)
  }

  /** sub_vector: res = a - b. */
  function Sub(a: Vector, b: Vector): Vector {
    Vector(a.x - b.x, a.y - b.y, a.z - b.z)
  }

  function Scale(k: real, v: Vector): Vector {
    Vector(k * v.x, k * v.y, k * v.z)
  }

  function Dot(a: Vector, b: Vector): real {
    a.x * b.x + a.y * b.y + a.z * b.z
  }

  function Cross(a: Vector, b: Vector): Vector {
    Vector(a.y * b.z - a.z * b.y, a.z * b.x - a.x * b.z, a.x * b.y - a.y * b.x)
  }

  /** The squared length: what `normalise` sums before taking the root. */
  function NormSq(v: Vector): real {
    Dot(v, v)
  }

  /** The squared distance between two positions. */
  function DistSq(p: Vector, q: Vector): real {
    NormSq(Sub(p, q))
  }

  function Apply(m: Matrix, p: Vector): Vector {
    Vector(Dot(m.r0, p), Dot(m.r1, p), Dot(m.r2, p))
  }

  /** Subtracting and adding back the same offset gives the point back. */
  lemma SubAdd(p: Vector, o: Vector)
    ensures Add(Sub(p, o), o) == p && Sub(Add(p, o), o) == p
  {
  }

  /** The linear combination i u + j v + k w. */
  function Lin(i: real, u: Vector, j: real, v: Vector, k: real, w: Vector): Vector {
    Add(Add(Scale(i, u), Scale(j, v)), Scale(k, w))
  }

  // ---------------------------------------------------------------------
  // Identities of vector algebra. Each rests on one identity between real
  // numbers, stated over the components (the lemmas named `...Scalar`), so
  // that the solver works on plain polynomial arithmetic.

  lemma DotLin(b: Vector, i: real, u: Vector, j: real, v: Vector, k: real, w: Vector)
    ensures Dot(b, Lin(i, u, j, v, k, w)) == i * Dot(b, u) + j * Dot(b, v) + k * Dot(b, w)
  {
    var r := Lin(i, u, j, v, k, w);
    DotLinScalar(b.x, b.y, b.z, i, u.x, u.y, u.z, j, v.x, v.y, v.z, k, w.x, w.y, w.z,
                 r.x, r.y, r.z, Dot(b, r), Dot(b, u), Dot(b, v), Dot(b, w));
  }

  lemma DotLinScalar(b1: real, b2: real, b3: real, i: real, ux: real, uy: real, uz: real,
                     j: real, vx: real, vy: real, vz: real, k: real, wx: real, wy: real, wz: real,
                     rx: real, ry: real, rz: real, br: real, bu: real, bv: real, bw: real)
    requires rx == i * ux + j * vx + k * wx && ry == i * uy + j * vy + k * wy && rz == i * uz + j * vz + k * wz
    requires br == b1 * rx + b2 * ry + b3 * rz
    requires bu == b1 * ux + b2 * uy + b3 * uz && bv == b1 * vx + b2 * vy + b3 * vz
    requires bw == b1 * wx + b2 * wy + b3 * wz
    ensures br == i * bu + j * bv + k * bw
  {
  }

  lemma CrossLin(b: Vector, i: real, u: Vector, j: real, v: Vector, k: real, w: Vector)
    ensures Cross(b, Lin(i, u, j, v, k, w)) == Lin(i, Cross(b, u), j, Cross(b, v), k, Cross(b, w))
  {
    var r := Lin(i, u, j, v, k, w);
    var e, cu, cv, cw := Cross(b, r), Cross(b, u), Cross(b, v), Cross(b, w);
    var l := Lin(i, cu, j, cv, k, cw);
    CrossLinX(b, i, u, j, v, k, w);
    CrossLinX(Cycle(b), i, Cycle(u), j, Cycle(v), k, Cycle(w));
    CrossLinX(Cycle(Cycle(b)), i, Cycle(Cycle(u)), j, Cycle(Cycle(v)), k, Cycle(Cycle(w)));
    assert e.x == l.x && e.y == l.y && e.z == l.z;
  }

  /** The coordinates rotated cyclically, so one lemma serves all three. */
  function Cycle(v: Vector): Vector {
    Vector(v.y, v.z, v.x)
  }

  lemma CrossLinX(b: Vector, i: real, u: Vector, j: real, v: Vector, k: real, w: Vector)
    ensures Cross(b, Lin(i, u, j, v, k, w)).x == i * Cross(b, u).x + j * Cross(b, v).x + k * Cross(b, w).x
  {
    var r := Lin(i, u, j, v, k, w);
    LinComponents(i, u, j, v, k, w);
    CrossLinScalar(b.y, b.z, i, u.y, u.z, j, v.y, v.z, k, w.y, w.z, r.y, r.z,
                   Cross(b, r).x, Cross(b, u).x, Cross(b, v).x, Cross(b, w).x);
  }

  /** The coordinates of a linear combination. */
  lemma LinComponents(i: real, u: Vector, j: real, v: Vector, k: real, w: Vector)
    ensures Lin(i, u, j, v, k, w).x == i * u.x + j * v.x + k * w.x
    ensures Lin(i, u, j, v, k, w).y == i * u.y + j * v.y + k * w.y
    ensures Lin(i, u, j, v, k, w).z == i * u.z + j * v.z + k * w.z
  {
  }

  /** One component of CrossLin: the component built from the other two. */
  lemma CrossLinScalar(b1: real, b2: real, i: real, u1: real, u2: real, j: real, v1: real, v2: real,
                       k: real, w1: real, w2: real, r1: real, r2: real, e: real, cu: real, cv: real, cw: real)
    requires r1 == i * u1 + j * v1 + k * w1 && r2 == i * u2 + j * v2 + k * w2
    requires e == b1 * r2 - b2 * r1
    requires cu == b1 * u2 - b2 * u1 && cv == b1 * v2 - b2 * v1 && cw == b1 * w2 - b2 * w1
    ensures e == i * cu + j * cv + k * cw
  {
  }

  lemma CrossSelf(a: Vector)
    ensures Cross(a, a) == Vector(0.0, 0.0, 0.0)
  {
  }

  /** a x (a x p) = (a . p) a - |a|^2 p. */
  lemma CrossCross(a: Vector, p: Vector)
    ensures Cross(a, Cross(a, p)) == Sub(Scale(Dot(a, p), a), Scale(NormSq(a), p))
  {
    var w := Cross(a, p);
    var e := Cross(a, w);
    CrossCrossScalar(a.x, a.y, a.z, p.x, p.y, p.z, w.x, w.y, w.z, e.x, e.y, e.z, Dot(a, p), NormSq(a));
  }

  lemma CrossCrossScalar(ax: real, ay: real, az: real, px: real, py: real, pz: real,
                         wx: real, wy: real, wz: real, ex: real, ey: real, ez: real, d: real, m: real)
    requires wx == ay * pz - az * py && wy == az * px - ax * pz && wz == ax * py - ay * px
    requires ex == ay * wz - az * wy && ey == az * wx - ax * wz && ez == ax * wy - ay * wx
    requires d == ax * px + ay * py + az * pz && m == ax * ax + ay * ay + az * az
    ensures ex == d * ax - m * px && ey == d * ay - m * py && ez == d * az - m * pz
  {
  }

  /** a x p is orthogonal to both a and p. */
  lemma CrossOrthogonal(a: Vector, p: Vector)
    ensures Dot(a, Cross(a, p)) == 0.0 && Dot(p, Cross(a, p)) == 0.0
  {
    var w := Cross(a, p);
    CrossOrthogonalScalar(a.x, a.y, a.z, p.x, p.y, p.z, w.x, w.y, w.z, Dot(a, w), Dot(p, w));
  }

  lemma CrossOrthogonalScalar(ax: real, ay: real, az: real, px: real, py: real, pz: real,
                              wx: real, wy: real, wz: real, aw: real, pw: real)
    requires wx == ay * pz - az * py && wy == az * px - ax * pz && wz == ax * py - ay * px
    requires aw == ax * wx + ay * wy + az * wz && pw == px * wx + py * wy + pz * wz
    ensures aw == 0.0 && pw == 0.0
  {
  }

  /** Lagrange's identity |a x p|^2 = |a|^2 |p|^2 - (a . p)^2. */
  lemma Lagrange(a: Vector, p: Vector)
    ensures NormSq(Cross(a, p)) == NormSq(a) * NormSq(p) - Dot(a, p) * Dot(a, p)
  {
    var w := Cross(a, p);
    LagrangeScalar(a.x, a.y, a.z, p.x, p.y, p.z, w.x, w.y, w.z, NormSq(w), NormSq(a), NormSq(p), Dot(a, p));
  }

  lemma LagrangeScalar(ax: real, ay: real, az: real, px: real, py: real, pz: real,
                       wx: real, wy: real, wz: real, W: real, A: real, P: real, d: real)
    requires wx == ay * pz - az * py && wy == az * px - ax * pz && wz == ax * py - ay * px
    requires W == wx * wx + wy * wy + wz * wz && A == ax * ax + ay * ay + az * az
    requires P == px * px + py * py + pz * pz && d == ax * px + ay * py + az * pz
    ensures W == A * P - d * d
  {
  }

  /** |i u + j v + k w|^2, expanded. */
  lemma NormSqLin(i: real, u: Vector, j: real, v: Vector, k: real, w: Vector)
    ensures NormSq(Lin(i, u, j, v, k, w))
         == i * i * NormSq(u) + j * j * NormSq(v) + k * k * NormSq(w)
          + 2.0 * i * j * Dot(u, v) + 2.0 * i * k * Dot(u, w) + 2.0 * j * k * Dot(v, w)
  {
    var r := Lin(i, u, j, v, k, w);
    NormSqLinScalar(i, u.x, u.y, u.z, j, v.x, v.y, v.z, k, w.x, w.y, w.z, r.x, r.y, r.z,
                    NormSq(r), NormSq(u), NormSq(v), NormSq(w), Dot(u, v), Dot(u, w), Dot(v, w));
  }

  lemma NormSqLinScalar(i: real, ux: real, uy: real, uz: real, j: real, vx: real, vy: real, vz: real,
                        k: real, wx: real, wy: real, wz: real, rx: real, ry: real, rz: real,
                        R: real, U: real, V: real, W: real, uv: real, uw: real, vw: real)
    requires rx == i * ux + j * vx + k * wx && ry == i * uy + j * vy + k * wy && rz == i * uz + j * vz + k * wz
    requires R == rx * rx + ry * ry + rz * rz
    requires U == ux * ux + uy * uy + uz * uz && V == vx * vx + vy * vy + vz * vz
    requires W == wx * wx + wy * wy + wz * wz
    requires uv == ux * vx + uy * vy + uz * vz && uw == ux * wx + uy * wy + uz * wz
    requires vw == vx * wx + vy * wy + vz * wz
    ensures R == i * i * U + j * j * V + k * k * W + 2.0 * i * j * uv + 2.0 * i * k * uw + 2.0 * j * k * vw
  {
  }

  // ---------------------------------------------------------------------
  // normalise

  /**
   * normalise: each component divided by the length `n`, given as the
   * positive root of the squared length. A zero vector has no such root,
   * which is the division by zero the C code does not guard against.
   */
  function Normalise(v: Vector, n: real): (u: Vector)
    requires n > 0.0 && n * n == NormSq(v)
    ensures NormSq(u) == 1.0
    ensures Scale(n, u) == v
  {
    var u := Vector(v.x / n, v.y / n, v.z / n);
    assert n * u.x == v.x && n * u.y == v.y && n * u.z == v.z;
    NormSqScale(n, u);
    UnitFactor(n, NormSq(u), NormSq(v));
    u
  }

  lemma NormSqScale(k: real, u: Vector)
    ensures NormSq(Scale(k, u)) == (k * k) * NormSq(u)
  {
  }

  /**
   * If n*n times s is n*n again, with n positive, then s is one. Each
   * product is given a name once and the comparisons are made between the
   * names, which keeps the solver's reasoning linear.
   */
  lemma UnitFactor(n: real, s: real, t: real)
    requires n > 0.0 && n * n == t && t == (n * n) * s
    ensures s == 1.0
  {
    var square, scaled := n * n, (n * n) * s;
    assert square == t;
    assert scaled == t;
    if s > 1.0 {
      ScaledAbove(n, s, square, scaled);
    } else if s < 1.0 {
      ScaledBelow(n, s, square, scaled);
    }
  }

  lemma ScaledAbove(n: real, s: real, square: real, scaled: real)
    requires n > 0.0 && s > 1.0 && square == n * n && scaled == (n * n) * s
    ensures scaled > square
  {
    PositiveProduct(n, n, square);
    FactorSquare(n, s, square, scaled);
    ProductAbove(square, s, scaled);
  }

  lemma ScaledBelow(n: real, s: real, square: real, scaled: real)
    requires n > 0.0 && s < 1.0 && square == n * n && scaled == (n * n) * s
    ensures scaled < square
  {
    PositiveProduct(n, n, square);
    FactorSquare(n, s, square, scaled);
    ProductBelow(square, s, scaled);
  }

  lemma PositiveProduct(a: real, b: real, c: real)
    requires a > 0.0 && b > 0.0 && c == a * b
    ensures c > 0.0
  {
  }

  lemma FactorSquare(n: real, s: real, square: real, scaled: real)
    requires square == n * n && scaled == (n * n) * s
    ensures scaled == square * s
  {
  }

  lemma ProductAbove(a: real, s: real, c: real)
    requires a > 0.0 && s > 1.0 && c == a * s
    ensures c > a
  {
  }

  lemma ProductBelow(a: real, s: real, c: real)
    requires a > 0.0 && s < 1.0 && c == a * s
    ensures c < a
  {
  }

  // ---------------------------------------------------------------------
  // rodrigues_rotation

  /** A diagonal entry of the rotation matrix: ct + u*u*(1 - ct). */
  function Diag(ct: real, u: real): real {
    ct + u * u * (1.0 - ct)
  }

  /** An off-diagonal entry: w*st + u*v*(1 - ct), with `w` carrying its sign. */
  function Off(ct: real, st: real, u: real, v: real, w: real): real {
    w * st + u * v * (1.0 - ct)
  }

  /**
   * The matrix R that rodrigues_rotation fills in from the unit axis `a`,
   * `ct` = cos(theta) and `st` = sin(theta), entry by entry as main.c
   * writes them (for instance R[0][1] = a.x*a.y*(1-ct) - a.z*st).
   */
  function RotationMatrix(a: Vector, ct: real, st: real): Matrix {
    Matrix(
      Vector(Diag(ct, a.x), Off(ct, st, a.x, a.y, -a.z), Off(ct, st, a.x, a.z, a.y)),
      Vector(Off(ct, st, a.x, a.y, a.z), Diag(ct, a.y), Off(ct, st, a.y, a.z, -a.x)),
      Vector(Off(ct, st, a.x, a.z, -a.y), Off(ct, st, a.y, a.z, a.x), Diag(ct, a.z)))
  }

  /** rodrigues_rotation: R applied to the original, unmodified point. */
  function Rodrigues(p: Vector, a: Vector, ct: real, st: real): Vector {
    Apply(RotationMatrix(a, ct, st), p)
  }

  /** The vector form ct p + st (a x p) + (1 - ct)(a . p) a of the rotation. */
  function RotationVectorForm(p: Vector, a: Vector, ct: real, st: real): Vector {
    Lin(ct, p, st, Cross(a, p), (1.0 - ct) * Dot(a, p), a)
  }

  /** The matrix of main.c is the textbook vector form of Rodrigues' formula. */
  lemma RodriguesVectorForm(p: Vector, a: Vector, ct: real, st: real)
    ensures Rodrigues(p, a, ct, st) == RotationVectorForm(p, a, ct, st)
  {
    var w, d, k, r, q := RowsHold(p, a, ct, st);
    var m := RotationMatrix(a, ct, st);
    RowScalar(p.x, p.y, p.z, a.x, a.y, a.z, ct, st, d, k, w.x, m.r0.x, m.r0.y, m.r0.z, r.x, q.x);
    RowScalar(p.y, p.z, p.x, a.y, a.z, a.x, ct, st, d, k, w.y, m.r1.y, m.r1.z, m.r1.x, r.y, q.y);
    RowScalar(p.z, p.x, p.y, a.z, a.x, a.y, ct, st, d, k, w.z, m.r2.z, m.r2.x, m.r2.y, r.z, q.z);
  }

  /** The entries of the matrix and of the vector form, row by row. */
  lemma RowsHold(p: Vector, a: Vector, ct: real, st: real)
    returns (w: Vector, d: real, k: real, r: Vector, q: Vector)
    ensures r == Rodrigues(p, a, ct, st) && q == RotationVectorForm(p, a, ct, st)
    ensures var m := RotationMatrix(a, ct, st);
      && RowFacts(p.x, p.y, p.z, a.x, a.y, a.z, ct, st, d, k, w.x, m.r0.x, m.r0.y, m.r0.z, r.x, q.x)
      && RowFacts(p.y, p.z, p.x, a.y, a.z, a.x, ct, st, d, k, w.y, m.r1.y, m.r1.z, m.r1.x, r.y, q.y)
      && RowFacts(p.z, p.x, p.y, a.z, a.x, a.y, ct, st, d, k, w.z, m.r2.z, m.r2.x, m.r2.y, r.z, q.z)
  {
    w, d := Cross(a, p), Dot(a, p);
    k := (1.0 - ct) * Dot(a, p);
    var m := RotationMatrix(a, ct, st);
    r, q := Apply(m, p), Lin(ct, p, st, w, k, a);
    LinComponents(ct, p, st, w, k, a);
    ApplyComponents(m, p);
  }

  lemma ApplyComponents(m: Matrix, p: Vector)
    ensures Apply(m, p).x == m.r0.x * p.x + m.r0.y * p.y + m.r0.z * p.z
    ensures Apply(m, p).y == m.r1.x * p.x + m.r1.y * p.y + m.r1.z * p.z
    ensures Apply(m, p).z == m.r2.x * p.x + m.r2.y * p.y + m.r2.z * p.z
  {
  }

  /**
   * One row of RodriguesVectorForm; the three rows are this one with the
   * coordinates permuted cyclically.
   */
  predicate RowFacts(p1: real, p2: real, p3: real, a1: real, a2: real, a3: real, c: real, s: real,
                     d: real, k: real, w1: real, mA: real, mB: real, mC: real, r1: real, q1: real)
  {
    && d == a1 * p1 + a2 * p2 + a3 * p3 && k == (1.0 - c) * d
    && w1 == a2 * p3 - a3 * p2
    && mA == Diag(c, a1)
    && (mB == Off(c, s, a1, a2, -a3) || mB == Off(c, s, a2, a1, -a3))
    && (mC == Off(c, s, a1, a3, a2) || mC == Off(c, s, a3, a1, a2))
    && r1 == mA * p1 + mB * p2 + mC * p3
    && q1 == c * p1 + s * w1 + k * a1
  }

  lemma RowScalar(p1: real, p2: real, p3: real, a1: real, a2: real, a3: real, c: real, s: real,
                  d: real, k: real, w1: real, mA: real, mB: real, mC: real, r1: real, q1: real)
    requires RowFacts(p1, p2, p3, a1, a2, a3, c, s, d, k, w1, mA, mB, mC, r1, q1)
    ensures r1 == q1
  {
  }

  /** At theta = 0 the rotation is the identity, whatever the axis. */
  lemma RodriguesIdentity(p: Vector, a: Vector)
    ensures Rodrigues(p, a, 1.0, 0.0) == p
  {
  }

  /** Every matrix product is linear, so rotation commutes with differences. */
  lemma ApplySub(m: Matrix, p: Vector, q: Vector)
    ensures Apply(m, Sub(p, q)) == Sub(Apply(m, p), Apply(m, q))
  {
    var d := Sub(p, q);
    LinearScalar(m.r0.x, m.r0.y, m.r0.z, p.x, p.y, p.z, q.x, q.y, q.z, d.x, d.y, d.z);
    LinearScalar(m.r1.x, m.r1.y, m.r1.z, p.x, p.y, p.z, q.x, q.y, q.z, d.x, d.y, d.z);
    LinearScalar(m.r2.x, m.r2.y, m.r2.z, p.x, p.y, p.z, q.x, q.y, q.z, d.x, d.y, d.z);
  }

  lemma LinearScalar(m0: real, m1: real, m2: real, px: real, py: real, pz: real,
                     qx: real, qy: real, qz: real, dx: real, dy: real, dz: real)
    requires dx == px - qx && dy == py - qy && dz == pz - qz
    ensures m0 * dx + m1 * dy + m2 * dz == (m0 * px + m1 * py + m2 * pz) - (m0 * qx + m1 * qy + m2 * qz)
  {
  }

  /** Points on a unit axis are left where they are, for every angle. */
  lemma RodriguesFixesAxis(k: real, a: Vector, ct: real, st: real)
    requires NormSq(a) == 1.0
    ensures Rodrigues(Scale(k, a), a, ct, st) == Scale(k, a)
  {
    var p := Scale(k, a);
    RodriguesVectorForm(p, a, ct, st);
    var w, d := Cross(a, p), Dot(a, p);
    CrossScaleSelf(k, a);
    DotScaleSelf(k, a);
    var q := RotationVectorForm(p, a, ct, st);
    var kk := (1.0 - ct) * d;
    FixesAxisScalar(k, ct, st, d, NormSq(a), kk, p.x, w.x, a.x, q.x);
    FixesAxisScalar(k, ct, st, d, NormSq(a), kk, p.y, w.y, a.y, q.y);
    FixesAxisScalar(k, ct, st, d, NormSq(a), kk, p.z, w.z, a.z, q.z);
  }

  lemma CrossScaleSelf(k: real, a: Vector)
    ensures Cross(a, Scale(k, a)) == Vector(0.0, 0.0, 0.0)
  {
    var p := Scale(k, a);
    var w := Cross(a, p);
    CrossScaleSelfScalar(k, a.y, a.z, p.y, p.z, w.x);
    CrossScaleSelfScalar(k, a.z, a.x, p.z, p.x, w.y);
    CrossScaleSelfScalar(k, a.x, a.y, p.x, p.y, w.z);
  }

  lemma CrossScaleSelfScalar(k: real, a1: real, a2: real, p1: real, p2: real, w: real)
    requires p1 == k * a1 && p2 == k * a2 && w == a1 * p2 - a2 * p1
    ensures w == 0.0
  {
  }

  lemma DotScaleSelf(k: real, a: Vector)
    ensures Dot(a, Scale(k, a)) == k * NormSq(a)
  {
    var p := Scale(k, a);
    DotScaleSelfScalar(k, a.x, a.y, a.z, p.x, p.y, p.z, Dot(a, p), NormSq(a));
  }

  lemma DotScaleSelfScalar(k: real, ax: real, ay: real, az: real, px: real, py: real, pz: real, d: real, A: real)
    requires px == k * ax && py == k * ay && pz == k * az
    requires d == ax * px + ay * py + az * pz && A == ax * ax + ay * ay + az * az
    ensures d == k * A
  {
  }

  /** One component of RodriguesFixesAxis. */
  lemma FixesAxisScalar(k: real, c: real, s: real, d: real, A: real, kk: real,
                        p1: real, w1: real, a1: real, q1: real)
    requires A == 1.0 && d == k * A && kk == (1.0 - c) * d
    requires p1 == k * a1 && w1 == 0.0
    requires q1 == c * p1 + s * w1 + kk * a1
    ensures q1 == p1
  {
  }

  /** For a unit axis and cos^2 + sin^2 = 1 the rotation preserves length. */
  lemma RodriguesPreservesNorm(p: Vector, a: Vector, ct: real, st: real)
    requires NormSq(a) == 1.0 && ct * ct + st * st == 1.0
    ensures NormSq(Rodrigues(p, a, ct, st)) == NormSq(p)
  {
    RodriguesVectorForm(p, a, ct, st);
    var w, d := Cross(a, p), Dot(a, p);
    var k := (1.0 - ct) * d;
    var q := RotationVectorForm(p, a, ct, st);
    NormSqLin(ct, p, st, w, k, a);
    CrossOrthogonal(a, p);
    Lagrange(a, p);
    DotComm(p, w);
    DotComm(p, a);
    DotComm(w, a);
    NormBalanceScalar(ct, st, k, d, NormSq(q), NormSq(p), NormSq(w), NormSq(a),
                      Dot(p, w), Dot(p, a), Dot(w, a));
  }

  lemma DotComm(u: Vector, v: Vector)
    ensures Dot(u, v) == Dot(v, u)
  {
  }

  /** The closing step of RodriguesPreservesNorm, on the scalar products alone. */
  lemma NormBalanceScalar(c: real, s: real, k: real, d: real, Q: real, P: real, W: real, A: real,
                          pw: real, pa: real, wa: real)
    requires c * c + s * s == 1.0 && A == 1.0 && k == (1.0 - c) * d
    requires pw == 0.0 && wa == 0.0 && pa == d && W == A * P - d * d
    requires Q == c * c * P + s * s * W + k * k * A + 2.0 * c * s * pw + 2.0 * c * k * pa + 2.0 * s * k * wa
    ensures Q == P
  {
  }

  /** Rotating by -theta undoes rotating by theta. */
  lemma RodriguesInverse(p: Vector, a: Vector, ct: real, st: real)
    requires NormSq(a) == 1.0 && ct * ct + st * st == 1.0
    ensures Rodrigues(Rodrigues(p, a, ct, st), a, ct, -st) == p
  {
    var q := Rodrigues(p, a, ct, st);
    RodriguesVectorForm(p, a, ct, st);
    RodriguesVectorForm(q, a, ct, -st);
    VectorFormInverse(p, a, ct, st);
  }

  lemma VectorFormInverse(p: Vector, a: Vector, ct: real, st: real)
    requires NormSq(a) == 1.0 && ct * ct + st * st == 1.0
    ensures RotationVectorForm(RotationVectorForm(p, a, ct, st), a, ct, -st) == p
  {
    var w, d, k, q, aw, A1, dq, x, A2, e, kq, r := InverseSteps(p, a, ct, st);
    InverseVec(ct, st, d, k, aw, A1, A2, dq, kq, p, w, a, q, x, e, r);
  }

  /** The intermediate values of VectorFormInverse, for any axis and angle. */
  lemma InverseSteps(p: Vector, a: Vector, ct: real, st: real)
    returns (w: Vector, d: real, k: real, q: Vector, aw: real, A1: real, dq: real, x: Vector, A2: real,
             e: Vector, kq: real, r: Vector)
    ensures q == RotationVectorForm(p, a, ct, st) && r == RotationVectorForm(q, a, ct, -st)
    ensures A1 == NormSq(a) && A2 == NormSq(a)
    ensures InverseChain(ct, st, d, k, aw, A1, A2, dq, kq, p, w, a, q, x, e, r)
  {
    w, d, k, q := InverseFirst(p, a, ct, st);
    aw, A1, dq := InverseAxisDot(p, a, ct, st, w, d, k, q);
    x, A2 := InverseDoubleCross(p, a, w, d);
    e := InverseCrossQ(p, a, ct, st, w, k, q, x);
    kq, r := InverseSecond(q, a, ct, st, dq, e);
  }

  /** The linear steps from p to r, coordinate by coordinate. */
  predicate InverseChain(c: real, s: real, d: real, k: real, aw: real, A1: real, A2: real, dq: real, kq: real,
                         p: Vector, w: Vector, a: Vector, q: Vector, x: Vector, e: Vector, r: Vector)
  {
    && aw == 0.0 && k == (1.0 - c) * d
    && dq == c * d + s * aw + k * A1 && kq == (1.0 - c) * dq
    && q.x == c * p.x + s * w.x + k * a.x && q.y == c * p.y + s * w.y + k * a.y && q.z == c * p.z + s * w.z + k * a.z
    && x.x == d * a.x - A2 * p.x && x.y == d * a.y - A2 * p.y && x.z == d * a.z - A2 * p.z
    && e.x == c * w.x + s * x.x && e.y == c * w.y + s * x.y && e.z == c * w.z + s * x.z
    && r.x == c * q.x + -s * e.x + kq * a.x && r.y == c * q.y + -s * e.y + kq * a.y
    && r.z == c * q.z + -s * e.z + kq * a.z
  }

  lemma InverseVec(c: real, s: real, d: real, k: real, aw: real, A1: real, A2: real, dq: real, kq: real,
                   p: Vector, w: Vector, a: Vector, q: Vector, x: Vector, e: Vector, r: Vector)
    requires InverseChain(c, s, d, k, aw, A1, A2, dq, kq, p, w, a, q, x, e, r)
    requires c * c + s * s == 1.0 && A1 == 1.0 && A2 == 1.0
    ensures r == p
  {
    InverseScalar(c, s, d, k, aw, A1, A2, dq, kq, p.x, w.x, a.x, q.x, x.x, e.x, r.x);
    InverseScalar(c, s, d, k, aw, A1, A2, dq, kq, p.y, w.y, a.y, q.y, x.y, e.y, r.y);
    InverseScalar(c, s, d, k, aw, A1, A2, dq, kq, p.z, w.z, a.z, q.z, x.z, e.z, r.z);
  }

  /** The first rotation, q = ct p + st w + k a with w = a x p and k = (1 - ct)(a . p). */
  lemma InverseFirst(p: Vector, a: Vector, ct: real, st: real) returns (w: Vector, d: real, k: real, q: Vector)
    ensures w == Cross(a, p) && d == Dot(a, p) && k == (1.0 - ct) * d
    ensures q == RotationVectorForm(p, a, ct, st) && q == Lin(ct, p, st, w, k, a)
    ensures q.x == ct * p.x + st * w.x + k * a.x && q.y == ct * p.y + st * w.y + k * a.y
    ensures q.z == ct * p.z + st * w.z + k * a.z
  {
    w, d := Cross(a, p), Dot(a, p);
    k := (1.0 - ct) * Dot(a, p);
    q := Lin(ct, p, st, w, k, a);
    LinComponents(ct, p, st, w, k, a);
  }

  /** a . q, using a . w = 0. */
  lemma InverseAxisDot(p: Vector, a: Vector, ct: real, st: real, w: Vector, d: real, k: real, q: Vector)
    returns (aw: real, A1: real, dq: real)
    requires w == Cross(a, p) && d == Dot(a, p) && q == Lin(ct, p, st, w, k, a)
    ensures aw == 0.0 && A1 == NormSq(a) && dq == Dot(a, q)
    ensures dq == ct * d + st * aw + k * A1
  {
    aw, A1, dq := Dot(a, w), NormSq(a), Dot(a, q);
    DotLin(a, ct, p, st, w, k, a);
    CrossOrthogonal(a, p);
  }

  /** a x w = (a . p) a - |a|^2 p. */
  lemma InverseDoubleCross(p: Vector, a: Vector, w: Vector, d: real) returns (x: Vector, A2: real)
    requires w == Cross(a, p) && d == Dot(a, p)
    ensures x == Cross(a, w) && A2 == NormSq(a)
    ensures x.x == d * a.x - A2 * p.x && x.y == d * a.y - A2 * p.y && x.z == d * a.z - A2 * p.z
  {
    x, A2 := Cross(a, w), NormSq(a);
    CrossCross(a, p);
  }

  /** a x q = ct w + st (a x w) + k (a x a). */
  lemma InverseCrossQ(p: Vector, a: Vector, ct: real, st: real, w: Vector, k: real, q: Vector, x: Vector)
    returns (e: Vector)
    requires w == Cross(a, p) && q == Lin(ct, p, st, w, k, a) && x == Cross(a, w)
    ensures e == Cross(a, q)
    ensures e.x == ct * w.x + st * x.x && e.y == ct * w.y + st * x.y && e.z == ct * w.z + st * x.z
  {
    var z := Cross(a, a);
    e := Cross(a, q);
    CrossSelf(a);
    CrossLin(a, ct, p, st, w, k, a);
    LinComponents(ct, w, st, x, k, z);
  }

  /** The second rotation, by -theta. */
  lemma InverseSecond(q: Vector, a: Vector, ct: real, st: real, dq: real, e: Vector) returns (kq: real, r: Vector)
    requires dq == Dot(a, q) && e == Cross(a, q)
    ensures kq == (1.0 - ct) * dq && r == RotationVectorForm(q, a, ct, -st)
    ensures r.x == ct * q.x + -st * e.x + kq * a.x
    ensures r.y == ct * q.y + -st * e.y + kq * a.y
    ensures r.z == ct * q.z + -st * e.z + kq * a.z
  {
    kq := (1.0 - ct) * Dot(a, q);
    r := Lin(ct, q, -st, e, kq, a);
    LinComponents(ct, q, -st, e, kq, a);
  }

  /** One component of RodriguesInverse. */
  lemma InverseScalar(c: real, s: real, d: real, k: real, aw: real, A1: real, A2: real, dq: real, kq: real,
                      p1: real, w1: real, a1: real, q1: real, x1: real, e1: real, r1: real)
    requires aw == 0.0 && k == (1.0 - c) * d
    requires q1 == c * p1 + s * w1 + k * a1
    requires dq == c * d + s * aw + k * A1 && kq == (1.0 - c) * dq
    requires x1 == d * a1 - A2 * p1
    requires e1 == c * w1 + s * x1
    requires r1 == c * q1 + -s * e1 + kq * a1
    ensures c * c + s * s == 1.0 && A1 == 1.0 && A2 == 1.0 ==> r1 == p1
  {
    if c * c + s * s == 1.0 && A1 == 1.0 && A2 == 1.0 {
      assert dq == d;
    }
  }
}
