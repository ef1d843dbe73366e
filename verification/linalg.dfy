/** Fixed-size real linear algebra: the 3-vectors, 3x3 matrices and the 3x2 /
    2x3 shapes the estimator uses, with the inverse of a 3x3 matrix defined
    through its adjugate. Exact `real` arithmetic stands for the
    single-precision floats of the matrix library. */
module LinAlg {

  datatype Vec3 = Vec3(x: real, y: real, z: real) {

    /** Component `i` (0, 1 or 2). */
    function Get(i: nat): real
      requires i < 3
    {
      if i == 0 then x else if i == 1 then y else z
    }

    function Add(v: Vec3): Vec3 {
      Vec3(x + v.x, y + v.y, z + v.z)
    }

    function Sub(v: Vec3): Vec3 {
      Vec3(x - v.x, y - v.y, z - v.z)
    }

    function Scale(k: real): Vec3 {
      Vec3(k * x, k * y, k * z)
    }

    function Dot(v: Vec3): real {
      x * v.x + y * v.y + z * v.z
    }

    function Cross(v: Vec3): Vec3 {
      Vec3(y * v.z - z * v.y, z * v.x - x * v.z, x * v.y - y * v.x)
    }
  }

  /** The square of a real. */
  function Sq(a: real): real {
    a * a
  }

  lemma SqNonNegative(a: real)
    ensures Sq(a) >= 0.0
  {
  }

  lemma MulPositive(a: real, b: real) returns (p: real)
    requires a > 0.0 && b > 0.0
    ensures p == a * b && p > 0.0
  {
    p := a * b;
  }

  /** The square of a non-zero real is positive. */
  lemma SqPositive(a: real)
    requires a != 0.0
    ensures Sq(a) > 0.0
  {
    if a > 0.0 {
      var p := MulPositive(a, a);
    } else {
      var p := MulPositive(-a, -a);
      assert Sq(a) == Sq(-a);
    }
  }

  function ZeroVec(): Vec3 {
    Vec3(0.0, 0.0, 0.0)
  }

  lemma DotScale(u: Vec3, v: Vec3, k: real)
    ensures u.Dot(v.Scale(k)) == k * u.Dot(v)
    ensures u.Scale(k).Dot(v) == k * u.Dot(v)
  {
  }

  /** The dot product is linear in its second argument. */
  lemma DotCombination(u: Vec3, a: Vec3, b: Vec3, c: Vec3, s: real, t: real, w: real)
    ensures u.Dot(a.Scale(s).Add(b.Scale(t)).Add(c.Scale(w))) == s * u.Dot(a) + t * u.Dot(b) + w * u.Dot(c)
  {
  }

  lemma MulComm(a: real, b: real)
    ensures a * b == b * a
  {
  }

  lemma DotComm(u: Vec3, v: Vec3)
    ensures u.Dot(v) == v.Dot(u)
  {
  }

  /** The dot product distributes over addition on either side. */
  lemma DotAdd(u: Vec3, a: Vec3, b: Vec3)
    ensures u.Dot(a.Add(b)) == u.Dot(a) + u.Dot(b)
    ensures a.Add(b).Dot(u) == a.Dot(u) + b.Dot(u)
  {
  }

  /** A triple product with a repeated vector vanishes. */
  lemma TripleRepeated(u: Vec3, v: Vec3)
    ensures u.Dot(u.Cross(v)) == 0.0
    ensures v.Dot(u.Cross(v)) == 0.0
  {
  }

  /** The triple product is invariant under cyclic shifts. */
  lemma TripleCyclic(u: Vec3, v: Vec3, w: Vec3)
    ensures u.Dot(v.Cross(w)) == v.Dot(w.Cross(u))
  {
  }

  /** A 3x3 matrix stored by rows. */
  datatype Mat3 = Mat3(r0: Vec3, r1: Vec3, r2: Vec3) {

    function Transpose(): Mat3 {
      Mat3(Vec3(r0.x, r1.x, r2.x), Vec3(r0.y, r1.y, r2.y), Vec3(r0.z, r1.z, r2.z))
    }

    function Add(m: Mat3): Mat3 {
      Mat3(r0.Add(m.r0), r1.Add(m.r1), r2.Add(m.r2))
    }

    /** Matrix times column vector. */
    function MulVec(v: Vec3): Vec3 {
      Vec3(r0.Dot(v), r1.Dot(v), r2.Dot(v))
    }

    /** Entry (i, j) equals entry (j, i). */
    predicate IsSymmetric() {
      Transpose() == this
    }

    /** Determinant, as the triple product of the rows. */
    function Det(): real {
      r0.Dot(r1.Cross(r2))
    }
  }

  function ZeroMat(): Mat3 {
    Mat3(ZeroVec(), ZeroVec(), ZeroVec())
  }

  lemma DetTranspose(m: Mat3)
    ensures m.Transpose().Det() == m.Det()
  {
  }

  /** `(m u) . w == u . (m^T w)`. */
  lemma Adjoint(m: Mat3, u: Vec3, w: Vec3)
    ensures m.MulVec(u).Dot(w) == u.Dot(m.Transpose().MulVec(w))
  {
  }

  lemma MulVecSub(m: Mat3, a: Vec3, b: Vec3)
    ensures m.MulVec(a.Sub(b)) == m.MulVec(a).Sub(m.MulVec(b))
  {
  }

  /** The outer product `u * w^T`. */
  function Outer(u: Vec3, w: Vec3): Mat3 {
    Mat3(w.Scale(u.x), w.Scale(u.y), w.Scale(u.z))
  }

  lemma MulVecAdd(a: Mat3, b: Mat3, v: Vec3)
    ensures a.Add(b).MulVec(v) == a.MulVec(v).Add(b.MulVec(v))
  {
  }

  /** `(u w^T) v == (w . v) u`. */
  lemma OuterMulVec(u: Vec3, w: Vec3, v: Vec3)
    ensures Outer(u, w).MulVec(v) == u.Scale(w.Dot(v))
  {
    OuterRows(u, w, v);
    ScaleRight(u, w.Dot(v));
  }

  lemma OuterRows(u: Vec3, w: Vec3, v: Vec3)
    ensures Outer(u, w).MulVec(v) == Vec3(u.x * w.Dot(v), u.y * w.Dot(v), u.z * w.Dot(v))
  {
    DotScale(w, v, u.x);
    DotScale(w, v, u.y);
    DotScale(w, v, u.z);
  }

  lemma ScaleRight(u: Vec3, k: real)
    ensures u.Scale(k) == Vec3(u.x * k, u.y * k, u.z * k)
  {
  }

  /** The adjugate divided by `k`'s reciprocal: column `j` of the result is
      `k` times the cross product of the two rows other than row `j`. */
  function ScaledAdjugate(m: Mat3, k: real): Mat3 {
    Mat3(m.r1.Cross(m.r2).Scale(k), m.r2.Cross(m.r0).Scale(k), m.r0.Cross(m.r1).Scale(k)).Transpose()
  }

  /** The inverse of a matrix with non-zero determinant: the adjugate divided
      by the determinant. As maps, it undoes `m` on both sides. */
  function Inverse(m: Mat3): (r: Mat3)
    requires m.Det() != 0.0
    ensures forall v :: m.MulVec(r.MulVec(v)) == v
    ensures forall v :: r.MulVec(m.MulVec(v)) == v
  {
    var r := ScaledAdjugate(m, 1.0 / m.Det());
    forall v ensures m.MulVec(r.MulVec(v)) == v {
      InverseRight(m, 1.0 / m.Det(), v);
    }
    forall v ensures r.MulVec(m.MulVec(v)) == v {
      InverseLeft(m, v);
    }
    r
  }

  lemma ScaledAdjugateMulVec(m: Mat3, k: real, v: Vec3)
    ensures ScaledAdjugate(m, k).MulVec(v)
         == m.r1.Cross(m.r2).Scale(k * v.x).Add(m.r2.Cross(m.r0).Scale(k * v.y)).Add(m.r0.Cross(m.r1).Scale(k * v.z))
  {
  }

  /** The scalar step behind `PickComponent`: in `s p + t q + w r`, the term
      whose dot product is `d` survives and the other two vanish. */
  lemma PickScalar(p: real, q: real, r: real, s: real, t: real, w: real, d: real, k: real, x: real, i: nat)
    requires i < 3 && k * d == 1.0
    requires p == (if i == 0 then d else 0.0) && s == (if i == 0 then k * x else s)
    requires q == (if i == 1 then d else 0.0) && t == (if i == 1 then k * x else t)
    requires r == (if i == 2 then d else 0.0) && w == (if i == 2 then k * x else w)
    ensures s * p + t * q + w * r == x
  {
    assert (k * x) * d == x * (k * d);
  }

  /** Let `u` have dot product `d` with the `i`-th of `c0, c1, c2` and be
      orthogonal to the other two. If `k * d == 1` and the `i`-th coefficient
      is `k x`, then `u` has dot product `x` with `s c0 + t c1 + w c2`. */
  lemma PickComponent(u: Vec3, c0: Vec3, c1: Vec3, c2: Vec3, s: real, t: real, w: real, d: real, k: real, x: real, i: nat)
    requires i < 3 && k * d == 1.0
    requires u.Dot(c0) == (if i == 0 then d else 0.0) && s == (if i == 0 then k * x else s)
    requires u.Dot(c1) == (if i == 1 then d else 0.0) && t == (if i == 1 then k * x else t)
    requires u.Dot(c2) == (if i == 2 then d else 0.0) && w == (if i == 2 then k * x else w)
    ensures u.Dot(c0.Scale(s).Add(c1.Scale(t)).Add(c2.Scale(w))) == x
  {
    DotCombination(u, c0, c1, c2, s, t, w);
    PickScalar(u.Dot(c0), u.Dot(c1), u.Dot(c2), s, t, w, d, k, x, i);
  }

  /** Row 0 of `m` times the scaled adjugate applied to `v` is `v.x`. */
  lemma InverseRightRow0(m: Mat3, k: real, v: Vec3)
    requires k * m.Det() == 1.0
    ensures m.r0.Dot(ScaledAdjugate(m, k).MulVec(v)) == v.x
  {
    ScaledAdjugateMulVec(m, k, v);
    TripleRepeated(m.r2, m.r0);
    TripleRepeated(m.r0, m.r1);
    PickComponent(m.r0, m.r1.Cross(m.r2), m.r2.Cross(m.r0), m.r0.Cross(m.r1),
                  k * v.x, k * v.y, k * v.z, m.Det(), k, v.x, 0);
  }

  /** Row 1 of `m` times the scaled adjugate applied to `v` is `v.y`. */
  lemma InverseRightRow1(m: Mat3, k: real, v: Vec3)
    requires k * m.Det() == 1.0
    ensures m.r1.Dot(ScaledAdjugate(m, k).MulVec(v)) == v.y
  {
    ScaledAdjugateMulVec(m, k, v);
    TripleRepeated(m.r1, m.r2);
    TripleRepeated(m.r0, m.r1);
    TripleCyclic(m.r0, m.r1, m.r2);
    PickComponent(m.r1, m.r1.Cross(m.r2), m.r2.Cross(m.r0), m.r0.Cross(m.r1),
                  k * v.x, k * v.y, k * v.z, m.Det(), k, v.y, 1);
  }

  /** Row 2 of `m` times the scaled adjugate applied to `v` is `v.z`. */
  lemma InverseRightRow2(m: Mat3, k: real, v: Vec3)
    requires k * m.Det() == 1.0
    ensures m.r2.Dot(ScaledAdjugate(m, k).MulVec(v)) == v.z
  {
    ScaledAdjugateMulVec(m, k, v);
    TripleRepeated(m.r1, m.r2);
    TripleRepeated(m.r2, m.r0);
    TripleCyclic(m.r0, m.r1, m.r2);
    TripleCyclic(m.r1, m.r2, m.r0);
    PickComponent(m.r2, m.r1.Cross(m.r2), m.r2.Cross(m.r0), m.r0.Cross(m.r1),
                  k * v.x, k * v.y, k * v.z, m.Det(), k, v.z, 2);
  }

  /** With `k` the reciprocal of the determinant, the scaled adjugate is a
      right inverse. */
  lemma InverseRight(m: Mat3, k: real, v: Vec3)
    requires k * m.Det() == 1.0
    ensures m.MulVec(ScaledAdjugate(m, k).MulVec(v)) == v
  {
    InverseRightRow0(m, k, v);
    InverseRightRow1(m, k, v);
    InverseRightRow2(m, k, v);
  }

  /** A matrix with non-zero determinant sends only the zero vector to zero. */
  lemma Injective(m: Mat3, u: Vec3)
    requires m.Det() != 0.0 && m.MulVec(u) == ZeroVec()
    ensures u == ZeroVec()
  {
    var t := m.Transpose();
    DetTranspose(m);
    var k := 1.0 / t.Det();
    var y := ScaledAdjugate(t, k);
    var ex, ey, ez := Vec3(1.0, 0.0, 0.0), Vec3(0.0, 1.0, 0.0), Vec3(0.0, 0.0, 1.0);
    InverseRight(t, k, ex);
    InverseRight(t, k, ey);
    InverseRight(t, k, ez);
    Adjoint(m, u, y.MulVec(ex));
    Adjoint(m, u, y.MulVec(ey));
    Adjoint(m, u, y.MulVec(ez));
    assert u.x == u.Dot(ex) && u.y == u.Dot(ey) && u.z == u.Dot(ez);
  }

  lemma InverseLeft(m: Mat3, v: Vec3)
    requires m.Det() != 0.0
    ensures ScaledAdjugate(m, 1.0 / m.Det()).MulVec(m.MulVec(v)) == v
  {
    var w := ScaledAdjugate(m, 1.0 / m.Det()).MulVec(m.MulVec(v));
    InverseRight(m, 1.0 / m.Det(), m.MulVec(v));
    MulVecSub(m, w, v);
    Injective(m, w.Sub(v));
  }

  /** With a non-zero determinant, `Inverse(m) * c` solves `m * a == c`, and it
      is the only solution. */
  lemma InverseSolves(m: Mat3, c: Vec3, a: Vec3)
    requires m.Det() != 0.0
    ensures m.MulVec(a) == c <==> a == Inverse(m).MulVec(c)
  {
  }

  /** A matrix that sends a non-zero vector to zero has determinant zero. */
  lemma KernelSingular(m: Mat3, v: Vec3)
    requires v != ZeroVec() && m.MulVec(v) == ZeroVec()
    ensures m.Det() == 0.0
  {
    if m.Det() != 0.0 {
      Injective(m, v);
    }
  }

  /** A vector orthogonal to every vector parallel to `r`, non-zero when `r`
      is: `r × e_z` when that is non-zero, `r × e_x` otherwise. */
  function Perp(r: Vec3): (p: Vec3)
    ensures r != ZeroVec() ==> p != ZeroVec()
    ensures forall u: Vec3 :: u.Cross(r) == ZeroVec() ==> u.Dot(p) == 0.0
  {
    if r.x != 0.0 || r.y != 0.0 then Vec3(r.y, -r.x, 0.0) else Vec3(0.0, r.z, -r.y)
  }

  /** The columns of the adjugate of a singular matrix lie in its kernel. */
  lemma AdjugateKernel(m: Mat3)
    requires m.Det() == 0.0
    ensures m.MulVec(m.r1.Cross(m.r2)) == ZeroVec()
    ensures m.MulVec(m.r2.Cross(m.r0)) == ZeroVec()
    ensures m.MulVec(m.r0.Cross(m.r1)) == ZeroVec()
  {
    TripleRepeated(m.r1, m.r2);
    TripleRepeated(m.r2, m.r0);
    TripleRepeated(m.r0, m.r1);
    TripleCyclic(m.r0, m.r1, m.r2);
    TripleCyclic(m.r1, m.r2, m.r0);
  }

  /** When the adjugate vanishes the rows are pairwise parallel, so a vector
      orthogonal to one non-zero row is orthogonal to all of them. */
  lemma RankOneKernel(m: Mat3, r: Vec3)
    requires m.r1.Cross(m.r2) == ZeroVec() && m.r2.Cross(m.r0) == ZeroVec() && m.r0.Cross(m.r1) == ZeroVec()
    requires r == m.r0 || r == m.r1 || r == m.r2
    ensures m.MulVec(Perp(r)) == ZeroVec()
  {
    assert m.r0.Cross(r) == ZeroVec();
    assert m.r1.Cross(r) == ZeroVec();
    assert m.r2.Cross(r) == ZeroVec();
  }

  /** A non-zero vector that a singular matrix sends to zero: the converse of
      `KernelSingular`. It is an adjugate column when one is non-zero;
      otherwise the matrix has rank at most one and the vector is
      orthogonal to a non-zero row. */
  function KernelVector(m: Mat3): (v: Vec3)
    requires m.Det() == 0.0
    ensures v != ZeroVec() && m.MulVec(v) == ZeroVec()
  {
    AdjugateKernel(m);
    var c0, c1, c2 := m.r1.Cross(m.r2), m.r2.Cross(m.r0), m.r0.Cross(m.r1);
    if c0 != ZeroVec() then c0
    else if c1 != ZeroVec() then c1
    else if c2 != ZeroVec() then c2
    else RankOneKernelVector(m)
  }

  /** A non-zero kernel vector of a matrix whose adjugate vanishes. */
  function RankOneKernelVector(m: Mat3): (v: Vec3)
    requires m.r1.Cross(m.r2) == ZeroVec() && m.r2.Cross(m.r0) == ZeroVec() && m.r0.Cross(m.r1) == ZeroVec()
    ensures v != ZeroVec() && m.MulVec(v) == ZeroVec()
  {
    if m.r0 != ZeroVec() then RankOneKernel(m, m.r0); Perp(m.r0)
    else if m.r1 != ZeroVec() then RankOneKernel(m, m.r1); Perp(m.r1)
    else if m.r2 != ZeroVec() then RankOneKernel(m, m.r2); Perp(m.r2)
    else Vec3(1.0, 0.0, 0.0)
  }

  /** A 3x2 matrix stored by columns. */
  datatype Mat3x2 = Mat3x2(c0: Vec3, c1: Vec3) {

    function Col(j: nat): Vec3
      requires j < 2
    {
      if j == 0 then c0 else c1
    }

    function Get(i: nat, j: nat): real
      requires i < 3 && j < 2
    {
      Col(j).Get(i)
    }

    /** The 2x3 transpose: entry (j, i) of the result is entry (i, j) here. */
    function Transpose(): (t: Mat2x3)
      ensures forall i: nat, j: nat :: i < 3 && j < 2 ==> t.Get(j, i) == Get(i, j)
    {
      Mat2x3(c0, c1)
    }
  }

  /** A 2x3 matrix stored by rows. */
  datatype Mat2x3 = Mat2x3(r0: Vec3, r1: Vec3) {

    function Row(i: nat): Vec3
      requires i < 2
    {
      if i == 0 then r0 else r1
    }

    function Get(i: nat, j: nat): real
      requires i < 2 && j < 3
    {
      Row(i).Get(j)
    }
  }
}
