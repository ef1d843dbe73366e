/** Properties of the normal matrix built by `Q_set_to_Q_matrix_tilde`:
    its entries in closed form, its action on a vector, positive
    semi-definiteness, and the point configurations that make it singular. */
module Normal {
  import opened LinAlg
  import opened Estimator

  /** The six sums that fill the normal matrix: the point count and the sums
      of x, y, x*x, x*y and y*y. */
  datatype Moments = Moments(count: real, sx: real, sy: real, sxx: real, sxy: real, syy: real) {

    function Add(m: Moments): Moments {
      Moments(count + m.count, sx + m.sx, sy + m.sy, sxx + m.sxx, sxy + m.sxy, syy + m.syy)
    }

    /** The symmetric matrix these sums determine. */
    function Matrix(): Mat3 {
      Mat3(Vec3(sxx, sxy, sx), Vec3(sxy, syy, sy), Vec3(sx, sy, count))
    }
  }

  /** The contribution of one point to the sums. */
  function PointMoments(p: Point): Moments {
    Moments(1.0, p.x, p.y, p.x * p.x, p.x * p.y, p.y * p.y)
  }

  /** The sums over a point sequence, in index order. */
  function MomentsOf(ps: seq<Point>): Moments
    decreases |ps|
  {
    if |ps| == 0 then Moments(0.0, 0.0, 0.0, 0.0, 0.0, 0.0)
    else MomentsOf(ps[..|ps| - 1]).Add(PointMoments(ps[|ps| - 1]))
  }

  lemma OuterLift(p: Point)
    ensures Outer(Lift(p), Lift(p)) == PointMoments(p).Matrix()
  {
    assert p.y * p.x == p.x * p.y;
  }

  lemma MatrixAdd(a: Moments, b: Moments)
    ensures a.Add(b).Matrix() == a.Matrix().Add(b.Matrix())
  {
  }

  /** Formula (14) in closed form: the normal matrix is
      `[[Σx², Σxy, Σx], [Σxy, Σy², Σy], [Σx, Σy, m]]`. */
  lemma {:induction false} NormalClosedForm(ps: seq<Point>)
    ensures NormalMatrix(ps) == MomentsOf(ps).Matrix()
    decreases |ps|
  {
    if |ps| > 0 {
      NormalClosedForm(ps[..|ps| - 1]);
      OuterLift(ps[|ps| - 1]);
      MatrixAdd(MomentsOf(ps[..|ps| - 1]), PointMoments(ps[|ps| - 1]));
    }
  }

  /** The count moment is the number of points. */
  lemma {:induction false} MomentsCount(ps: seq<Point>)
    ensures MomentsOf(ps).count == |ps| as real
    decreases |ps|
  {
    if |ps| > 0 {
      MomentsCount(ps[..|ps| - 1]);
    }
  }

  /** The normal matrix is symmetric, its last column holds the sums of the
      x and y coordinates and the point count, and no points give the zero
      matrix. */
  lemma NormalShape(ps: seq<Point>)
    ensures NormalMatrix(ps).IsSymmetric()
    ensures NormalMatrix(ps).r0.z == MomentsOf(ps).sx && NormalMatrix(ps).r1.z == MomentsOf(ps).sy
    ensures NormalMatrix(ps).r2.z == MomentsOf(ps).count == |ps| as real
    ensures |ps| == 0 ==> NormalMatrix(ps) == ZeroMat()
  {
    NormalClosedForm(ps);
    MomentsCount(ps);
  }

  /** The dot product of `a` with every lifted point of `ps`. */
  function LiftDots(ps: seq<Point>, a: Vec3): (ws: seq<real>)
    ensures |ws| == |ps|
    ensures forall i :: 0 <= i < |ps| ==> ws[i] == a.Dot(Lift(ps[i]))
  {
    seq(|ps|, i requires 0 <= i < |ps| => a.Dot(Lift(ps[i])))
  }

  lemma LiftDotsPrefix(ps: seq<Point>, a: Vec3)
    requires |ps| > 0
    ensures LiftDots(ps, a)[..|ps| - 1] == LiftDots(ps[..|ps| - 1], a)
  {
  }

  /** `l l^T a == (a . l) l`. */
  lemma OuterSelfMulVec(l: Vec3, a: Vec3)
    ensures Outer(l, l).MulVec(a) == l.Scale(a.Dot(l))
  {
    OuterMulVec(l, l, a);
    DotComm(l, a);
  }

  /** The normal matrix applied to `a` is the sum of the lifted points, each
      weighted by its dot product with `a`. */
  lemma {:induction false} NormalMulVec(ps: seq<Point>, a: Vec3)
    ensures NormalMatrix(ps).MulVec(a) == WeightedLiftSum(ps, LiftDots(ps, a))
    decreases |ps|
  {
    if |ps| > 0 {
      NormalMulVec(ps[..|ps| - 1], a);
      MulVecAdd(NormalMatrix(ps[..|ps| - 1]), Outer(Lift(ps[|ps| - 1]), Lift(ps[|ps| - 1])), a);
      OuterSelfMulVec(Lift(ps[|ps| - 1]), a);
      LiftDotsPrefix(ps, a);
    }
  }

  /** The sum over the points of the squared dot product of `d` with the
      lifted point. */
  function SquaredDots(ps: seq<Point>, d: Vec3): real
    decreases |ps|
  {
    if |ps| == 0 then 0.0
    else SquaredDots(ps[..|ps| - 1], d) + Sq(d.Dot(Lift(ps[|ps| - 1])))
  }

  lemma {:induction false} SquaredDotsNonNegative(ps: seq<Point>, d: Vec3)
    ensures SquaredDots(ps, d) >= 0.0
    decreases |ps|
  {
    if |ps| > 0 {
      SquaredDotsNonNegative(ps[..|ps| - 1], d);
      SqNonNegative(d.Dot(Lift(ps[|ps| - 1])));
    }
  }

  /** One non-zero dot product makes the sum of squared dot products
      positive. */
  lemma {:induction false} SquaredDotsPositive(ps: seq<Point>, d: Vec3, i: nat)
    requires i < |ps| && d.Dot(Lift(ps[i])) != 0.0
    ensures SquaredDots(ps, d) > 0.0
    decreases |ps|
  {
    if i == |ps| - 1 {
      SquaredDotsNonNegative(ps[..|ps| - 1], d);
      SqPositive(d.Dot(Lift(ps[|ps| - 1])));
    } else {
      assert ps[..|ps| - 1][i] == ps[i];
      SquaredDotsPositive(ps[..|ps| - 1], d, i);
      SqNonNegative(d.Dot(Lift(ps[|ps| - 1])));
    }
  }

  /** Adding `l l^T` to a matrix adds `(d . l)^2` to its quadratic form at `d`. */
  lemma QuadraticStep(m: Mat3, l: Vec3, d: Vec3)
    ensures d.Dot(m.Add(Outer(l, l)).MulVec(d)) == d.Dot(m.MulVec(d)) + Sq(d.Dot(l))
  {
    MulVecAdd(m, Outer(l, l), d);
    OuterSelfMulVec(l, d);
    DotAdd(d, m.MulVec(d), l.Scale(d.Dot(l)));
    DotScale(d, l, d.Dot(l));
  }

  /** `d^T M d` is the sum of the squares of the dot products of `d` with the
      lifted points, hence never negative: the normal matrix is positive
      semi-definite. */
  lemma {:induction false} NormalQuadratic(ps: seq<Point>, d: Vec3)
    ensures d.Dot(NormalMatrix(ps).MulVec(d)) == SquaredDots(ps, d)
    ensures d.Dot(NormalMatrix(ps).MulVec(d)) >= 0.0
    decreases |ps|
  {
    if |ps| > 0 {
      NormalQuadratic(ps[..|ps| - 1], d);
      QuadraticStep(NormalMatrix(ps[..|ps| - 1]), Lift(ps[|ps| - 1]), d);
    }
    SquaredDotsNonNegative(ps, d);
  }

  /** If every lifted point is orthogonal to `v`, the normal matrix sends `v`
      to zero. */
  lemma {:induction false} NormalKernel(ps: seq<Point>, v: Vec3)
    requires forall i :: 0 <= i < |ps| ==> v.Dot(Lift(ps[i])) == 0.0
    ensures NormalMatrix(ps).MulVec(v) == ZeroVec()
    decreases |ps|
  {
    if |ps| > 0 {
      assert forall i :: 0 <= i < |ps| - 1 ==> ps[..|ps| - 1][i] == ps[i];
      NormalKernel(ps[..|ps| - 1], v);
      MulVecAdd(NormalMatrix(ps[..|ps| - 1]), Outer(Lift(ps[|ps| - 1]), Lift(ps[|ps| - 1])), v);
      OuterSelfMulVec(Lift(ps[|ps| - 1]), v);
    }
  }

  /** A non-zero vector orthogonal to every lifted point makes the normal
      matrix singular, so `estimate` has no valid inverse to take. */
  lemma DegenerateSingular(ps: seq<Point>, v: Vec3)
    requires v != ZeroVec()
    requires forall i :: 0 <= i < |ps| ==> v.Dot(Lift(ps[i])) == 0.0
    ensures NormalMatrix(ps).Det() == 0.0
  {
    NormalKernel(ps, v);
    KernelSingular(NormalMatrix(ps), v);
  }

  /** Points on one line `a x + b y + c == 0` give a singular normal matrix. */
  lemma CollinearSingular(ps: seq<Point>, a: real, b: real, c: real)
    requires a != 0.0 || b != 0.0
    requires forall i :: 0 <= i < |ps| ==> a * ps[i].x + b * ps[i].y + c == 0.0
    ensures NormalMatrix(ps).Det() == 0.0
  {
    DegenerateSingular(ps, Vec3(a, b, c));
  }

  /** Fewer than three points give a singular normal matrix. */
  lemma FewPointsSingular(ps: seq<Point>)
    requires |ps| < 3
    ensures NormalMatrix(ps).Det() == 0.0
  {
    if |ps| == 0 {
      DegenerateSingular(ps, Vec3(1.0, 0.0, 0.0));
    } else if |ps| == 1 || ps[0] == ps[1] {
      DegenerateSingular(ps, Vec3(1.0, 0.0, -ps[0].x));
    } else {
      TripleRepeated(Lift(ps[0]), Lift(ps[1]));
      DotComm(Lift(ps[0]).Cross(Lift(ps[1])), Lift(ps[0]));
      DotComm(Lift(ps[0]).Cross(Lift(ps[1])), Lift(ps[1]));
      assert Lift(ps[0]).Cross(Lift(ps[1])).x == ps[0].y - ps[1].y;
      DegenerateSingular(ps, Lift(ps[0]).Cross(Lift(ps[1])));
    }
  }

  /** A vector that the normal matrix sends to zero is orthogonal to every
      lifted point: `v^T M v` is the sum of the squared dot products, so
      each of them is zero. */
  lemma KernelOrthogonal(ps: seq<Point>, v: Vec3)
    requires NormalMatrix(ps).MulVec(v) == ZeroVec()
    ensures forall i :: 0 <= i < |ps| ==> v.Dot(Lift(ps[i])) == 0.0
  {
    NormalQuadratic(ps, v);
    forall i | 0 <= i < |ps|
      ensures v.Dot(Lift(ps[i])) == 0.0
    {
      if v.Dot(Lift(ps[i])) != 0.0 {
        SquaredDotsPositive(ps, v, i);
      }
    }
  }

  /** The converse of `DegenerateSingular`: for a singular normal matrix,
      a non-zero vector orthogonal to every lifted point. */
  function DegenerateWitness(ps: seq<Point>): (v: Vec3)
    requires NormalMatrix(ps).Det() == 0.0
    ensures v != ZeroVec()
    ensures forall i :: 0 <= i < |ps| ==> v.Dot(Lift(ps[i])) == 0.0
  {
    var v := KernelVector(NormalMatrix(ps));
    KernelOrthogonal(ps, v);
    v
  }

  /** Every point lies on the line `a x + b y + c == 0`. */
  predicate OnLine(ps: seq<Point>, a: real, b: real, c: real) {
    (a != 0.0 || b != 0.0) && forall i :: 0 <= i < |ps| ==> a * ps[i].x + b * ps[i].y + c == 0.0
  }

  /** `v . lift(p)` is the line equation `v.x * x + v.y * y + v.z` at `p`. */
  lemma DotLift(v: Vec3, p: Point)
    ensures v.Dot(Lift(p)) == v.x * p.x + v.y * p.y + v.z
  {
  }

  /** A non-zero vector orthogonal to every lifted point of a non-empty set
      gives the coefficients of a line through all the points. */
  lemma OrthogonalOnLine(ps: seq<Point>, v: Vec3)
    requires |ps| > 0 && v != ZeroVec()
    requires forall i :: 0 <= i < |ps| ==> v.Dot(Lift(ps[i])) == 0.0
    ensures OnLine(ps, v.x, v.y, v.z)
  {
    forall i | 0 <= i < |ps|
      ensures v.x * ps[i].x + v.y * ps[i].y + v.z == 0.0
    {
      DotLift(v, ps[i]);
    }
    DotLift(v, ps[0]);
  }

  /** A singular normal matrix of a non-empty point set puts all the points
      on one line, whose coefficients `DegenerateWitness` gives. */
  lemma SingularCollinear(ps: seq<Point>)
    requires NormalMatrix(ps).Det() == 0.0 && |ps| > 0
    ensures OnLine(ps, DegenerateWitness(ps).x, DegenerateWitness(ps).y, DegenerateWitness(ps).z)
  {
    OrthogonalOnLine(ps, DegenerateWitness(ps));
  }

  /** The normal matrix is singular exactly when there are no points or all
      the points lie on one line; otherwise it is invertible. */
  lemma SingularIffCollinear(ps: seq<Point>)
    ensures NormalMatrix(ps).Det() == 0.0 <==> |ps| == 0 || exists a, b, c :: OnLine(ps, a, b, c)
  {
    if |ps| == 0 {
      FewPointsSingular(ps);
    } else if NormalMatrix(ps).Det() == 0.0 {
      SingularCollinear(ps);
    } else if exists a, b, c :: OnLine(ps, a, b, c) {
      var a, b, c :| OnLine(ps, a, b, c);
      CollinearSingular(ps, a, b, c);
    }
  }

  /** Twice the signed area of the triangle `p q r`; zero exactly when the
      three points are collinear. */
  function Orientation(p: Point, q: Point, r: Point): real {
    (q.x - p.x) * (r.y - p.y) - (q.y - p.y) * (r.x - p.x)
  }

  /** The determinant of three lifted points is their orientation. */
  lemma LiftDet(p: Point, q: Point, r: Point)
    ensures Mat3(Lift(p), Lift(q), Lift(r)).Det() == Orientation(p, q, r)
  {
  }

  /** Three points of the set that are not collinear make the normal matrix
      invertible, so `estimate` has a valid inverse to take. */
  lemma NonCollinearInvertible(ps: seq<Point>, i: nat, j: nat, k: nat)
    requires i < |ps| && j < |ps| && k < |ps|
    requires Orientation(ps[i], ps[j], ps[k]) != 0.0
    ensures NormalMatrix(ps).Det() != 0.0
  {
    if NormalMatrix(ps).Det() == 0.0 {
      var v := DegenerateWitness(ps);
      var m := Mat3(Lift(ps[i]), Lift(ps[j]), Lift(ps[k]));
      LiftDet(ps[i], ps[j], ps[k]);
      DotComm(v, Lift(ps[i]));
      DotComm(v, Lift(ps[j]));
      DotComm(v, Lift(ps[k]));
      Injective(m, v);
    }
  }
}
