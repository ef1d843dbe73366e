/** The estimate minimises the sum of squared distances between each `Q[i]`
    and the image of `P[i]`, and it is the only transformation that does:
    this is the least-squares criterion the normal equations come from. */
module LeastSquares {
  import opened LinAlg
  import opened Estimator
  import opened Normal

  /** The sum of the squared residuals `ws[i] - a . (P[i], 1)`: the error of
      one row `a` of a transformation against the targets `ws`. */
  function SquaredError(ps: seq<Point>, ws: seq<real>, a: Vec3): real
    requires |ps| == |ws|
    decreases |ps|
  {
    if |ps| == 0 then 0.0
    else SquaredError(ps[..|ps| - 1], ws[..|ps| - 1], a) + Sq(ws[|ps| - 1] - a.Dot(Lift(ps[|ps| - 1])))
  }

  /** The sum of the residuals of `a`, each multiplied by `d . (P[i], 1)`;
      written as `d . (r (P[i], 1))` for residual `r`. */
  function CrossSum(ps: seq<Point>, ws: seq<real>, a: Vec3, d: Vec3): real
    requires |ps| == |ws|
    decreases |ps|
  {
    if |ps| == 0 then 0.0
    else CrossSum(ps[..|ps| - 1], ws[..|ps| - 1], a, d)
         + d.Dot(Lift(ps[|ps| - 1]).Scale(ws[|ps| - 1] - a.Dot(Lift(ps[|ps| - 1]))))
  }

  lemma SquareShift(w: real, x: real, y: real, s: real, c: real)
    requires s == x + y && c == (w - x) * y
    ensures Sq(w - s) == Sq(w - x) - 2.0 * c + Sq(y)
  {
  }

  /** Distributivity of a product over a difference, stated about three
      named products so that callers only substitute equalities. */
  lemma MulSubDistrib(p: real, q: real, r: real, w: real, x: real, y: real)
    requires p == (w - x) * y && q == w * y && r == x * y
    ensures p == q - r
  {
  }

  /** One residual moved from `a` to `a + d`. */
  lemma ResidualShift(w: real, l: Vec3, a: Vec3, d: Vec3)
    ensures Sq(w - a.Add(d).Dot(l)) == Sq(w - a.Dot(l)) - 2.0 * d.Dot(l.Scale(w - a.Dot(l))) + Sq(d.Dot(l))
  {
    DotAdd(l, a, d);
    DotScale(d, l, w - a.Dot(l));
    SquareShift(w, a.Dot(l), d.Dot(l), a.Add(d).Dot(l), d.Dot(l.Scale(w - a.Dot(l))));
  }

  /** One cross term written through the weighted lift. */
  lemma CrossStep(w: real, l: Vec3, a: Vec3, d: Vec3)
    ensures d.Dot(l.Scale(w - a.Dot(l))) == d.Dot(l.Scale(w)) - d.Dot(l.Scale(a.Dot(l)))
  {
    var k, e := a.Dot(l), d.Dot(l);
    DotScale(d, l, w);
    DotScale(d, l, k);
    DotScale(d, l, w - k);
    MulSubDistrib(d.Dot(l.Scale(w - k)), d.Dot(l.Scale(w)), d.Dot(l.Scale(k)), w, k, e);
  }

  /** Moving a row from `a` to `a + d` changes its error by
      `- 2 * CrossSum + Σ (d . (P[i], 1))^2`. */
  lemma {:induction false} SquaredErrorShift(ps: seq<Point>, ws: seq<real>, a: Vec3, d: Vec3)
    requires |ps| == |ws|
    ensures SquaredError(ps, ws, a.Add(d)) == SquaredError(ps, ws, a) - 2.0 * CrossSum(ps, ws, a, d) + SquaredDots(ps, d)
    decreases |ps|
  {
    if |ps| > 0 {
      SquaredErrorShift(ps[..|ps| - 1], ws[..|ps| - 1], a, d);
      ResidualShift(ws[|ps| - 1], Lift(ps[|ps| - 1]), a, d);
    }
  }

  /** The cross term is `d . c - d . (M a)` in sum form. */
  lemma {:induction false} CrossSumSplit(ps: seq<Point>, ws: seq<real>, a: Vec3, d: Vec3)
    requires |ps| == |ws|
    ensures CrossSum(ps, ws, a, d)
         == d.Dot(WeightedLiftSum(ps, ws)) - d.Dot(WeightedLiftSum(ps, LiftDots(ps, a)))
    decreases |ps|
  {
    if |ps| > 0 {
      CrossSumSplit(ps[..|ps| - 1], ws[..|ps| - 1], a, d);
      LiftDotsPrefix(ps, a);
      DotAdd(d, WeightedLiftSum(ps[..|ps| - 1], ws[..|ps| - 1]), Lift(ps[|ps| - 1]).Scale(ws[|ps| - 1]));
      DotAdd(d, WeightedLiftSum(ps[..|ps| - 1], LiftDots(ps[..|ps| - 1], a)),
             Lift(ps[|ps| - 1]).Scale(a.Dot(Lift(ps[|ps| - 1]))));
      CrossStep(ws[|ps| - 1], Lift(ps[|ps| - 1]), a, d);
    }
  }

  /** Pythagoras for one row: if `a` solves the normal equations
      `M a == Σ ws[i] (P[i], 1)`, any other row `b` has the error of `a`
      plus `Σ ((b - a) . (P[i], 1))^2`. */
  lemma RowErrorDecomposition(ps: seq<Point>, ws: seq<real>, a: Vec3, b: Vec3)
    requires |ps| == |ws|
    requires NormalMatrix(ps).MulVec(a) == WeightedLiftSum(ps, ws)
    ensures SquaredError(ps, ws, b) == SquaredError(ps, ws, a) + SquaredDots(ps, b.Sub(a))
  {
    NormalMulVec(ps, a);
    CrossSumSplit(ps, ws, a, b.Sub(a));
    SquaredErrorShift(ps, ws, a, b.Sub(a));
    assert a.Add(b.Sub(a)) == b;
  }

  /** With an invertible normal matrix, `d^T M d` is positive for every
      non-zero `d`: the normal matrix is positive definite. */
  lemma PositiveDefinite(ps: seq<Point>, d: Vec3)
    requires NormalMatrix(ps).Det() != 0.0 && d != ZeroVec()
    ensures SquaredDots(ps, d) > 0.0
    ensures d.Dot(NormalMatrix(ps).MulVec(d)) > 0.0
  {
    NormalQuadratic(ps, d);
    if forall i :: 0 <= i < |ps| ==> d.Dot(Lift(ps[i])) == 0.0 {
      DegenerateSingular(ps, d);
    } else {
      var i :| 0 <= i < |ps| && d.Dot(Lift(ps[i])) != 0.0;
      SquaredDotsPositive(ps, d, i);
    }
  }

  /** The squared distance between two points. */
  function SquaredDistance(p: Point, q: Point): real {
    Sq(p.x - q.x) + Sq(p.y - q.y)
  }

  /** The sum over `i` of the squared distance between `Q[i]` and the image
      of `P[i]` under `t`. */
  function TotalError(ps: seq<Point>, qs: seq<Point>, t: Mat2x3): real
    requires |ps| == |qs|
    decreases |ps|
  {
    if |ps| == 0 then 0.0
    else TotalError(ps[..|ps| - 1], qs[..|ps| - 1], t) + SquaredDistance(qs[|ps| - 1], ApplyAffine(t, ps[|ps| - 1]))
  }

  /** The total error is the error of the first row against the x
      coordinates plus the error of the second row against the y
      coordinates. */
  lemma {:induction false} TotalErrorSplit(ps: seq<Point>, qs: seq<Point>, t: Mat2x3)
    requires |ps| == |qs|
    ensures TotalError(ps, qs, t) == SquaredError(ps, Coords(qs, 0), t.r0) + SquaredError(ps, Coords(qs, 1), t.r1)
    decreases |ps|
  {
    if |ps| > 0 {
      TotalErrorSplit(ps[..|ps| - 1], qs[..|ps| - 1], t);
      CoordsPrefix(qs, 0);
      CoordsPrefix(qs, 1);
    }
  }

  /** One row of the estimate beats every other row `b`, strictly unless `b`
      is that row. */
  lemma RowOptimal(ps: seq<Point>, ws: seq<real>, a: Vec3, b: Vec3)
    requires |ps| == |ws| && NormalMatrix(ps).Det() != 0.0
    requires NormalMatrix(ps).MulVec(a) == WeightedLiftSum(ps, ws)
    ensures SquaredError(ps, ws, a) <= SquaredError(ps, ws, b)
    ensures SquaredError(ps, ws, a) == SquaredError(ps, ws, b) <==> a == b
  {
    RowErrorDecomposition(ps, ws, a, b);
    SquaredDotsNonNegative(ps, b.Sub(a));
    if a != b {
      assert b.Sub(a) != ZeroVec();
      PositiveDefinite(ps, b.Sub(a));
    }
  }

  /** The least-squares property: with an invertible normal matrix the
      estimate has the smallest total squared error of all affine
      transformations, and any transformation with the same error is the
      estimate itself. */
  lemma LeastSquaresOptimal(ps: seq<Point>, qs: seq<Point>, t: Mat2x3)
    requires |ps| == |qs| && NormalMatrix(ps).Det() != 0.0
    ensures TotalError(ps, qs, Estimate(ps, qs).value) <= TotalError(ps, qs, t)
    ensures TotalError(ps, qs, Estimate(ps, qs).value) == TotalError(ps, qs, t) <==> t == Estimate(ps, qs).value
  {
    TotalErrorSplit(ps, qs, t);
    TotalErrorSplit(ps, qs, Estimate(ps, qs).value);
    RowOptimal(ps, Coords(qs, 0), Estimate(ps, qs).value.Row(0), t.r0);
    RowOptimal(ps, Coords(qs, 1), Estimate(ps, qs).value.Row(1), t.r1);
  }
}
