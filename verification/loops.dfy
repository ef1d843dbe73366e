/** The accumulation loops of `Q_set_to_Q_matrix_tilde`, `c_j_tilde` and
    `estimate`, written as the source writes them, and shown to compute the
    functional definitions of the estimator. */
module Loops {
  import opened Results
  import opened LinAlg
  import opened Estimator
  import opened Normal

  /** `Q_set_to_Q_matrix_tilde`: starting from the zero matrix, add the outer
      product of each lifted point with itself. */
  method NormalMatrixLoop(qSet: seq<Point>) returns (m: Mat3)
    ensures m == NormalMatrix(qSet)
    ensures m == MomentsOf(qSet).Matrix()
  {
    m := ZeroMat();
    var i := 0;
    while i < |qSet|
      invariant i <= |qSet|
      invariant m == NormalMatrix(qSet[..i])
    {
      var qTilde := Lift(qSet[i]);
      assert qSet[..i + 1][..i] == qSet[..i];
      m := m.Add(Outer(qTilde, qTilde));
      i := i + 1;
    }
    assert qSet[..|qSet|] == qSet;
    NormalClosedForm(qSet);
  }

  /** Extending the prefix of the weighted lift sum by one point adds the
      point's coordinates times its weight to the three components; the
      products are in the source's order `Q.x * p`. */
  lemma WeightedLiftSumStep(qs: seq<Point>, ws: seq<real>, i: nat, p: real)
    requires |qs| == |ws| && i < |qs| && p == ws[i]
    ensures WeightedLiftSum(qs[..i + 1], ws[..i + 1]).x == WeightedLiftSum(qs[..i], ws[..i]).x + qs[i].x * p
    ensures WeightedLiftSum(qs[..i + 1], ws[..i + 1]).y == WeightedLiftSum(qs[..i], ws[..i]).y + qs[i].y * p
    ensures WeightedLiftSum(qs[..i + 1], ws[..i + 1]).z == WeightedLiftSum(qs[..i], ws[..i]).z + 1.0 * p
  {
    assert qs[..i + 1][..i] == qs[..i];
    assert ws[..i + 1][..i] == ws[..i];
    MulComm(p, qs[i].x);
    MulComm(p, qs[i].y);
  }

  /** `c_j_tilde`: the two guards in the source's order, then three loops,
      one per component of `c_j`. */
  method CjTildeLoops(j: nat, qSet: seq<Point>, pSet: seq<Point>) returns (r: Result<Vec3, Error>)
    ensures r == CjTilde(j, qSet, pSet)
  {
    if |qSet| != |pSet| {
      return Failure(SizeMismatch);
    }
    if j > 1 {
      return Failure(InvalidIndex);
    }
    var m := |qSet|;
    var p: real;

    var c0 := 0.0;
    var i := 0;
    while i < m
      invariant i <= m
      invariant c0 == WeightedLiftSum(qSet[..i], Coords(pSet, j)[..i]).x
    {
      p := Coord(pSet[i], j);
      WeightedLiftSumStep(qSet, Coords(pSet, j), i, p);
      c0 := c0 + qSet[i].x * p;
      i := i + 1;
    }

    var c1 := 0.0;
    i := 0;
    while i < m
      invariant i <= m
      invariant c1 == WeightedLiftSum(qSet[..i], Coords(pSet, j)[..i]).y
    {
      p := Coord(pSet[i], j);
      WeightedLiftSumStep(qSet, Coords(pSet, j), i, p);
      c1 := c1 + qSet[i].y * p;
      i := i + 1;
    }

    var c2 := 0.0;
    i := 0;
    while i < m
      invariant i <= m
      invariant c2 == WeightedLiftSum(qSet[..i], Coords(pSet, j)[..i]).z
    {
      p := Coord(pSet[i], j);
      WeightedLiftSumStep(qSet, Coords(pSet, j), i, p);
      c2 := c2 + 1.0 * p;
      i := i + 1;
    }

    assert qSet[..m] == qSet;
    assert Coords(pSet, j)[..m] == Coords(pSet, j);
    return Success(Vec3(c0, c1, c2));
  }

  /** `estimate`: the normal matrix of `P`, the right-hand sides for `P`
      against `Q`, one inverse, and the two solutions as the rows of the
      result. */
  method EstimateProcedure(ps: seq<Point>, qs: seq<Point>) returns (r: Result<Mat2x3, Error>)
    requires |ps| == |qs| ==> NormalMatrix(ps).Det() != 0.0
    ensures r == Estimate(ps, qs)
  {
    var qTilde := NormalMatrixLoop(ps);
    var c0 := CjTildeLoops(0, ps, qs);
    if c0.Failure? {
      return Failure(c0.error);
    }
    var c1 := CjTildeLoops(1, ps, qs);
    var inv := Inverse(qTilde);
    var a0 := inv.MulVec(c0.value);
    var a1 := inv.MulVec(c1.value);
    var t := Mat3x2(a0, a1);
    return Success(t.Transpose());
  }
}
