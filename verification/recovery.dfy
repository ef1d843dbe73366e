/** What the estimate is: the unique solution of the normal equations, and
    therefore exactly the transformation that produced the data whenever
    `Q` is an affine image of `P`. */
module Recovery {
  import opened Results
  import opened LinAlg
  import opened Estimator
  import opened Normal

  /** Row `j` of the estimate is the one and only solution `a` of
      `M a == c_j`. */
  lemma EstimateUnique(ps: seq<Point>, qs: seq<Point>, j: nat, a: Vec3)
    requires |ps| == |qs| && NormalMatrix(ps).Det() != 0.0 && j < 2
    ensures NormalMatrix(ps).MulVec(a) == CjTilde(j, ps, qs).value <==> a == Estimate(ps, qs).value.Row(j)
  {
    InverseSolves(NormalMatrix(ps), CjTilde(j, ps, qs).value, a);
    InverseSolves(NormalMatrix(ps), CjTilde(j, ps, qs).value, Estimate(ps, qs).value.Row(j));
  }

  /** Coordinate `j` of the image of each point under `t` is the dot product
      of row `j` of `t` with the lifted point. */
  lemma CoordsOfImages(ps: seq<Point>, qs: seq<Point>, t: Mat2x3, j: nat)
    requires |ps| == |qs| && j < 2
    requires forall i :: 0 <= i < |ps| ==> qs[i] == ApplyAffine(t, ps[i])
    ensures Coords(qs, j) == LiftDots(ps, t.Row(j))
  {
  }

  /** On data with `Q[i] == t(P[i])` for every `i`, the right-hand side `c_j`
      is `M` times row `j` of `t`. */
  lemma RightHandSideOfImages(ps: seq<Point>, qs: seq<Point>, t: Mat2x3, j: nat)
    requires |ps| == |qs| && j < 2
    requires forall i :: 0 <= i < |ps| ==> qs[i] == ApplyAffine(t, ps[i])
    ensures CjTilde(j, ps, qs).value == NormalMatrix(ps).MulVec(t.Row(j))
  {
    CoordsOfImages(ps, qs, t, j);
    NormalMulVec(ps, t.Row(j));
  }

  /** Exactness: when every `Q[i]` is the image of `P[i]` under an affine map
      `t` and the normal matrix is invertible, the estimate is `t` itself. */
  lemma ExactRecovery(ps: seq<Point>, qs: seq<Point>, t: Mat2x3)
    requires |ps| == |qs| && NormalMatrix(ps).Det() != 0.0
    requires forall i :: 0 <= i < |ps| ==> qs[i] == ApplyAffine(t, ps[i])
    ensures Estimate(ps, qs) == Success(t)
  {
    RightHandSideOfImages(ps, qs, t, 0);
    RightHandSideOfImages(ps, qs, t, 1);
    EstimateUnique(ps, qs, 0, t.Row(0));
    EstimateUnique(ps, qs, 1, t.Row(1));
  }

  /** The identity as a 2x3 affine transformation. */
  function Identity(): (t: Mat2x3)
    ensures forall p: Point :: ApplyAffine(t, p) == p
  {
    Mat2x3(Vec3(1.0, 0.0, 0.0), Vec3(0.0, 1.0, 0.0))
  }

  /** Fitting a point set to itself gives the identity. */
  lemma IdentityRecovery(ps: seq<Point>)
    requires NormalMatrix(ps).Det() != 0.0
    ensures Estimate(ps, ps) == Success(Identity())
  {
    ExactRecovery(ps, ps, Identity());
  }

  /** Fitting a point set to a translated copy of itself gives that
      translation. */
  lemma TranslationRecovery(ps: seq<Point>, qs: seq<Point>, dx: real, dy: real)
    requires |ps| == |qs| && NormalMatrix(ps).Det() != 0.0
    requires forall i :: 0 <= i < |ps| ==> qs[i] == Point(ps[i].x + dx, ps[i].y + dy)
    ensures Estimate(ps, qs) == Success(Mat2x3(Vec3(1.0, 0.0, dx), Vec3(0.0, 1.0, dy)))
  {
    ExactRecovery(ps, qs, Mat2x3(Vec3(1.0, 0.0, dx), Vec3(0.0, 1.0, dy)));
  }
}
