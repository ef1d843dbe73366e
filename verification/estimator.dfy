/** The least-squares 2D affine transformation estimator: homogeneous lift of
    a point, the normal matrix of a point sequence, the right-hand sides
    `c_j` and the final assembly of the 2x3 transformation, following
    formulas (12), (14), (16) and (17) of Späth, "Fitting affine and
    orthogonal transformations between two sets of points" (2004). */
module Estimator {
  import opened Results
  import opened LinAlg

  datatype Point = Point(x: real, y: real)

  /** The two conditions under which `c_j_tilde` throws; the source throws
      the bare integers 0 and 1 for them. */
  datatype Error = SizeMismatch | InvalidIndex {
    /** The integer thrown: `0` for unequal lengths, `1` for a bad index. */
    function Code(): (c: int)
      ensures c == 0 <==> this == SizeMismatch
      ensures c == 1 <==> this == InvalidIndex
    {
      if SizeMismatch? then 0 else 1
    }
  }

  /** Formula (12): the homogeneous lift `(x, y, 1)` of a point. */
  function Lift(q: Point): (r: Vec3)
    ensures r.z == 1.0 && Project(r) == q
  {
    Vec3(q.x, q.y, 1.0)
  }

  /** Drops the homogeneous coordinate again. */
  function Project(v: Vec3): Point {
    Point(v.x, v.y)
  }

  /** Coordinate `j` of a point: `x` for 0 and `y` for 1 (the `switch` in
      `c_j_tilde`). */
  function Coord(p: Point, j: nat): real
    requires j < 2
  {
    match j
    case 0 => p.x
    case 1 => p.y
  }

  /** Coordinate `j` of every point of `ps`. */
  function Coords(ps: seq<Point>, j: nat): (ws: seq<real>)
    requires j < 2
    ensures |ws| == |ps|
    ensures forall i :: 0 <= i < |ps| ==> ws[i] == Coord(ps[i], j)
  {
    seq(|ps|, i requires 0 <= i < |ps| => Coord(ps[i], j))
  }

  lemma CoordsPrefix(ps: seq<Point>, j: nat)
    requires j < 2 && |ps| > 0
    ensures Coords(ps, j)[..|ps| - 1] == Coords(ps[..|ps| - 1], j)
  {
  }

  /** Formula (14): the normal matrix, the sum over the points of the outer
      product of each lifted point with itself, accumulated in index order.
      Its bottom-right entry counts the points. */
  function NormalMatrix(ps: seq<Point>): (m: Mat3)
    ensures m.r2.z == |ps| as real
    decreases |ps|
  {
    if |ps| == 0 then ZeroMat()
    else NormalMatrix(ps[..|ps| - 1]).Add(Outer(Lift(ps[|ps| - 1]), Lift(ps[|ps| - 1])))
  }

  /** The lifted points of `ps` weighted by `ws` and summed, in index order. */
  function WeightedLiftSum(ps: seq<Point>, ws: seq<real>): Vec3
    requires |ps| == |ws|
    decreases |ps|
  {
    if |ps| == 0 then ZeroVec()
    else WeightedLiftSum(ps[..|ps| - 1], ws[..|ps| - 1]).Add(Lift(ps[|ps| - 1]).Scale(ws[|ps| - 1]))
  }

  /** Formula (16): the right-hand side `c_j`. Its components are the sums
      of `qSet[i].x * p`, `qSet[i].y * p` and `1 * p`, with `p` coordinate
      `j` of `pSet[i]`; that is, the lifted `qSet` points weighted by
      coordinate `j` of their partners. Unequal lengths fail first; then an
      index other than 0 or 1 fails. */
  function CjTilde(j: nat, qSet: seq<Point>, pSet: seq<Point>): (r: Result<Vec3, Error>)
    ensures |qSet| != |pSet| ==> r == Failure(SizeMismatch)
    ensures |qSet| == |pSet| && j > 1 ==> r == Failure(InvalidIndex)
    ensures r.Success? <==> |qSet| == |pSet| && j < 2
    ensures r.Failure? ==> (r.error.Code() == 0 <==> |qSet| != |pSet|) && (r.error.Code() == 1 <==> |qSet| == |pSet|)
  {
    if |qSet| != |pSet| then Failure(SizeMismatch)
    else if j > 1 then Failure(InvalidIndex)
    else Success(WeightedLiftSum(qSet, Coords(pSet, j)))
  }

  /** Formula (17): the 2x3 transformation whose row `j` is the solution
      `a_j` of `M a_j == c_j`, with `M` the normal matrix of `ps` and `c_j`
      the right-hand side for `ps` against `qs`. One inverse serves both
      rows. The source has no singularity check, so an invertible normal
      matrix is required of the caller whenever the lengths agree. */
  function Estimate(ps: seq<Point>, qs: seq<Point>): (r: Result<Mat2x3, Error>)
    requires |ps| == |qs| ==> NormalMatrix(ps).Det() != 0.0
    ensures r.Failure? <==> |ps| != |qs|
    ensures r.Failure? ==> r.error == SizeMismatch
    ensures r.Success? ==>
              forall j: nat :: j < 2 ==> NormalMatrix(ps).MulVec(r.value.Row(j)) == CjTilde(j, ps, qs).value
  {
    var m := NormalMatrix(ps);
    var c0 :- CjTilde(0, ps, qs);
    // Once the first call has passed the length check, the second cannot fail.
    var c1 := CjTilde(1, ps, qs).value;
    var inv := Inverse(m);
    Success(Mat3x2(inv.MulVec(c0), inv.MulVec(c1)).Transpose())
  }

  /** The image of `p` under the affine map whose rows are those of `t`. */
  function ApplyAffine(t: Mat2x3, p: Point): Point {
    Point(t.r0.Dot(Lift(p)), t.r1.Dot(Lift(p)))
  }
}
