/** The example in `main`: the four points of the "diamond" of radius 1
    mapped onto a square around `(1, 1)`. The lemmas are stated for a
    diamond of any non-zero radius `r` and any offset `s`; `MainData` shows
    that `main`'s data is the case `r == 1`, and the source's `sqrtf(2)/2`
    is one value of `s`. */
module Example {
  import opened Results
  import opened LinAlg
  import opened Estimator
  import opened Recovery

  lemma NormalSnoc(ps: seq<Point>, p: Point)
    ensures NormalMatrix(ps + [p]) == NormalMatrix(ps).Add(Outer(Lift(p), Lift(p)))
  {
    assert (ps + [p])[..|ps|] == ps;
  }

  lemma NormalOfFour(a: Point, b: Point, c: Point, d: Point)
    ensures NormalMatrix([a, b, c, d])
         == ZeroMat().Add(Outer(Lift(a), Lift(a))).Add(Outer(Lift(b), Lift(b))).Add(Outer(Lift(c), Lift(c))).Add(Outer(Lift(d), Lift(d)))
  {
    NormalSnoc([], a);
    NormalSnoc([a], b);
    NormalSnoc([a, b], c);
    NormalSnoc([a, b, c], d);
    assert [a, b, c, d] == [a, b, c] + [d];
    assert [a, b, c] == [a, b] + [c];
    assert [a, b] == [a] + [b];
    assert [a] == [] + [a];
  }

  lemma WeightedLiftSumSnoc(ps: seq<Point>, ws: seq<real>, p: Point, w: real)
    requires |ps| == |ws|
    ensures WeightedLiftSum(ps + [p], ws + [w]) == WeightedLiftSum(ps, ws).Add(Lift(p).Scale(w))
  {
    assert (ps + [p])[..|ps|] == ps;
    assert (ws + [w])[..|ps|] == ws;
  }

  lemma WeightedLiftSumOfFour(a: Point, b: Point, c: Point, d: Point, wa: real, wb: real, wc: real, wd: real)
    ensures WeightedLiftSum([a, b, c, d], [wa, wb, wc, wd])
         == ZeroVec().Add(Lift(a).Scale(wa)).Add(Lift(b).Scale(wb)).Add(Lift(c).Scale(wc)).Add(Lift(d).Scale(wd))
  {
    WeightedLiftSumSnoc([], [], a, wa);
    WeightedLiftSumSnoc([a], [wa], b, wb);
    WeightedLiftSumSnoc([a, b], [wa, wb], c, wc);
    WeightedLiftSumSnoc([a, b, c], [wa, wb, wc], d, wd);
    assert [a, b, c, d] == [a, b, c] + [d] && [wa, wb, wc, wd] == [wa, wb, wc] + [wd];
    assert [a, b, c] == [a, b] + [c] && [wa, wb, wc] == [wa, wb] + [wc];
    assert [a, b] == [a] + [b] && [wa, wb] == [wa] + [wb];
    assert [a] == [] + [a] && [wa] == [] + [wa];
  }

  /** The four points of the diamond of radius `r` around the origin. */
  function DiamondPoints(r: real): seq<Point> {
    [Point(r, 0.0), Point(0.0, r), Point(-r, 0.0), Point(0.0, -r)]
  }

  /** The images of the diamond of radius `r` under the map
      `(x, y) |-> (s x - s y + 1, s x + s y + 1)`. */
  function SquarePoints(r: real, s: real): seq<Point> {
    [Point(1.0 + s * r, 1.0 + s * r), Point(1.0 - s * r, 1.0 + s * r), Point(1.0 - s * r, 1.0 - s * r), Point(1.0 + s * r, 1.0 - s * r)]
  }

  /** The transformation `main` prints: `[[s, -s, 1], [s, s, 1]]`. */
  function ExampleTransform(s: real): Mat2x3 {
    Mat2x3(Vec3(s, -s, 1.0), Vec3(s, s, 1.0))
  }

  /** The normal matrix of the diamond of radius `r` is
      `diag(2 r^2, 2 r^2, 4)`. */
  lemma DiamondNormal(r: real)
    ensures NormalMatrix(DiamondPoints(r)) == Mat3(Vec3(2.0 * (r * r), 0.0, 0.0), Vec3(0.0, 2.0 * (r * r), 0.0), Vec3(0.0, 0.0, 4.0))
  {
    NormalOfFour(Point(r, 0.0), Point(0.0, r), Point(-r, 0.0), Point(0.0, -r));
  }

  lemma DiagonalDet(a: real, b: real, c: real)
    ensures Mat3(Vec3(a, 0.0, 0.0), Vec3(0.0, b, 0.0), Vec3(0.0, 0.0, c)).Det() == a * (b * c)
  {
  }

  /** A diamond of non-zero radius has an invertible normal matrix. */
  lemma DiamondDet(r: real)
    requires r != 0.0
    ensures NormalMatrix(DiamondPoints(r)).Det() > 0.0
  {
    DiamondNormal(r);
    DiagonalDet(2.0 * (r * r), 2.0 * (r * r), 4.0);
    SqPositive(r);
    var p := MulPositive(2.0 * (r * r), 4.0);
    var q := MulPositive(2.0 * (r * r), p);
  }

  lemma RecoveryOfFour(a: Point, b: Point, c: Point, d: Point, qs: seq<Point>, t: Mat2x3)
    requires NormalMatrix([a, b, c, d]).Det() != 0.0
    requires qs == [ApplyAffine(t, a), ApplyAffine(t, b), ApplyAffine(t, c), ApplyAffine(t, d)]
    ensures Estimate([a, b, c, d], qs) == Success(t)
  {
    ExactRecovery([a, b, c, d], qs, t);
  }

  lemma SquareImages(r: real, s: real)
    ensures SquarePoints(r, s) == [ApplyAffine(ExampleTransform(s), Point(r, 0.0)), ApplyAffine(ExampleTransform(s), Point(0.0, r)),
                                   ApplyAffine(ExampleTransform(s), Point(-r, 0.0)), ApplyAffine(ExampleTransform(s), Point(0.0, -r))]
  {
    assert ApplyAffine(ExampleTransform(s), Point(r, 0.0)) == Point(1.0 + s * r, 1.0 + s * r);
    assert ApplyAffine(ExampleTransform(s), Point(0.0, r)) == Point(1.0 - s * r, 1.0 + s * r);
    assert ApplyAffine(ExampleTransform(s), Point(-r, 0.0)) == Point(1.0 - s * r, 1.0 - s * r);
    assert ApplyAffine(ExampleTransform(s), Point(0.0, -r)) == Point(1.0 + s * r, 1.0 - s * r);
  }

  lemma DiamondEstimate(r: real, s: real)
    requires r != 0.0
    ensures (DiamondDet(r); Estimate(DiamondPoints(r), SquarePoints(r, s)) == Success(ExampleTransform(s)))
  {
    DiamondDet(r);
    SquareImages(r, s);
    RecoveryOfFour(Point(r, 0.0), Point(0.0, r), Point(-r, 0.0), Point(0.0, -r), SquarePoints(r, s), ExampleTransform(s));
  }

  /** The `P` of `main`. */
  function MainPoints(): seq<Point> {
    [Point(1.0, 0.0), Point(0.0, 1.0), Point(-1.0, 0.0), Point(0.0, -1.0)]
  }

  /** The `Q` of `main`, with `s` in place of `sqrtf(2)/2`. */
  function MainTargets(s: real): seq<Point> {
    [Point(1.0 + s, 1.0 + s), Point(1.0 - s, 1.0 + s), Point(1.0 - s, 1.0 - s), Point(1.0 + s, 1.0 - s)]
  }

  /** `main`'s data is the diamond of radius 1 and its images. */
  lemma MainData(s: real)
    ensures MainPoints() == DiamondPoints(1.0) && MainTargets(s) == SquarePoints(1.0, s)
  {
  }

  /** The normal matrix of `main`'s `P` is invertible. */
  lemma MainDet()
    ensures NormalMatrix(MainPoints()).Det() > 0.0
  {
    MainData(0.0);
    DiamondDet(1.0);
  }

  /** `main` prints `[[s, -s, 1], [s, s, 1]]`. */
  lemma ExampleEstimate(s: real)
    ensures (MainDet(); Estimate(MainPoints(), MainTargets(s)) == Success(ExampleTransform(s)))
  {
    MainData(s);
    DiamondEstimate(1.0, s);
  }

  /** With `s * s == 1/2` the linear part of the result is a rotation: its
      columns are orthonormal and its determinant is 1. Its cosine (entry
      (0,0)) and sine (entry (1,0)) are both `s`, so the angle is 45 degrees
      when `s > 0`, as for `s == sqrt(2)/2`, and 225 degrees when `s < 0`. */
  lemma ExampleIsRotation(s: real)
    requires s * s == 0.5
    ensures ExampleTransform(s).r0.x * ExampleTransform(s).r0.x + ExampleTransform(s).r1.x * ExampleTransform(s).r1.x == 1.0
    ensures ExampleTransform(s).r0.y * ExampleTransform(s).r0.y + ExampleTransform(s).r1.y * ExampleTransform(s).r1.y == 1.0
    ensures ExampleTransform(s).r0.x * ExampleTransform(s).r0.y + ExampleTransform(s).r1.x * ExampleTransform(s).r1.y == 0.0
    ensures ExampleTransform(s).r0.x * ExampleTransform(s).r1.y - ExampleTransform(s).r0.y * ExampleTransform(s).r1.x == 1.0
    ensures ExampleTransform(s).r0.x == ExampleTransform(s).r1.x == s
    ensures ExampleTransform(s).r0.y == -ExampleTransform(s).r1.x
  {
    assert (-s) * (-s) == s * s;
    assert s * (-s) == -(s * s);
  }

  /** The diamond with the targets of its first two points swapped. */
  function SwappedTargets(r: real): seq<Point> {
    [Point(0.0, r), Point(r, 0.0), Point(-r, 0.0), Point(0.0, -r)]
  }

  lemma WeightedLiftSumOfFourY(a: Point, b: Point, c: Point, d: Point, wa: real, wb: real, wc: real, wd: real)
    ensures WeightedLiftSum([a, b, c, d], [wa, wb, wc, wd]).y == wa * a.y + wb * b.y + wc * c.y + wd * d.y
  {
    WeightedLiftSumOfFour(a, b, c, d, wa, wb, wc, wd);
  }

  /** The second component of `c_0` for the swapped pairing is `r^2`. */
  lemma SwappedRightHandSide(r: real)
    ensures CjTilde(0, DiamondPoints(r), SwappedTargets(r)).value.y == r * r
  {
    var ps, qs := DiamondPoints(r), SwappedTargets(r);
    assert Coords(qs, 0) == [0.0, r, -r, 0.0];
    WeightedLiftSumOfFourY(ps[0], ps[1], ps[2], ps[3], 0.0, r, -r, 0.0);
  }

  /** The normal matrix of the diamond sends the first row of the identity
      to a vector with second component 0. */
  lemma IdentityRightHandSide(r: real)
    ensures NormalMatrix(DiamondPoints(r)).MulVec(Identity().Row(0)).y == 0.0
  {
    DiamondNormal(r);
  }

  lemma SwappedSameTargets(r: real)
    ensures multiset(SwappedTargets(r)) == multiset(DiamondPoints(r))
  {
    var ps, qs := DiamondPoints(r), SwappedTargets(r);
    assert qs == [ps[1], ps[0]] + ps[2..];
    assert ps == [ps[0], ps[1]] + ps[2..];
  }

  lemma SwappedNotIdentity(r: real)
    requires r != 0.0
    ensures (DiamondDet(r); Estimate(DiamondPoints(r), SwappedTargets(r)) != Success(Identity()))
  {
    DiamondDet(r);
    SwappedRightHandSide(r);
    IdentityRightHandSide(r);
    SqPositive(r);
  }

  /** The pairing matters: fitting the diamond to itself gives the identity,
      but swapping the targets of the first two points gives something else,
      although the targets form the same multiset. */
  lemma PairingMatters(r: real)
    requires r != 0.0
    ensures multiset(SwappedTargets(r)) == multiset(DiamondPoints(r))
    ensures (DiamondDet(r); Estimate(DiamondPoints(r), DiamondPoints(r)) == Success(Identity()))
    ensures (DiamondDet(r); Estimate(DiamondPoints(r), SwappedTargets(r)) != Success(Identity()))
  {
    DiamondDet(r);
    IdentityRecovery(DiamondPoints(r));
    SwappedSameTargets(r);
    SwappedNotIdentity(r);
  }
}
