/** The estimate reads its inputs only through sums over the pairs
    `(P[i], Q[i])`, so it does not depend on the order in which the pairs
    are listed. */
module Permutation {
  import opened Results
  import opened LinAlg
  import opened Pairs
  import opened Estimator

  /** The three running sums the estimator keeps: the normal matrix and the
      two right-hand sides. */
  datatype Accumulators = Accumulators(normal: Mat3, c0: Vec3, c1: Vec3) {

    function Add(b: Accumulators): Accumulators {
      Accumulators(normal.Add(b.normal), c0.Add(b.c0), c1.Add(b.c1))
    }
  }

  function NoAccumulators(): Accumulators {
    Accumulators(ZeroMat(), ZeroVec(), ZeroVec())
  }

  /** What one pair `(p, q)` adds to the sums. */
  function PairContribution(z: (Point, Point)): Accumulators {
    Accumulators(Outer(Lift(z.0), Lift(z.0)), Lift(z.0).Scale(z.1.x), Lift(z.0).Scale(z.1.y))
  }

  /** The sums over a sequence of pairs, in index order. */
  function Accumulate(zs: seq<(Point, Point)>): Accumulators
    decreases |zs|
  {
    if |zs| == 0 then NoAccumulators()
    else Accumulate(zs[..|zs| - 1]).Add(PairContribution(zs[|zs| - 1]))
  }

  lemma AddAssociative(a: Accumulators, b: Accumulators, c: Accumulators)
    ensures a.Add(b).Add(c) == a.Add(b.Add(c))
  {
  }

  lemma AddCommutative(a: Accumulators, b: Accumulators)
    ensures a.Add(b) == b.Add(a)
  {
  }

  lemma AddZero(a: Accumulators)
    ensures NoAccumulators().Add(a) == a && a.Add(NoAccumulators()) == a
  {
  }

  /** The sums split over concatenation. */
  lemma {:induction false} AccumulateAppend(a: seq<(Point, Point)>, b: seq<(Point, Point)>)
    ensures Accumulate(a + b) == Accumulate(a).Add(Accumulate(b))
    decreases |b|
  {
    if |b| == 0 {
      assert a + b == a;
      AddZero(Accumulate(a));
    } else {
      assert (a + b)[..|a + b| - 1] == a + b[..|b| - 1];
      AccumulateAppend(a, b[..|b| - 1]);
      AddAssociative(Accumulate(a), Accumulate(b[..|b| - 1]), PairContribution(b[|b| - 1]));
    }
  }

  lemma AccumulateSingleton(x: (Point, Point))
    ensures Accumulate([x]) == PairContribution(x)
  {
    assert [x][..0] == [];
    AddZero(PairContribution(x));
  }

  /** Moving one summand to the end. */
  lemma AddSwapLast(a: Accumulators, c: Accumulators, b: Accumulators)
    ensures a.Add(c).Add(b) == a.Add(b).Add(c)
  {
    AddAssociative(a, c, b);
    AddCommutative(c, b);
    AddAssociative(a, b, c);
  }

  /** A pair in the middle may be accumulated last instead. */
  lemma AccumulateMiddle(a: seq<(Point, Point)>, x: (Point, Point), b: seq<(Point, Point)>)
    ensures Accumulate(a + [x] + b) == Accumulate(a + b).Add(PairContribution(x))
  {
    AccumulateAppend(a + [x], b);
    AccumulateAppend(a, [x]);
    AccumulateSingleton(x);
    AccumulateAppend(a, b);
    AddSwapLast(Accumulate(a), PairContribution(x), Accumulate(b));
  }

  /** Taking one pair out of the middle and adding its contribution last
      gives the same sums. */
  lemma AccumulateSplice(t: seq<(Point, Point)>, k: nat)
    requires k < |t|
    ensures Accumulate(t) == Accumulate(t[..k] + t[k + 1..]).Add(PairContribution(t[k]))
  {
    Splice(t, k);
    AccumulateMiddle(t[..k], t[k], t[k + 1..]);
  }

  /** The sums depend only on the multiset of pairs. */
  lemma {:induction false} AccumulatePermutation(s: seq<(Point, Point)>, t: seq<(Point, Point)>)
    requires multiset(s) == multiset(t)
    ensures Accumulate(s) == Accumulate(t)
    decreases |s|
  {
    if |s| == 0 {
      assert |t| == |multiset(t)| == 0;
    } else {
      assert s[|s| - 1] in multiset(t);
      var k :| 0 <= k < |t| && t[k] == s[|s| - 1];
      RemoveMatching(s, t, k);
      AccumulatePermutation(s[..|s| - 1], t[..k] + t[k + 1..]);
      AccumulateSplice(t, k);
    }
  }

  /** The sums over the zipped pairs are the normal matrix of `ps` and the
      right-hand sides `c_0` and `c_1` of `ps` against `qs`. */
  lemma {:induction false} AccumulateZip(ps: seq<Point>, qs: seq<Point>)
    requires |ps| == |qs|
    ensures Accumulate(Zip(ps, qs))
         == Accumulators(NormalMatrix(ps), CjTilde(0, ps, qs).value, CjTilde(1, ps, qs).value)
    decreases |ps|
  {
    if |ps| > 0 {
      ZipPrefix(ps, qs, |ps| - 1);
      AccumulateZip(ps[..|ps| - 1], qs[..|ps| - 1]);
      CoordsPrefix(qs, 0);
      CoordsPrefix(qs, 1);
    }
  }

  /** Listing the same pairs `(P[i], Q[i])` in another order gives the same
      normal matrix, hence the same determinant, and, when that determinant
      is not zero, the same estimate. */
  lemma EstimatePermutation(ps: seq<Point>, qs: seq<Point>, ps2: seq<Point>, qs2: seq<Point>)
    requires |ps| == |qs| && |ps2| == |qs2|
    requires multiset(Zip(ps, qs)) == multiset(Zip(ps2, qs2))
    ensures NormalMatrix(ps2).Det() == NormalMatrix(ps).Det()
    ensures NormalMatrix(ps).Det() != 0.0 ==> Estimate(ps, qs) == Estimate(ps2, qs2)
  {
    AccumulatePermutation(Zip(ps, qs), Zip(ps2, qs2));
    AccumulateZip(ps, qs);
    AccumulateZip(ps2, qs2);
    assert |Zip(ps, qs)| == |multiset(Zip(ps, qs))| == |multiset(Zip(ps2, qs2))| == |Zip(ps2, qs2)|;
  }
}
