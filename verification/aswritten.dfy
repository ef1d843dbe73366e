/** `c_j_tilde` exactly as its guard is written. The index guard rejects
    only `j > 2`, but the `switch` that picks `p_ji` has cases for 0 and 1
    alone, so for `j == 2` no case assigns `p_ji` and every sum reads the
    uninitialised variable. In C++ that read is undefined behaviour, and a
    compiler may give each read a different value or do anything else. This
    model fixes one possible outcome: the parameter `indeterminate` stands
    for a single unknown value that all three loops read. Even that most
    benign outcome leaves the result undetermined (`IndeterminateResult`).
    The defect is latent: `c_j_tilde` is private (lsate.cpp:33) and
    `estimate` passes only 0 and 1 (lsate.cpp:19-20). `Estimator.CjTilde`
    is the corrected function, whose guard rejects every `j > 1`. */
module AsWritten {
  import opened Results
  import opened LinAlg
  import opened Estimator

  /** The value `p_ji` takes at each point: coordinate `j` for 0 and 1, the
      uninitialised value for 2. */
  function SelectedValues(j: nat, pSet: seq<Point>, indeterminate: real): (ws: seq<real>)
    requires j <= 2
    ensures |ws| == |pSet|
    ensures j < 2 ==> ws == Coords(pSet, j)
    ensures j == 2 ==> forall i :: 0 <= i < |ws| ==> ws[i] == indeterminate
  {
    if j < 2 then Coords(pSet, j) else seq(|pSet|, i => indeterminate)
  }

  /** `c_j_tilde` with the guard `j > 2` of the source. */
  function CjTildeAsWritten(j: nat, qSet: seq<Point>, pSet: seq<Point>, indeterminate: real): (r: Result<Vec3, Error>)
    ensures |qSet| != |pSet| ==> r == Failure(SizeMismatch)
    ensures |qSet| == |pSet| && j > 2 ==> r == Failure(InvalidIndex)
    ensures r.Success? <==> |qSet| == |pSet| && j <= 2
  {
    if |qSet| != |pSet| then Failure(SizeMismatch)
    else if j > 2 then Failure(InvalidIndex)
    else Success(WeightedLiftSum(qSet, SelectedValues(j, pSet, indeterminate)))
  }

  /** For every index other than 2 the code as written and the corrected
      function agree, whatever the uninitialised value. */
  lemma AgreesExceptTwo(j: nat, qSet: seq<Point>, pSet: seq<Point>, indeterminate: real)
    requires j != 2
    ensures CjTildeAsWritten(j, qSet, pSet, indeterminate) == CjTilde(j, qSet, pSet)
  {
  }

  /** Index 2 passes the guard as written, while the corrected function
      throws error 1 for it. */
  lemma GuardAdmitsTwo(qSet: seq<Point>, pSet: seq<Point>, indeterminate: real)
    requires |qSet| == |pSet|
    ensures CjTildeAsWritten(2, qSet, pSet, indeterminate).Success?
    ensures CjTilde(2, qSet, pSet) == Failure(InvalidIndex)
  {
  }

  /** `w` added to itself `n` times. */
  function Repeated(n: nat, w: real): real {
    if n == 0 then 0.0 else Repeated(n - 1, w) + w
  }

  lemma {:induction false} RepeatedIsProduct(n: nat, w: real)
    ensures Repeated(n, w) == n as real * w
  {
    if n > 0 {
      RepeatedIsProduct(n - 1, w);
      assert (n - 1) as real * w + w == n as real * w;
    }
  }

  /** With more than zero terms, adding a larger value gives a larger sum. */
  lemma {:induction false} RepeatedMonotone(n: nat, u: real, v: real)
    requires n > 0 && u < v
    ensures Repeated(n, u) < Repeated(n, v)
  {
    if n > 1 {
      RepeatedMonotone(n - 1, u, v);
    }
  }

  /** The last component of a weighted lift sum with one weight `w` at every
      point is `w` added once per point. */
  lemma {:induction false} ConstantWeightCount(ps: seq<Point>, w: real)
    ensures WeightedLiftSum(ps, seq(|ps|, i => w)).z == Repeated(|ps|, w)
    decreases |ps|
  {
    if |ps| > 0 {
      assert seq(|ps|, i => w)[..|ps| - 1] == seq(|ps| - 1, i => w);
      ConstantWeightCount(ps[..|ps| - 1], w);
    }
  }

  /** Under the one-value reading above, for `j == 2` the result as written
      is `(Σ x * u, Σ y * u, m * u)` for the uninitialised value `u`: on any
      non-empty input, two different values of `u` give two different
      results, so the output is not determined by the input. The undefined
      behaviour of the real read only widens the possible outcomes. */
  lemma IndeterminateResult(qSet: seq<Point>, pSet: seq<Point>, u: real, v: real)
    requires |qSet| == |pSet| && |qSet| > 0 && u != v
    ensures CjTildeAsWritten(2, qSet, pSet, u).value.z == |qSet| as real * u
    ensures CjTildeAsWritten(2, qSet, pSet, u) != CjTildeAsWritten(2, qSet, pSet, v)
  {
    assert SelectedValues(2, pSet, u) == seq(|qSet|, i => u);
    assert SelectedValues(2, pSet, v) == seq(|qSet|, i => v);
    ConstantWeightCount(qSet, u);
    ConstantWeightCount(qSet, v);
    RepeatedIsProduct(|qSet|, u);
    if u < v {
      RepeatedMonotone(|qSet|, u, v);
    } else {
      RepeatedMonotone(|qSet|, v, u);
    }
  }
}
