/** Pairing of two equal-length sequences index by index, the view in which
    the estimator reads its two point lists. */
module Pairs {

  function Zip<A, B>(xs: seq<A>, ys: seq<B>): (zs: seq<(A, B)>)
    requires |xs| == |ys|
    ensures |zs| == |xs|
    ensures forall i :: 0 <= i < |zs| ==> zs[i] == (xs[i], ys[i])
  {
    seq(|xs|, i requires 0 <= i < |xs| => (xs[i], ys[i]))
  }

  /** Zipping commutes with taking a prefix. */
  lemma ZipPrefix<A, B>(xs: seq<A>, ys: seq<B>, k: nat)
    requires |xs| == |ys| && k <= |xs|
    ensures Zip(xs, ys)[..k] == Zip(xs[..k], ys[..k])
  {
  }

  /** A sequence is its part before `k`, its element at `k` and its part
      after `k`. */
  lemma Splice<T>(t: seq<T>, k: nat)
    requires k < |t|
    ensures t == t[..k] + [t[k]] + t[k + 1..]
  {
  }

  lemma MultisetCancel<T>(a: multiset<T>, b: multiset<T>, x: T)
    requires a + multiset{x} == b + multiset{x}
    ensures a == b
  {
    assert a == (a + multiset{x}) - multiset{x};
  }

  /** Removing the last element of `s` and a matching element of `t` keeps
      two equal multisets equal. */
  lemma RemoveMatching<T>(s: seq<T>, t: seq<T>, k: nat)
    requires multiset(s) == multiset(t) && |s| > 0
    requires k < |t| && t[k] == s[|s| - 1]
    ensures multiset(s[..|s| - 1]) == multiset(t[..k] + t[k + 1..])
  {
    calc {
      multiset(s[..|s| - 1]) + multiset{t[k]};
      { assert s == s[..|s| - 1] + [s[|s| - 1]]; }
      multiset(s);
      multiset(t);
      { assert t == (t[..k] + [t[k]]) + t[k + 1..]; }
      multiset(t[..k] + [t[k]]) + multiset(t[k + 1..]);
      multiset(t[..k]) + multiset{t[k]} + multiset(t[k + 1..]);
      multiset(t[..k] + t[k + 1..]) + multiset{t[k]};
    }
    MultisetCancel(multiset(s[..|s| - 1]), multiset(t[..k] + t[k + 1..]), t[k]);
  }
}
