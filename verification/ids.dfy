/**
 * Facts about job ids. A queue hands out the ids 1, 2, ..., lastid from an
 * auto-incremented counter; these lemmas bound how many distinct ids the
 * ready list, the working set and the finished list can hold together.
 */
module Ids {

  /** Every element of `s` occurs once. */
  ghost predicate Distinct(s: seq<int>) {
    forall i, j :: 0 <= i < j < |s| ==> s[i] != s[j]
  }

  /** `s` is strictly increasing, as the ready list is. */
  ghost predicate Increasing(s: seq<int>) {
    forall i, j :: 0 <= i < j < |s| ==> s[i] < s[j]
  }

  /** The set of ids that occur in `s`. */
  function Elems(s: seq<int>): (r: set<int>) {
    set x | x in s
  }

  lemma IncreasingIsDistinct(s: seq<int>)
    requires Increasing(s)
    ensures Distinct(s)
  {
  }

  /** A list without repetitions holds as many ids as it is long. */
  lemma {:induction false} DistinctCard(s: seq<int>)
    requires Distinct(s)
    ensures |Elems(s)| == |s|
  {
    if s != [] {
      DistinctCard(s[1..]);
      assert Elems(s) == {s[0]} + Elems(s[1..]);
      assert s[0] !in Elems(s[1..]);
    }
  }

  /** At most `n` distinct ids have been handed out when the counter stands at `n`. */
  lemma {:induction false} IssuedCard(s: set<int>, n: nat)
    requires forall x :: x in s ==> 1 <= x <= n
    ensures |s| <= n
  {
    if n == 0 {
      assert forall x :: x !in s;
      assert s == {};
    } else {
      IssuedCard(s - {n}, n - 1);
    }
  }

  /** Three pairwise disjoint sets of issued ids hold at most `n` ids together. */
  lemma DisjointIssuedBound(a: set<int>, b: set<int>, c: set<int>, n: nat)
    requires forall x :: x in a + b + c ==> 1 <= x <= n
    requires a !! b && a !! c && b !! c
    ensures |a| + |b| + |c| <= n
  {
    assert |a + b| == |a| + |b|;
    assert |a + b + c| == |a + b| + |c|;
    IssuedCard(a + b + c, n);
  }
}
