/** Sequence helpers shared by the loader, the centre estimator and the chart:
    the first element failing a test, the elements with a given key (a list
    filled by `append` in a loop), and a running real sum. */
module Seqs {

  /** Index of the first element of `s` that fails `p`, or `|s|` when all pass. */
  function FirstNot<T>(s: seq<T>, p: T -> bool): (b: nat)
    ensures b <= |s|
    ensures forall j :: 0 <= j < b ==> p(s[j])
    ensures b < |s| ==> !p(s[b])
  {
    if s == [] || !p(s[0]) then 0 else 1 + FirstNot(s[1..], p)
  }

  lemma PrefixSnoc<T>(s: seq<T>, k: nat)
    requires k < |s|
    ensures s[..k + 1] == s[..k] + [s[k]]
  {
  }

  /** `FirstNot` is pinned down by the element at which the test first fails. */
  lemma FirstNotAt<T>(s: seq<T>, p: T -> bool, k: nat)
    requires k < |s| && FirstNot(s, p) >= k && !p(s[k])
    ensures FirstNot(s, p) == k
  {
  }

  /** An element passing the test moves the bound on `FirstNot` past it. */
  lemma FirstNotStep<T>(s: seq<T>, p: T -> bool, k: nat)
    requires k < |s| && FirstNot(s, p) >= k && p(s[k])
    ensures FirstNot(s, p) >= k + 1
  {
  }

  /** The elements of `s` whose key is `k`, in their order in `s`: what a loop
      appending each matching element to an initially empty list leaves. */
  function Having<T, K(==)>(s: seq<T>, key: T -> K, k: K): seq<T>
  {
    if s == [] then []
    else Having(s[..|s| - 1], key, k) + (if key(s[|s| - 1]) == k then [s[|s| - 1]] else [])
  }

  /** The positions in `s` of the elements whose key is `k`, in increasing order. */
  function Positions<T, K(==)>(s: seq<T>, key: T -> K, k: K): seq<nat>
  {
    if s == [] then []
    else Positions(s[..|s| - 1], key, k) + (if key(s[|s| - 1]) == k then [|s| - 1] else [])
  }

  /** Sum of `f` over `s`, added left to right. */
  function Sum<T>(s: seq<T>, f: T -> real): real
  {
    if s == [] then 0.0 else Sum(s[..|s| - 1], f) + f(s[|s| - 1])
  }

  /** Appending one element extends every key's list by that element or by nothing. */
  lemma HavingSnoc<T, K>(s: seq<T>, x: T, key: T -> K)
    ensures forall k :: Having(s + [x], key, k) == Having(s, key, k) + (if key(x) == k then [x] else [])
  {
    assert (s + [x])[..|s|] == s;
  }

  lemma SumSnoc<T>(s: seq<T>, x: T, f: T -> real)
    ensures Sum(s + [x], f) == Sum(s, f) + f(x)
  {
    assert (s + [x])[..|s|] == s;
  }

  /** An element is kept exactly when it occurs in `s` and has key `k`. */
  lemma {:induction false} HavingMembers<T, K>(s: seq<T>, key: T -> K, k: K, x: T)
    ensures x in Having(s, key, k) <==> x in s && key(x) == k
  {
    if s != [] {
      var init := s[..|s| - 1];
      HavingMembers(init, key, k, x);
      assert s == init + [s[|s| - 1]];
    }
  }

  /** Filtering never lengthens a sequence. */
  lemma {:induction false} HavingNoLonger<T, K>(s: seq<T>, key: T -> K, k: K)
    ensures |Having(s, key, k)| <= |s|
  {
    if s != [] {
      HavingNoLonger(s[..|s| - 1], key, k);
    }
  }

  /** `Having` is the ordered subsequence of `s` at `Positions`: the positions
      increase, and they are exactly the positions whose element has key `k`. */
  lemma {:induction false} HavingIsOrderedSubsequence<T, K>(s: seq<T>, key: T -> K, k: K)
    ensures |Having(s, key, k)| == |Positions(s, key, k)|
    ensures forall i :: 0 <= i < |Positions(s, key, k)| ==>
      Positions(s, key, k)[i] < |s| && Having(s, key, k)[i] == s[Positions(s, key, k)[i]]
    ensures forall i, j :: 0 <= i < j < |Positions(s, key, k)| ==>
      Positions(s, key, k)[i] < Positions(s, key, k)[j]
    ensures forall p :: 0 <= p < |s| ==> (p in Positions(s, key, k) <==> key(s[p]) == k)
  {
    if s != [] {
      var init := s[..|s| - 1];
      HavingIsOrderedSubsequence(init, key, k);
    }
  }

  /** Bounds on every term bound the sum. */
  lemma {:induction false} SumBounds<T>(s: seq<T>, f: T -> real, lo: real, hi: real)
    requires forall x :: x in s ==> lo <= f(x) <= hi
    ensures lo * |s| as real <= Sum(s, f) <= hi * |s| as real
  {
    if s != [] {
      var init := s[..|s| - 1];
      assert forall x :: x in init ==> x in s;
      SumBounds(init, f, lo, hi);
      assert s[|s| - 1] in s;
      assert Sum(s, f) == Sum(init, f) + f(s[|s| - 1]);
      BoundStep(lo, hi, |init| as real, Sum(init, f), f(s[|s| - 1]));
    }
  }

  lemma BoundStep(lo: real, hi: real, n: real, t: real, x: real)
    requires lo * n <= t <= hi * n && lo <= x <= hi
    ensures lo * (n + 1.0) <= t + x <= hi * (n + 1.0)
  {
  }
}
