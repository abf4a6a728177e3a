/** Sequence operations standing in for `Array.prototype.filter` and `slice`. */
module Seqs {

  function Min(a: int, b: int): int {
    if a <= b then a else b
  }

  /** `a` can be obtained from `b` by deleting elements (order is preserved). */
  predicate IsSubsequence<T(==)>(a: seq<T>, b: seq<T>)
    decreases |b|
  {
    |a| == 0 ||
    (|b| > 0 && ((a[0] == b[0] && IsSubsequence(a[1..], b[1..])) || IsSubsequence(a, b[1..])))
  }

  /**
    `xs.filter(p)`: the elements satisfying `p`, in their original order. What it
    keeps is stated by the lemmas below rather than here, which keeps proofs that
    mention several filters cheap.
   */
  function Filter<T(==)>(xs: seq<T>, p: T -> bool): (r: seq<T>)
    ensures |r| <= |xs|
  {
    if |xs| == 0 then []
    else if p(xs[0]) then [xs[0]] + Filter(xs[1..], p) else Filter(xs[1..], p)
  }

  /** The filter keeps every satisfying element as many times as it occurs, and nothing else. */
  lemma {:induction false} FilterCounts<T(!new)>(xs: seq<T>, p: T -> bool)
    ensures forall x :: multiset(Filter(xs, p))[x] == if p(x) then multiset(xs)[x] else 0
    ensures multiset(Filter(xs, p)) <= multiset(xs)
  {
    if |xs| > 0 {
      FilterCounts(xs[1..], p);
      var rest := Filter(xs[1..], p);
      assert xs == [xs[0]] + xs[1..];
      assert multiset(xs) == multiset{xs[0]} + multiset(xs[1..]);
      if p(xs[0]) {
        assert Filter(xs, p) == [xs[0]] + rest;
        assert multiset([xs[0]] + rest) == multiset{xs[0]} + multiset(rest);
      } else {
        assert Filter(xs, p) == rest;
      }
    }
  }

  /** An element is kept exactly when it occurs and satisfies the predicate. */
  lemma FilterMembers<T(!new)>(xs: seq<T>, p: T -> bool)
    ensures forall x :: x in Filter(xs, p) <==> x in xs && p(x)
  {
    FilterCounts(xs, p);
    forall x ensures x in Filter(xs, p) <==> x in xs && p(x) {
      assert x in Filter(xs, p) <==> multiset(Filter(xs, p))[x] > 0;
      assert x in xs <==> multiset(xs)[x] > 0;
    }
  }

  /** The kept elements stay in their original order. */
  lemma {:induction false} FilterIsSubsequence<T>(xs: seq<T>, p: T -> bool)
    ensures IsSubsequence(Filter(xs, p), xs)
  {
    if |xs| > 0 {
      FilterIsSubsequence(xs[1..], p);
      var r := Filter(xs, p);
      if p(xs[0]) {
        assert r[0] == xs[0] && r[1..] == Filter(xs[1..], p);
      }
    }
  }

  /** Filtering a prefix gives a prefix of the filtered whole. */
  lemma {:induction false} FilterPrefix<T>(xs: seq<T>, k: nat, p: T -> bool)
    requires k <= |xs|
    ensures Filter(xs[..k], p) <= Filter(xs, p)
  {
    if k > 0 {
      FilterPrefix(xs[1..], k - 1, p);
      assert xs[..k][0] == xs[0];
      assert xs[..k][1..] == xs[1..][..k - 1];
    }
  }

  /** `xs.slice(0, n)`: the first `n` elements, or all of them when there are fewer. */
  function Take<T>(xs: seq<T>, n: nat): (r: seq<T>)
    ensures r <= xs
    ensures |r| == Min(n, |xs|)
  {
    if n <= |xs| then xs[..n] else xs
  }

  /** Removing a prefix's elements from a sequence's multiset leaves the suffix's. */
  lemma DropPrefixMultiset<T>(xs: seq<T>, n: nat)
    requires n <= |xs|
    ensures multiset(xs) - multiset(xs[..n]) == multiset(xs[n..])
  {
    assert xs == xs[..n] + xs[n..];
  }

  /** What `Take` keeps is part of the original, counting repetitions. */
  lemma TakeMultiset<T>(xs: seq<T>, n: nat)
    ensures multiset(Take(xs, n)) <= multiset(xs)
  {
    if n <= |xs| {
      assert xs == xs[..n] + xs[n..];
    }
  }

  /** A filter whose predicate holds everywhere removes nothing. */
  lemma {:induction false} FilterKeepsAll<T>(xs: seq<T>, p: T -> bool)
    requires forall i :: 0 <= i < |xs| ==> p(xs[i])
    ensures Filter(xs, p) == xs
  {
    if |xs| > 0 {
      FilterKeepsAll(xs[1..], p);
    }
  }

  lemma {:induction false} SubsequenceOfEmpty<T>(a: seq<T>, b: seq<T>)
    requires |b| == 0 && IsSubsequence(a, b)
    ensures |a| == 0
  {
  }

  /** Every prefix is a subsequence. */
  lemma {:induction false} PrefixIsSubsequence<T>(a: seq<T>, b: seq<T>)
    requires a <= b
    ensures IsSubsequence(a, b)
    decreases |b|
  {
    if |a| > 0 {
      assert a[0] == b[0];
      PrefixIsSubsequence(a[1..], b[1..]);
    }
  }

  /** Deleting elements twice is deleting elements once. */
  lemma {:induction false} SubsequenceTransitive<T>(a: seq<T>, b: seq<T>, c: seq<T>)
    requires IsSubsequence(a, b) && IsSubsequence(b, c)
    ensures IsSubsequence(a, c)
    decreases |c|
  {
    if |a| == 0 {
    } else if |b| == 0 {
    } else if |c| == 0 {
      SubsequenceOfEmpty(b, c);
    } else if b[0] == c[0] && IsSubsequence(b[1..], c[1..]) {
      if a[0] == b[0] && IsSubsequence(a[1..], b[1..]) {
        SubsequenceTransitive(a[1..], b[1..], c[1..]);
      } else {
        SubsequenceTransitive(a, b[1..], c[1..]);
      }
    } else {
      SubsequenceTransitive(a, b, c[1..]);
    }
  }

  /** Walks `b` left to right and keeps each element still owed to `m`. */
  function PickInOrder<T(==)>(b: seq<T>, m: multiset<T>): (s: seq<T>)
    ensures IsSubsequence(s, b)
    ensures multiset(s) == m * multiset(b)
  {
    if |b| == 0 then []
    else if b[0] in m then
      var rest := PickInOrder(b[1..], m - multiset{b[0]});
      assert b == [b[0]] + b[1..];
      [b[0]] + rest
    else
      assert b == [b[0]] + b[1..];
      PickInOrder(b[1..], m)
  }

  /** Being a permutation of a subsequence is the same as being a sub-multiset. */
  lemma SubmultisetIsPermutedSubsequence<T>(a: seq<T>, b: seq<T>)
    requires multiset(a) <= multiset(b)
    ensures exists s :: IsSubsequence(s, b) && multiset(s) == multiset(a)
  {
    var s := PickInOrder(b, multiset(a));
    assert multiset(a) * multiset(b) == multiset(a);
    assert IsSubsequence(s, b) && multiset(s) == multiset(a);
  }
}
