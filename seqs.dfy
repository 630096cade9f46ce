/**
 * Sequence operations behind the data-frame steps of the bookkeeping code:
 * keeping the rows a boolean mask selects (`df[mask]`), mapping a column,
 * counting and summing. Rows are always processed front to back, so every
 * definition here peels off the LAST element, which is what a loop that
 * appends at the end needs.
 */
module Seqs {

  /** The elements of `s` that satisfy `p`, in their original order. */
  function Filter<T>(p: T -> bool, s: seq<T>): (r: seq<T>)
    ensures |r| <= |s|
    ensures forall i :: 0 <= i < |r| ==> p(r[i])
  {
    if s == [] then []
    else Filter(p, s[..|s| - 1]) + (if p(s[|s| - 1]) then [s[|s| - 1]] else [])
  }

  /** `df[mask]`: the elements whose position the mask marks `True`, in order. */
  function Masked<T>(s: seq<T>, mask: seq<bool>): (r: seq<T>)
    requires |mask| == |s|
  {
    if s == [] then []
    else Masked(s[..|s| - 1], mask[..|s| - 1]) + (if mask[|s| - 1] then [s[|s| - 1]] else [])
  }

  /** The number of elements of `s` that satisfy `p`. */
  function Count<T>(p: T -> bool, s: seq<T>): nat
  {
    if s == [] then 0 else Count(p, s[..|s| - 1]) + (if p(s[|s| - 1]) then 1 else 0)
  }

  function Map<T, U>(f: T -> U, s: seq<T>): (r: seq<U>)
    ensures |r| == |s| && forall i :: 0 <= i < |s| ==> r[i] == f(s[i])
  {
    seq(|s|, i requires 0 <= i < |s| => f(s[i]))
  }

  function Sum(s: seq<real>): real
  {
    if s == [] then 0.0 else Sum(s[..|s| - 1]) + s[|s| - 1]
  }

  /** `a` is `b` with some elements left out and the rest in the same order. */
  ghost predicate IsSubsequence<T>(a: seq<T>, b: seq<T>)
    decreases |b|
  {
    if a == [] then true
    else if b == [] then false
    else
      || (a[|a| - 1] == b[|b| - 1] && IsSubsequence(a[..|a| - 1], b[..|b| - 1]))
      || IsSubsequence(a, b[..|b| - 1])
  }

  // ---------------------------------------------------------------- lemmas

  /** A filter keeps order: its result is a subsequence of its input. */
  lemma {:induction false} FilterIsSubsequence<T>(p: T -> bool, s: seq<T>)
    ensures IsSubsequence(Filter(p, s), s)
  {
    if s != [] {
      var init := s[..|s| - 1];
      FilterIsSubsequence(p, init);
      var r := Filter(p, s);
      if p(s[|s| - 1]) {
        assert r[..|r| - 1] == Filter(p, init);
      } else {
        assert r == Filter(p, init);
        if r != [] {
          assert IsSubsequence(r, init);
        }
      }
    }
  }

  /** An element is kept exactly when it occurs in the input and satisfies `p`. */
  lemma {:induction false} FilterMembers<T>(p: T -> bool, s: seq<T>, x: T)
    ensures x in Filter(p, s) <==> x in s && p(x)
  {
    if s != [] {
      var init := s[..|s| - 1];
      FilterMembers(p, init, x);
      assert s == init + [s[|s| - 1]];
    }
  }

  /** A property every input element has, every kept element has. */
  lemma {:induction false} FilterKeeps<T>(p: T -> bool, q: T -> bool, s: seq<T>)
    requires forall i :: 0 <= i < |s| ==> q(s[i])
    ensures forall i :: 0 <= i < |Filter(p, s)| ==> q(Filter(p, s)[i])
  {
    if s != [] {
      FilterKeeps(p, q, s[..|s| - 1]);
    }
  }

  lemma {:induction false} FilterCount<T>(p: T -> bool, s: seq<T>)
    ensures |Filter(p, s)| == Count(p, s)
  {
    if s != [] {
      FilterCount(p, s[..|s| - 1]);
    }
  }

  /** What a filter keeps and what it drops add up to the whole input. */
  lemma {:induction false} CountSplit<T>(p: T -> bool, q: T -> bool, s: seq<T>)
    requires forall x :: q(x) == !p(x)
    ensures Count(p, s) + Count(q, s) == |s|
  {
    if s != [] {
      CountSplit(p, q, s[..|s| - 1]);
    }
  }

  lemma {:induction false} CountZero<T>(p: T -> bool, s: seq<T>)
    ensures Count(p, s) == 0 <==> forall i :: 0 <= i < |s| ==> !p(s[i])
  {
    if s != [] {
      var init := s[..|s| - 1];
      CountZero(p, init);
      assert forall i :: 0 <= i < |init| ==> init[i] == s[i];
    }
  }

  /** Applying a mask built from `p` is filtering by `p`. */
  lemma {:induction false} MaskedIsFilter<T>(s: seq<T>, mask: seq<bool>, p: T -> bool)
    requires |mask| == |s|
    requires forall i :: 0 <= i < |s| ==> mask[i] == p(s[i])
    ensures Masked(s, mask) == Filter(p, s)
  {
    if s != [] {
      MaskedIsFilter(s[..|s| - 1], mask[..|s| - 1], p);
    }
  }

  /** Two filters in a row are one filter by the conjunction. */
  lemma {:induction false} FilterFilter<T>(p: T -> bool, q: T -> bool, pq: T -> bool, s: seq<T>)
    requires forall x :: pq(x) == (p(x) && q(x))
    ensures Filter(q, Filter(p, s)) == Filter(pq, s)
  {
    if s != [] {
      var init, last := s[..|s| - 1], s[|s| - 1];
      FilterFilter(p, q, pq, init);
      var fp := Filter(p, s);
      if p(last) {
        assert fp[..|fp| - 1] == Filter(p, init);
      } else {
        assert fp == Filter(p, init);
      }
    }
  }

  /** Mapping preserves the subsequence relation. */
  lemma {:induction false} MapSubsequence<T, U>(f: T -> U, a: seq<T>, b: seq<T>)
    requires IsSubsequence(a, b)
    ensures IsSubsequence(Map(f, a), Map(f, b))
    decreases |b|
  {
    if a != [] {
      var ma, mb := Map(f, a), Map(f, b);
      assert Map(f, b[..|b| - 1]) == mb[..|mb| - 1];
      if a[|a| - 1] == b[|b| - 1] && IsSubsequence(a[..|a| - 1], b[..|b| - 1]) {
        MapSubsequence(f, a[..|a| - 1], b[..|b| - 1]);
        assert Map(f, a[..|a| - 1]) == ma[..|ma| - 1];
      } else {
        MapSubsequence(f, a, b[..|b| - 1]);
      }
    }
  }

  /** Filters by predicates that agree everywhere give the same result. */
  lemma {:induction false} FilterSame<T>(p: T -> bool, q: T -> bool, s: seq<T>)
    requires forall x :: p(x) == q(x)
    ensures Filter(p, s) == Filter(q, s)
  {
    if s != [] {
      FilterSame(p, q, s[..|s| - 1]);
    }
  }

  // ---------------------------------------------------------------- methods

  /** `df[mask]`, one row at a time. */
  method Select<T>(s: seq<T>, mask: seq<bool>) returns (r: seq<T>)
    requires |mask| == |s|
    ensures r == Masked(s, mask)
  {
    r := [];
    var i := 0;
    while i < |s|
      invariant 0 <= i <= |s|
      invariant r == Masked(s[..i], mask[..i])
    {
      assert s[..i + 1][..i] == s[..i] && mask[..i + 1][..i] == mask[..i];
      if mask[i] {
        r := r + [s[i]];
      }
      i := i + 1;
    }
    assert s[..i] == s && mask[..i] == mask;
  }

  /** `series.sum()`, accumulated front to back. */
  method Total(s: seq<real>) returns (total: real)
    ensures total == Sum(s)
  {
    total := 0.0;
    for i := 0 to |s|
      invariant total == Sum(s[..i])
    {
      assert s[..i + 1][..i] == s[..i];
      total := total + s[i];
    }
    assert s[..|s|] == s;
  }

  /** `series.notna().sum()`: how many elements satisfy `p`. */
  method CountWhere<T>(p: T -> bool, s: seq<T>) returns (n: nat)
    ensures n == Count(p, s)
  {
    n := 0;
    for i := 0 to |s|
      invariant n == Count(p, s[..i])
    {
      assert s[..i + 1][..i] == s[..i];
      if p(s[i]) {
        n := n + 1;
      }
    }
    assert s[..|s|] == s;
  }
}
