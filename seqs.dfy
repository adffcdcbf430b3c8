/** Specification functions over sequences shared by the collection helpers:
    order-preserving filtering and counting. */
module Seqs {

  /** The elements x of s with p(x) == keep, in their original order:
      `Filter(s, p, true)` keeps the matching elements, `Filter(s, p, false)` drops them. */
  function Filter<T>(s: seq<T>, p: T -> bool, keep: bool): (r: seq<T>)
    ensures |r| <= |s|
  {
    if s == [] then []
    else if p(s[0]) == keep then [s[0]] + Filter(s[1..], p, keep)
    else Filter(s[1..], p, keep)
  }

  /** How many elements of s satisfy p. */
  function Count<T>(s: seq<T>, p: T -> bool): nat
  {
    if s == [] then 0 else (if p(s[0]) then 1 else 0) + Count(s[1..], p)
  }

  /** Filtering keeps only elements of s with p(x) == keep, each at most as often as in s. */
  lemma {:induction false} FilterSound<T>(s: seq<T>, p: T -> bool, keep: bool)
    ensures forall x :: x in Filter(s, p, keep) ==> x in s && p(x) == keep
    ensures multiset(Filter(s, p, keep)) <= multiset(s)
  {
    if s != [] {
      FilterSound(s[1..], p, keep);
      assert s == [s[0]] + s[1..];
      assert multiset(s) == multiset([s[0]]) + multiset(s[1..]);
      if p(s[0]) == keep {
        assert Filter(s, p, keep) == [s[0]] + Filter(s[1..], p, keep);
        assert multiset(Filter(s, p, keep)) == multiset([s[0]]) + multiset(Filter(s[1..], p, keep));
      }
    }
  }

  /** Filtering keeps every element it should: a matching element of s is in the result. */
  lemma {:induction false} FilterComplete<T>(s: seq<T>, p: T -> bool, keep: bool, x: T)
    requires x in s && p(x) == keep
    ensures x in Filter(s, p, keep)
  {
    if s[0] != x {
      FilterComplete(s[1..], p, keep, x);
    }
  }

  /** Filtering distributes over concatenation. */
  lemma {:induction false} FilterAppend<T>(a: seq<T>, b: seq<T>, p: T -> bool, keep: bool)
    ensures Filter(a + b, p, keep) == Filter(a, p, keep) + Filter(b, p, keep)
  {
    if a == [] {
      assert a + b == b;
    } else {
      assert (a + b)[0] == a[0];
      assert (a + b)[1..] == a[1..] + b;
      FilterAppend(a[1..], b, p, keep);
    }
  }

  /** Filtering a sequence extended by one element. */
  lemma FilterSnoc<T>(s: seq<T>, x: T, p: T -> bool, keep: bool)
    ensures Filter(s + [x], p, keep) == Filter(s, p, keep) + (if p(x) == keep then [x] else [])
  {
    FilterAppend(s, [x], p, keep);
    assert Filter([x], p, keep) == (if p(x) == keep then [x] else []) by {
      assert [x][1..] == [];
    }
  }

  /** Filtering a suffix whose first element is known. */
  lemma FilterCons<T>(s: seq<T>, k: nat, p: T -> bool, keep: bool)
    requires k < |s|
    ensures Filter(s[k..], p, keep) == (if p(s[k]) == keep then [s[k]] else []) + Filter(s[k + 1..], p, keep)
  {
    assert s[k..][0] == s[k];
    assert s[k..][1..] == s[k + 1..];
  }

  /** Filtering twice the same way changes nothing the second time. */
  lemma {:induction false} FilterIdempotent<T>(s: seq<T>, p: T -> bool, keep: bool)
    ensures Filter(Filter(s, p, keep), p, keep) == Filter(s, p, keep)
  {
    if s != [] {
      FilterIdempotent(s[1..], p, keep);
      if p(s[0]) == keep {
        var r := [s[0]] + Filter(s[1..], p, keep);
        assert r[0] == s[0];
        assert r[1..] == Filter(s[1..], p, keep);
      }
    }
  }

  /** Keeping the matching elements leaves Count of them; dropping them leaves the rest. */
  lemma {:induction false} FilterLength<T>(s: seq<T>, p: T -> bool)
    ensures |Filter(s, p, true)| == Count(s, p)
    ensures |Filter(s, p, false)| == |s| - Count(s, p)
  {
    if s != [] {
      FilterLength(s[1..], p);
    }
  }

  /** Dropping the matching elements shortens the sequence by their number and leaves none. */
  lemma RemovedLength<T>(s: seq<T>, p: T -> bool)
    ensures |Filter(s, p, false)| == |s| - Count(s, p)
    ensures forall x :: x in Filter(s, p, false) ==> !p(x)
  {
    FilterLength(s, p);
    FilterSound(s, p, false);
  }
}
