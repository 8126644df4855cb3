/** Sequence helpers the engine relies on: first-match search, filtering,
    numeric sorting and summation. */
module Seqs {
  import opened Wrappers

  /** Index of the first element satisfying `p`, as `Array.prototype.findIndex`
      would report it (None instead of -1). */
  function FindIndex<T>(s: seq<T>, p: T -> bool): (r: Option<nat>)
    ensures r.Some? ==> r.value < |s| && p(s[r.value])
    ensures r.Some? ==> forall j :: 0 <= j < r.value ==> !p(s[j])
    ensures r.None? <==> forall j :: 0 <= j < |s| ==> !p(s[j])
  {
    if |s| == 0 then None
    else if p(s[0]) then Some(0)
    else
      match FindIndex(s[1..], p)
      case None => None
      case Some(i) => Some(i + 1)
  }

  /** `a` is `b` with some elements dropped and the rest kept in order. */
  predicate IsSubsequence<T(==)>(a: seq<T>, b: seq<T>)
    decreases |b|
  {
    if |a| == 0 then true
    else if |b| == 0 then false
    else if a[0] == b[0] then IsSubsequence(a[1..], b[1..])
    else IsSubsequence(a, b[1..])
  }

  /** `Array.prototype.filter`. */
  function Filter<T(==,!new)>(s: seq<T>, p: T -> bool): (r: seq<T>)
    ensures forall x :: x in r <==> x in s && p(x)
    ensures forall x :: multiset(r)[x] == if p(x) then multiset(s)[x] else 0
    ensures IsSubsequence(r, s)
  {
    if |s| == 0 then []
    else
      assert s == [s[0]] + s[1..];
      if p(s[0]) then [s[0]] + Filter(s[1..], p) else Filter(s[1..], p)
  }

  /** Ascending order, as `arr.sort((a, b) => a - b)` leaves an array. */
  predicate Sorted(s: seq<int>) {
    forall i, j :: 0 <= i < j < |s| ==> s[i] <= s[j]
  }

  /** Every element is at least `lo`. */
  predicate AllAtLeast(s: seq<int>, lo: int) {
    forall i :: 0 <= i < |s| ==> lo <= s[i]
  }

  /** Rearranging a sequence keeps its lower bounds. */
  lemma AtLeastPermutation(s: seq<int>, t: seq<int>, lo: int)
    requires multiset(s) == multiset(t)
    requires AllAtLeast(s, lo)
    ensures AllAtLeast(t, lo)
  {
    forall i | 0 <= i < |t|
      ensures lo <= t[i]
    {
      assert t[i] in multiset(s);
    }
  }

  /** A sorted tail below a head that bounds it stays sorted. */
  lemma SortedCons(h: int, t: seq<int>)
    requires Sorted(t) && AllAtLeast(t, h)
    ensures Sorted([h] + t)
  {
  }

  /** Insert `x` into a sorted sequence at its place. */
  function Insert(x: int, s: seq<int>): (r: seq<int>)
    requires Sorted(s)
    ensures Sorted(r)
    ensures multiset(r) == multiset(s) + multiset{x}
  {
    if |s| == 0 then [x]
    else if x <= s[0] then [x] + s
    else
      var tail := s[1..];
      assert s == [s[0]] + tail;
      var rest := Insert(x, tail);
      assert AllAtLeast(tail + [x], s[0]);
      assert multiset(tail + [x]) == multiset(tail) + multiset{x};
      AtLeastPermutation(tail + [x], rest, s[0]);
      SortedCons(s[0], rest);
      [s[0]] + rest
  }

  /** Numeric ascending sort: a sorted permutation of the input. */
  function Sort(s: seq<int>): (r: seq<int>)
    ensures Sorted(r)
    ensures multiset(r) == multiset(s)
    ensures |r| == |s|
  {
    if |s| == 0 then []
    else
      assert s == [s[0]] + s[1..];
      Insert(s[0], Sort(s[1..]))
  }

  /** `arr.reduce((a, b) => a + b, 0)`. */
  function Sum(s: seq<int>): int {
    if |s| == 0 then 0 else s[0] + Sum(s[1..])
  }

  /** Inserting `x` adds `x` to the sum. */
  lemma {:induction false} SumInsert(x: int, s: seq<int>)
    requires Sorted(s)
    ensures Sum(Insert(x, s)) == x + Sum(s)
  {
    if |s| == 0 {
      assert Insert(x, s) == [x];
    } else if x <= s[0] {
      assert ([x] + s)[1..] == s;
    } else {
      var rest := Insert(x, s[1..]);
      SumInsert(x, s[1..]);
      assert ([s[0]] + rest)[1..] == rest;
    }
  }

  /** Sorting does not change the sum: summing the sorted values gives the
      same total as summing them in their original order. */
  lemma {:induction false} SumSort(s: seq<int>)
    ensures Sum(Sort(s)) == Sum(s)
  {
    if |s| > 0 {
      SumSort(s[1..]);
      SumInsert(s[0], Sort(s[1..]));
    }
  }

  /** Every element lies in [lo, hi]. */
  predicate AllWithin(s: seq<int>, lo: int, hi: int) {
    forall i :: 0 <= i < |s| ==> lo <= s[i] <= hi
  }

  /** Bounds of a sequence with one more element in front. */
  lemma ConsWithin(x: int, s: seq<int>, lo: int, hi: int)
    ensures AllWithin([x] + s, lo, hi) <==> lo <= x <= hi && AllWithin(s, lo, hi)
  {
    var t := [x] + s;
    if AllWithin(t, lo, hi) {
      assert t[0] == x;
      forall i | 0 <= i < |s|
        ensures lo <= s[i] <= hi
      {
        assert t[i + 1] == s[i];
      }
    }
  }

  /** A sum of n elements in [lo, hi] lies in [n * lo, n * hi]. */
  lemma {:induction false} SumWithin(s: seq<int>, lo: int, hi: int)
    requires AllWithin(s, lo, hi)
    ensures |s| * lo <= Sum(s) <= |s| * hi
  {
    if |s| > 0 {
      SumWithin(s[1..], lo, hi);
    }
  }

  /** A permutation has the same members. */
  lemma PermutationMembers(s: seq<int>, t: seq<int>)
    requires multiset(s) == multiset(t)
    ensures forall x :: x in s <==> x in t
  {
    forall x
      ensures x in s <==> x in t
    {
      assert x in s <==> x in multiset(s);
      assert x in t <==> x in multiset(t);
    }
  }

  /** A permutation keeps every element inside the same bounds. */
  lemma PermutationWithin(s: seq<int>, t: seq<int>, lo: int, hi: int)
    requires multiset(s) == multiset(t)
    requires AllWithin(s, lo, hi)
    ensures AllWithin(t, lo, hi)
  {
    forall i | 0 <= i < |t|
      ensures lo <= t[i] <= hi
    {
      assert t[i] in multiset(s);
    }
  }
}
