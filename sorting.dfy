/** In-place sorting of a slice by a "less" comparison, as Go's `sort.Slice` does it. The
    model sorts by insertion with adjacent swaps; Go leaves the order of equivalent elements
    unspecified, and every contract here holds for any order of them. */
module Sorting {

  /** `less` orders its values the way `sort.Slice` requires: irreflexive, transitive, and
      with "neither is less" an equivalence (negative transitivity). */
  ghost predicate StrictWeakOrder<T(!new)>(less: (T, T) -> bool)
  {
    && (forall x :: !less(x, x))
    && (forall x, y, z :: less(x, y) && less(y, z) ==> less(x, z))
    && (forall x, y, z :: less(x, z) ==> less(x, y) || less(y, z))
  }

  /** No element is less than one before it. */
  ghost predicate Sorted<T(!new)>(s: seq<T>, less: (T, T) -> bool)
  {
    forall i, j | 0 <= i < j < |s| :: !less(s[j], s[i])
  }

  /** Sorts `a` in place: afterwards it is sorted and holds the same elements. */
  method Sort<T(!new)>(a: array<T>, less: (T, T) -> bool)
    requires StrictWeakOrder(less)
    modifies a
    ensures Sorted(a[..], less)
    ensures multiset(a[..]) == multiset(old(a[..]))
  {
    var i := 0;
    while i < a.Length
      invariant 0 <= i <= a.Length
      invariant Sorted(a[..i], less)
      invariant multiset(a[..]) == multiset(old(a[..]))
    {
      Insert(a, i, less);
      i := i + 1;
    }
    assert a[..a.Length] == a[..];
  }

  /** Moves `a[i]` left past every element it is less than, extending the sorted prefix
      `a[..i]` to `a[..i + 1]`. */
  method Insert<T(!new)>(a: array<T>, i: int, less: (T, T) -> bool)
    requires StrictWeakOrder(less)
    requires 0 <= i < a.Length && Sorted(a[..i], less)
    modifies a
    ensures Sorted(a[..i + 1], less)
    ensures multiset(a[..]) == multiset(old(a[..]))
    ensures a[i + 1..] == old(a[i + 1..])
  {
    var j := i;
    while j > 0 && less(a[j], a[j - 1])
      invariant 0 <= j <= i
      invariant SortedAround(a[..i + 1], j, less)
      invariant multiset(a[..]) == multiset(old(a[..]))
      invariant a[i + 1..] == old(a[i + 1..])
      decreases j
    {
      ghost var before := a[..];
      a[j - 1], a[j] := a[j], a[j - 1];
      SwapPreserves(before, a[..], j - 1);
      SortedAroundStep(before[..i + 1], a[..i + 1], j, less);
      j := j - 1;
    }
    SortedAroundDone(a[..i + 1], j, less);
  }

  /** The invariant of `Insert`: `s` is sorted except that its element at `j` may be less than
      those before it; it is not less than any after it, and the elements around it are in
      order among themselves. */
  ghost predicate SortedAround<T(!new)>(s: seq<T>, j: int, less: (T, T) -> bool)
  {
    && 0 <= j < |s|
    && (forall p, q | 0 <= p < q < |s| && p != j && q != j :: !less(s[q], s[p]))
    && (forall q | j < q < |s| :: !less(s[q], s[j]))
  }

  /** Swapping two adjacent elements keeps the multiset of the sequence. */
  lemma SwapPreserves<T(!new)>(before: seq<T>, after: seq<T>, k: int)
    requires 0 <= k < k + 1 < |before| == |after|
    requires after == before[k := before[k + 1]][k + 1 := before[k]]
    ensures multiset(after) == multiset(before)
  {
  }

  lemma SortedAroundStep<T(!new)>(before: seq<T>, after: seq<T>, j: int, less: (T, T) -> bool)
    requires StrictWeakOrder(less)
    requires 0 < j < |before| == |after| && SortedAround(before, j, less)
    requires less(before[j], before[j - 1])
    requires after == before[j - 1 := before[j]][j := before[j - 1]]
    ensures SortedAround(after, j - 1, less)
  {
    forall q | j - 1 < q < |after|
      ensures !less(after[q], after[j - 1])
    {
      if q > j {
        assert !less(before[q], before[j]);
      }
    }
  }

  lemma SortedAroundDone<T(!new)>(s: seq<T>, j: int, less: (T, T) -> bool)
    requires StrictWeakOrder(less)
    requires SortedAround(s, j, less)
    requires j == 0 || !less(s[j], s[j - 1])
    ensures Sorted(s, less)
  {
    forall p, q | 0 <= p < q < |s|
      ensures !less(s[q], s[p])
    {
      if q == j && p < j - 1 {
        assert !less(s[j - 1], s[p]);
      } else if p == j {
        assert !less(s[q], s[j]);
      }
    }
  }

  /** `f` applied to every element, in order. */
  function Map<T, U>(s: seq<T>, f: T -> U): (r: seq<U>)
    ensures |r| == |s| && forall i | 0 <= i < |s| :: r[i] == f(s[i])
  {
    if s == [] then [] else Map(s[..|s| - 1], f) + [f(s[|s| - 1])]
  }

  /** Mapping two sequences holding the same elements gives two sequences holding the same
      elements: a permutation of the inputs is a permutation of the outputs. */
  lemma {:induction false} MapPermutation<T, U>(a: seq<T>, b: seq<T>, f: T -> U)
    requires multiset(a) == multiset(b)
    ensures multiset(Map(a, f)) == multiset(Map(b, f))
    decreases |a|
  {
    if a == [] {
      assert |b| == |multiset(b)| == 0;
    } else {
      var a', x := a[..|a| - 1], a[|a| - 1];
      var k := FindLast(a, b);
      MapPermutation(a', b[..k] + b[k + 1..], f);
      RemoveMapped(b, k, f);
      assert Map(a, f) == Map(a', f) + [f(x)];
      assert multiset(Map(a, f)) == multiset(Map(a', f)) + multiset{f(x)};
    }
  }

  /** Finds the last element of `a` at some `k` in `b`: what is left of `a` without it and
      what is left of `b` without it hold the same elements. */
  lemma FindLast<T>(a: seq<T>, b: seq<T>) returns (k: int)
    requires a != [] && multiset(a) == multiset(b)
    ensures 0 <= k < |b| && b[k] == a[|a| - 1]
    ensures multiset(a[..|a| - 1]) == multiset(b[..k] + b[k + 1..])
  {
    var a', x := a[..|a| - 1], a[|a| - 1];
    assert a == a' + [x];
    assert multiset(a) == multiset(a') + multiset{x};
    assert x in multiset(b);
    k :| 0 <= k < |b| && b[k] == x;
    SplitAt(b, k);
    MultisetSplit(b[..k], x, b[k + 1..]);
    Cancel(multiset(a'), multiset(b[..k] + b[k + 1..]), x);
  }

  /** One occurrence of `x` can be cancelled from both sides of a multiset equation. */
  lemma Cancel<T>(m: multiset<T>, n: multiset<T>, x: T)
    requires m + multiset{x} == n + multiset{x}
    ensures m == n
  {
    assert forall y :: m[y] == (m + multiset{x})[y] - multiset{x}[y];
    assert forall y :: n[y] == (n + multiset{x})[y] - multiset{x}[y];
  }

  /** Taking the element at `k` out of `b` takes its image out of the multiset of the mapped
      sequence. */
  lemma RemoveMapped<T, U>(b: seq<T>, k: int, f: T -> U)
    requires 0 <= k < |b|
    ensures multiset(Map(b, f)) == multiset(Map(b[..k] + b[k + 1..], f)) + multiset{f(b[k])}
  {
    var p, x, q := b[..k], b[k], b[k + 1..];
    SplitAt(b, k);
    MapConcat(p + [x], q, f);
    MapConcat(p, [x], f);
    MapConcat(p, q, f);
    assert Map([x], f) == [f(x)];
    var mp, mq := Map(p, f), Map(q, f);
    assert Map(b, f) == mp + [f(x)] + mq;
    assert Map(p + q, f) == mp + mq;
    MultisetSplit(mp, f(x), mq);
  }

  lemma SplitAt<T>(b: seq<T>, k: int)
    requires 0 <= k < |b|
    ensures b == b[..k] + [b[k]] + b[k + 1..]
  {
    assert b[k..] == [b[k]] + b[k + 1..];
    assert b == b[..k] + b[k..];
  }

  lemma MultisetSplit<T>(p: seq<T>, x: T, q: seq<T>)
    ensures multiset(p + [x] + q) == multiset(p + q) + multiset{x}
  {
    calc {
      multiset(p + [x] + q);
      multiset(p + [x]) + multiset(q);
      multiset(p) + multiset{x} + multiset(q);
      multiset(p + q) + multiset{x};
    }
  }

  lemma MapConcat<T, U>(a: seq<T>, b: seq<T>, f: T -> U)
    ensures Map(a + b, f) == Map(a, f) + Map(b, f)
  {
    assert forall i | 0 <= i < |a + b| :: Map(a + b, f)[i] == (Map(a, f) + Map(b, f))[i];
  }
}
