/**
 What sort.Slice promises of a slice and a comparison, and what follows from it:
 two sorted arrangements of the same elements differ only where elements tie.
 */
module Ordering {

  ghost predicate StrictWeakOrder<T(!new)>(less: (T, T) -> bool) {
    && (forall x :: !less(x, x))
    && (forall x, y, z :: less(x, y) && less(y, z) ==> less(x, z))
    && (forall x, y, z :: !less(x, y) && !less(y, z) ==> !less(x, z))
  }

  ghost predicate Sorted<T>(less: (T, T) -> bool, s: seq<T>) {
    forall i, j | 0 <= i < j < |s| :: !less(s[j], s[i])
  }

  ghost predicate StrictlySorted<T>(less: (T, T) -> bool, s: seq<T>) {
    forall i, j | 0 <= i < j < |s| :: less(s[i], s[j])
  }

  /** Elements of s that tie are equal. */
  ghost predicate TiesAreEqual<T>(less: (T, T) -> bool, s: seq<T>) {
    forall x, y {:trigger less(x, y)} | x in s && y in s && !less(x, y) && !less(y, x) :: x == y
  }

  ghost predicate SortedPermutation<T>(less: (T, T) -> bool, s: seq<T>, r: seq<T>) {
    Sorted(less, r) && multiset(r) == multiset(s)
  }

  // ---------- Uniqueness ----------

  lemma MembersFromMultiset<T>(a: seq<T>, b: seq<T>)
    requires multiset(a) == multiset(b)
    ensures |a| == |b|
    ensures forall x :: x in a <==> x in b
  {
    assert |multiset(a)| == |multiset(b)|;
    forall x ensures x in a <==> x in b {
      assert x in a <==> x in multiset(a);
      assert x in b <==> x in multiset(b);
    }
  }

  lemma SortedHeadLeast<T(!new)>(less: (T, T) -> bool, a: seq<T>, x: T)
    requires Sorted(less, a) && x in a
    ensures x == a[0] || !less(x, a[0])
  {
    var i :| 0 <= i < |a| && a[i] == x;
    assert i > 0 ==> !less(a[i], a[0]);
  }

  lemma SortedHeadsEqual<T(!new)>(less: (T, T) -> bool, a: seq<T>, b: seq<T>)
    requires Sorted(less, a) && Sorted(less, b) && multiset(a) == multiset(b)
    requires TiesAreEqual(less, a) && a != []
    ensures b != [] && a[0] == b[0]
  {
    MembersFromMultiset(a, b);
    assert a[0] in a && a[0] in b && b[0] in a;
    SortedHeadLeast(less, a, b[0]);
    SortedHeadLeast(less, b, a[0]);
  }

  lemma SortedTail<T(!new)>(less: (T, T) -> bool, a: seq<T>)
    requires Sorted(less, a) && a != []
    ensures Sorted(less, a[1..])
  {
  }

  lemma TailTies<T(!new)>(less: (T, T) -> bool, a: seq<T>)
    requires TiesAreEqual(less, a) && a != []
    ensures TiesAreEqual(less, a[1..])
  {
  }

  lemma TailMultiset<T>(a: seq<T>, b: seq<T>)
    requires multiset(a) == multiset(b) && a != [] && b != [] && a[0] == b[0]
    ensures multiset(a[1..]) == multiset(b[1..])
  {
    assert a == [a[0]] + a[1..] && b == [b[0]] + b[1..];
    assert multiset(a[1..]) == multiset(a) - multiset{a[0]};
    assert multiset(b[1..]) == multiset(b) - multiset{b[0]};
  }

  lemma HeadAndTail<T>(a: seq<T>, b: seq<T>)
    requires a != [] && b != [] && a[0] == b[0] && a[1..] == b[1..]
    ensures a == b
  {
    assert a == [a[0]] + a[1..] && b == [b[0]] + b[1..];
  }

  lemma SameLength<T>(a: seq<T>, b: seq<T>)
    requires multiset(a) == multiset(b)
    ensures |a| == |b|
  {
    assert |multiset(a)| == |multiset(b)|;
  }

  /** Two sorted permutations of one sequence are equal when ties are equal. */
  lemma {:induction false} SortedUnique<T(!new)>(less: (T, T) -> bool, a: seq<T>, b: seq<T>)
    requires Sorted(less, a) && Sorted(less, b) && multiset(a) == multiset(b)
    requires TiesAreEqual(less, a)
    ensures a == b
    decreases |a|
  {
    SameLength(a, b);
    if a != [] {
      SortedHeadsEqual(less, a, b);
      SortedTail(less, a);
      SortedTail(less, b);
      TailTies(less, a);
      TailMultiset(a, b);
      hide *;
      SortedUnique(less, a[1..], b[1..]);
      HeadAndTail(a, b);
    }
  }

  /** A strictly sorted sequence is determined by the set of its elements. */
  lemma {:induction false} StrictlySortedUnique<T(!new)>(less: (T, T) -> bool, a: seq<T>, b: seq<T>)
    requires StrictWeakOrder(less) && StrictlySorted(less, a) && StrictlySorted(less, b)
    requires forall x :: x in a <==> x in b
    ensures a == b
  {
    assert a != [] ==> a[0] in b;
    assert b != [] ==> b[0] in a;
    if a != [] {
      assert a[0] == b[0];
      forall x ensures x in a[1..] <==> x in b[1..] {
        assert x in a <==> x == a[0] || x in a[1..];
        assert x in b <==> x == b[0] || x in b[1..];
        assert a[0] !in a[1..] && b[0] !in b[1..];
      }
      StrictlySortedUnique(less, a[1..], b[1..]);
      assert a == [a[0]] + a[1..] && b == [b[0]] + b[1..];
    }
  }

  // ---------- Filtering ----------

  /** The elements that satisfy p, in order: what an append loop with a test collects. */
  function Filter<T(!new)>(s: seq<T>, p: T -> bool): (r: seq<T>)
    ensures forall x :: x in r <==> x in s && p(x)
    ensures |r| <= |s|
  {
    if s == [] then []
    else
      var rest := Filter(s[..|s| - 1], p);
      assert forall x :: x in s <==> x in s[..|s| - 1] || x == s[|s| - 1];
      if p(s[|s| - 1]) then rest + [s[|s| - 1]] else rest
  }

  lemma FilterSnoc<T(!new)>(s: seq<T>, n: nat, p: T -> bool)
    requires n < |s|
    ensures Filter(s[..n + 1], p) == if p(s[n]) then Filter(s[..n], p) + [s[n]] else Filter(s[..n], p)
  {
    assert s[..n + 1][..n] == s[..n];
  }

  /** Filtering keeps every copy of a wanted element and none of another. */
  lemma {:induction false} FilterCount<T(!new)>(s: seq<T>, p: T -> bool, x: T)
    ensures multiset(Filter(s, p))[x] == if p(x) then multiset(s)[x] else 0
  {
    if s != [] {
      FilterCount(s[..|s| - 1], p, x);
      assert s == s[..|s| - 1] + [s[|s| - 1]];
    }
  }

  lemma FilterPermutation<T(!new)>(s: seq<T>, t: seq<T>, p: T -> bool)
    requires multiset(s) == multiset(t)
    ensures multiset(Filter(s, p)) == multiset(Filter(t, p))
  {
    forall x ensures multiset(Filter(s, p))[x] == multiset(Filter(t, p))[x] {
      FilterCount(s, p, x);
      FilterCount(t, p, x);
    }
  }

  /** A stronger test only removes elements. */
  lemma FilterMonotone<T(!new)>(s: seq<T>, p: T -> bool, q: T -> bool)
    requires forall x | x in s && p(x) :: q(x)
    ensures multiset(Filter(s, p)) <= multiset(Filter(s, q))
  {
    forall x ensures multiset(Filter(s, p))[x] <= multiset(Filter(s, q))[x] {
      FilterCount(s, p, x);
      FilterCount(s, q, x);
      assert x in multiset(s) <==> x in s;
    }
  }

  // ---------- Sorting in place ----------

  /**
   sort.Slice. Callers learn only that the result is some sorted permutation: like the
   library, the contract says nothing about the order of elements that tie.
   */
  method SortSlice<T(!new)>(a: array<T>, less: (T, T) -> bool)
    requires StrictWeakOrder(less)
    modifies a
    ensures SortedPermutation(less, old(a[..]), a[..])
  {
    for i := 0 to a.Length
      invariant Sorted(less, a[..i])
      invariant multiset(a[..]) == multiset(old(a[..]))
    {
      SiftDown(a, less, i);
    }
    assert a[..a.Length] == a[..];
  }

  /** Up to i, s is sorted but for the element at j, which no later element is less than. */
  ghost predicate SortedBut<T>(less: (T, T) -> bool, s: seq<T>, i: nat, j: nat)
    requires j <= i < |s|
  {
    && (forall m, n | 0 <= m < n <= i && m != j && n != j :: !less(s[n], s[m]))
    && (forall n | j < n <= i :: !less(s[n], s[j]))
  }

  lemma Asymmetric<T(!new)>(less: (T, T) -> bool, x: T, y: T)
    requires StrictWeakOrder(less) && less(x, y)
    ensures !less(y, x)
  {
  }

  lemma SwapDown<T(!new)>(less: (T, T) -> bool, s: seq<T>, i: nat, j: nat)
    requires StrictWeakOrder(less) && 0 < j <= i < |s| && SortedBut(less, s, i, j) && less(s[j], s[j - 1])
    ensures SortedBut(less, s[j - 1 := s[j]][j := s[j - 1]], i, j - 1)
    ensures multiset(s[j - 1 := s[j]][j := s[j - 1]]) == multiset(s)
  {
    Asymmetric(less, s[j], s[j - 1]);
    hide StrictWeakOrder;
    var t := s[j - 1 := s[j]][j := s[j - 1]];
    forall n | j - 1 < n <= i ensures !less(t[n], t[j - 1]) {
      assert n > j ==> t[n] == s[n];
    }
  }

  lemma SortedFromHere<T(!new)>(less: (T, T) -> bool, s: seq<T>, i: nat, j: nat)
    requires StrictWeakOrder(less) && j <= i < |s| && SortedBut(less, s, i, j)
    requires j == 0 || !less(s[j], s[j - 1])
    ensures Sorted(less, s[..i + 1])
  {
    assert j > 0 ==> forall m | 0 <= m < j :: m == j - 1 || !less(s[j - 1], s[m]);
  }

  /** Moves the element at i down into the sorted part before it. */
  method SiftDown<T(!new)>(a: array<T>, less: (T, T) -> bool, i: nat)
    requires StrictWeakOrder(less) && i < a.Length && Sorted(less, a[..i])
    modifies a
    ensures Sorted(less, a[..i + 1])
    ensures multiset(a[..]) == multiset(old(a[..]))
  {
    assert SortedBut(less, a[..], i, i);
    hide StrictWeakOrder, Sorted, SortedBut;
    var j := i;
    while j > 0 && less(a[j], a[j - 1])
      invariant 0 <= j <= i
      invariant SortedBut(less, a[..], i, j)
      invariant multiset(a[..]) == multiset(old(a[..]))
    {
      ghost var s := a[..];
      SwapDown(less, s, i, j);
      a[j - 1], a[j] := a[j], a[j - 1];
      assert a[..] == s[j - 1 := s[j]][j := s[j - 1]];
      j := j - 1;
    }
    SortedFromHere(less, a[..], i, j);
    assert a[..][..i + 1] == a[..i + 1];
  }
}
