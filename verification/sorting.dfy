/**
 * `Array.prototype.sort(comparefn)` as both clients use it: an in-place
 * sort by a comparator that returns a negative number when its first
 * argument goes first. The comparator must be consistent (total and
 * transitive on "not after"); both comparators of the applications are.
 */
module Sorting {

  /** `cmp(x, y) <= 0` ("x may go first") is total and transitive. */
  ghost predicate ConsistentComparator<T(!new)>(cmp: (T, T) -> int) {
    && (forall x, y :: cmp(x, y) <= 0 || cmp(y, x) <= 0)
    && (forall x, y, z :: cmp(x, y) <= 0 && cmp(y, z) <= 0 ==> cmp(x, z) <= 0)
  }

  /** Every element may go before every later one. */
  ghost predicate SortedBy<T>(s: seq<T>, cmp: (T, T) -> int) {
    forall i, j :: 0 <= i < j < |s| ==> cmp(s[i], s[j]) <= 0
  }

  /** An insertion sort: each element moves left past the elements the comparator puts after it. */
  method Sort<T(!new)>(a: array<T>, cmp: (T, T) -> int)
    requires ConsistentComparator(cmp)
    modifies a
    ensures SortedBy(a[..], cmp)
    ensures multiset(a[..]) == multiset(old(a[..]))
  {
    var i := 0;
    while i < a.Length
      invariant 0 <= i <= a.Length
      invariant SortedBy(a[..i], cmp)
      invariant multiset(a[..]) == multiset(old(a[..]))
    {
      InsertLeft(a, i, cmp);
      i := i + 1;
    }
  }

  /** Moves `a[i]` left into the sorted prefix `a[..i]`; the rest of the array is left alone. */
  method InsertLeft<T(!new)>(a: array<T>, i: nat, cmp: (T, T) -> int)
    requires ConsistentComparator(cmp)
    requires i < a.Length && SortedBy(a[..i], cmp)
    modifies a
    ensures SortedBy(a[..i + 1], cmp)
    ensures multiset(a[..]) == multiset(old(a[..]))
    ensures a[i + 1..] == old(a[i + 1..])
  {
    var j := i;
    InsertStart(a[..], i, cmp);
    while j > 0 && cmp(a[j - 1], a[j]) > 0
      invariant 0 <= j <= i
      invariant multiset(a[..]) == multiset(old(a[..]))
      invariant OrderedAround(a[..], i, j, cmp)
      invariant a[i + 1..] == old(a[i + 1..])
    {
      InsertStep(a[..], i, j, cmp);
      SwapLeft(a, j);
      j := j - 1;
    }
    InsertDone(a[..], i, j, cmp);
  }

  /**
   * While an element moves left to position `j`: the first `i + 1` elements
   * are in order except for the moving one, which may go before every
   * element after it.
   */
  ghost predicate OrderedAround<T>(s: seq<T>, i: nat, j: nat, cmp: (T, T) -> int)
    requires j <= i < |s|
  {
    && (forall k, l :: 0 <= k < l <= i && k != j && l != j ==> cmp(s[k], s[l]) <= 0)
    && (forall l :: j < l <= i ==> cmp(s[j], s[l]) <= 0)
  }

  /** Before moving, the new element is trivially in order with nothing after it. */
  lemma InsertStart<T>(s: seq<T>, i: nat, cmp: (T, T) -> int)
    requires i < |s| && SortedBy(s[..i], cmp)
    ensures OrderedAround(s, i, i, cmp)
  {
    forall k, l | 0 <= k < l <= i && k != i && l != i ensures cmp(s[k], s[l]) <= 0 {
      assert s[k] == s[..i][k] && s[l] == s[..i][l];
    }
  }

  /** Swapping the moving element with a predecessor that must go after it keeps the order around it. */
  lemma InsertStep<T(!new)>(s: seq<T>, i: nat, j: nat, cmp: (T, T) -> int)
    requires ConsistentComparator(cmp)
    requires 0 < j <= i < |s| && OrderedAround(s, i, j, cmp)
    requires cmp(s[j - 1], s[j]) > 0
    ensures OrderedAround(s[j - 1 := s[j]][j := s[j - 1]], i, j - 1, cmp)
  {
    assert cmp(s[j], s[j - 1]) <= 0;
  }

  /** Swaps `a[j]` with its left neighbour. */
  method SwapLeft<T>(a: array<T>, j: nat)
    requires 0 < j < a.Length
    modifies a
    ensures a[..] == old(a[..])[j - 1 := old(a[j])][j := old(a[j - 1])]
    ensures multiset(a[..]) == multiset(old(a[..]))
  {
    a[j - 1], a[j] := a[j], a[j - 1];
  }

  /** Once the predecessor may go first, the prefix is sorted. */
  lemma InsertDone<T(!new)>(s: seq<T>, i: nat, j: nat, cmp: (T, T) -> int)
    requires ConsistentComparator(cmp)
    requires j <= i < |s| && OrderedAround(s, i, j, cmp)
    requires j == 0 || cmp(s[j - 1], s[j]) <= 0
    ensures SortedBy(s[..i + 1], cmp)
  {
    if j > 0 {
      forall k | 0 <= k < j ensures cmp(s[k], s[j]) <= 0 {
        assert cmp(s[k], s[j - 1]) <= 0;
      }
    }
  }
}
