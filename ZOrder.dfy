/** The back-to-front ordering of transparent entities: a Lomuto quicksort on
    zIndex over a vector of entity pointers (Solution/Scene.cpp). The vector is
    an array of Entity references; the sort moves references only. */
module ZOrder {
  import opened Engine

  function Z(e: Entity): nat
    reads e
  {
    e.transform.zIndex
  }

  /** The zIndex of each entity of s, in order. */
  ghost function Keys(s: seq<Entity>): (r: seq<nat>)
    reads s
  {
    seq(|s|, i requires 0 <= i < |s| reads s => Z(s[i]))
  }

  /** Every key of k[lo..hi] is below p. */
  ghost predicate AllBelow(k: seq<nat>, lo: int, hi: int, p: nat)
    requires 0 <= lo <= hi <= |k|
  {
    forall i | lo <= i < hi :: k[i] < p
  }

  /** Every key of k[lo..hi] is at least p. */
  ghost predicate AllAtLeast(k: seq<nat>, lo: int, hi: int, p: nat)
    requires 0 <= lo <= hi <= |k|
  {
    forall i | lo <= i < hi :: p <= k[i]
  }

  /** k[lo..hi] never decreases. */
  ghost predicate Ascending(k: seq<nat>, lo: int, hi: int)
    requires 0 <= lo <= hi <= |k|
  {
    forall i, j | lo <= i < j < hi :: k[i] <= k[j]
  }

  /** b is a rearrangement of a that moves only positions in [lo, hi). */
  ghost predicate PermutedWithin(a: seq<Entity>, b: seq<Entity>, lo: int, hi: int)
  {
    && 0 <= lo <= hi <= |a| == |b|
    && multiset(a) == multiset(b)
    && a[..lo] == b[..lo] && a[hi..] == b[hi..]
  }

  /** std::swap of two cells of the vector. */
  method Swap(v: array<Entity>, i: int, j: int)
    requires 0 <= i < v.Length && 0 <= j < v.Length
    modifies v
    ensures v[i] == old(v[j]) && v[j] == old(v[i])
    ensures forall k | 0 <= k < v.Length && k != i && k != j :: v[k] == old(v[k])
    ensures multiset(v[..]) == old(multiset(v[..]))
  {
    v[i], v[j] := v[j], v[i];
  }

  /** Takes the last element as pivot and moves every entity with a strictly
      smaller zIndex in front of it; returns where the pivot ends up. */
  method Partition(v: array<Entity>, start: int, end: int) returns (pivotIndex: int)
    requires 0 <= start <= end < v.Length
    modifies v
    ensures start <= pivotIndex <= end
    ensures v[pivotIndex] == old(v[end])
    ensures AllBelow(Keys(v[..]), start, pivotIndex, Z(v[pivotIndex]))
    ensures AllAtLeast(Keys(v[..]), pivotIndex + 1, end + 1, Z(v[pivotIndex]))
    ensures PermutedWithin(old(v[..]), v[..], start, end + 1)
  {
    var pivot := end;
    var j := start;
    for i := start to end
      invariant start <= j <= i
      invariant v[pivot] == old(v[end])
      invariant forall k | start <= k < j :: Z(v[k]) < Z(v[pivot])
      invariant forall k | j <= k < i :: Z(v[pivot]) <= Z(v[k])
      invariant multiset(v[..]) == old(multiset(v[..]))
      invariant forall k | 0 <= k < v.Length && !(start <= k <= end) :: v[k] == old(v[k])
    {
      if Z(v[i]) < Z(v[pivot]) {
        Swap(v, i, j);
        j := j + 1;
      }
    }
    Swap(v, j, pivot);
    pivotIndex := j;
    assert v[..start] == old(v[..start]);
    assert v[end + 1..] == old(v[end + 1..]);
  }

  /** A permutation that fixes everything outside [lo, hi) permutes [lo, hi). */
  lemma SamePartsSameMiddle(a: seq<Entity>, b: seq<Entity>, lo: int, hi: int)
    requires PermutedWithin(a, b, lo, hi)
    ensures multiset(a[lo..hi]) == multiset(b[lo..hi])
  {
    assert a == a[..lo] + a[lo..hi] + a[hi..];
    assert b == b[..lo] + b[lo..hi] + b[hi..];
    forall x
      ensures multiset(a[lo..hi])[x] == multiset(b[lo..hi])[x]
    {
      assert multiset(a)[x] == multiset(a[..lo])[x] + multiset(a[lo..hi])[x] + multiset(a[hi..])[x];
      assert multiset(b)[x] == multiset(b[..lo])[x] + multiset(b[lo..hi])[x] + multiset(b[hi..])[x];
    }
  }

  /** Permuting a range keeps every entity of it on the same side of a pivot zIndex. */
  lemma RangeKeepsBound(before: seq<Entity>, after: seq<Entity>, lo: int, hi: int, p: nat, below: bool)
    requires PermutedWithin(before, after, lo, hi)
    requires below ==> AllBelow(Keys(before), lo, hi, p)
    requires !below ==> AllAtLeast(Keys(before), lo, hi, p)
    ensures below ==> AllBelow(Keys(after), lo, hi, p)
    ensures !below ==> AllAtLeast(Keys(after), lo, hi, p)
  {
    SamePartsSameMiddle(after, before, lo, hi);
    forall k | lo <= k < hi
      ensures below ==> Keys(after)[k] < p
      ensures !below ==> p <= Keys(after)[k]
    {
      assert after[k] == after[lo..hi][k - lo];
      assert after[k] in multiset(before[lo..hi]);
      var i :| lo <= i < hi && before[i] == after[k];
      assert Keys(before)[i] == Keys(after)[k];
    }
  }

  /** Two in-place permutations of nested ranges make one of the outer range. */
  lemma PermutedTrans(a: seq<Entity>, b: seq<Entity>, c: seq<Entity>, lo: int, hi: int, lo': int, hi': int)
    requires PermutedWithin(a, b, lo, hi) && PermutedWithin(b, c, lo', hi')
    requires lo <= lo' <= hi' <= hi
    ensures PermutedWithin(a, c, lo, hi)
  {
    assert c[..lo] == c[..lo'][..lo];
    assert b[..lo] == b[..lo'][..lo];
    assert c[hi..] == c[hi'..][hi - hi'..];
    assert b[hi..] == b[hi'..][hi - hi'..];
  }

  /** Positions holding the same entities hold the same keys. */
  lemma KeysAgree(a: seq<Entity>, b: seq<Entity>, lo: int, hi: int)
    requires 0 <= lo <= hi <= |a| == |b|
    requires a[lo..hi] == b[lo..hi]
    ensures forall k | lo <= k < hi :: Keys(a)[k] == Keys(b)[k]
  {
    assert forall k | lo <= k < hi :: a[k] == a[lo..hi][k - lo] && b[k] == b[lo..hi][k - lo];
  }

  /** Two ascending sides split by the pivot key make an ascending range. */
  lemma JoinAscending(k: seq<nat>, start: int, pivot: int, end: int)
    requires 0 <= start <= pivot <= end < |k|
    requires AllBelow(k, start, pivot, k[pivot]) && AllAtLeast(k, pivot + 1, end + 1, k[pivot])
    requires Ascending(k, start, pivot) && Ascending(k, pivot + 1, end + 1)
    ensures Ascending(k, start, end + 1)
  {
  }

  /** The recursion step: a partitioned range whose two sides were then sorted in
      place is a sorted permutation of the partitioned range. */
  lemma QuicksortStep(v0: seq<Entity>, v1: seq<Entity>, v2: seq<Entity>, start: int, pivot: int, end: int)
    requires 0 <= start <= pivot <= end < |v0|
    requires AllBelow(Keys(v0), start, pivot, Z(v0[pivot])) && AllAtLeast(Keys(v0), pivot + 1, end + 1, Z(v0[pivot]))
    requires PermutedWithin(v0, v1, start, pivot) && Ascending(Keys(v1), start, pivot)
    requires PermutedWithin(v1, v2, pivot + 1, end + 1) && Ascending(Keys(v2), pivot + 1, end + 1)
    ensures PermutedWithin(v0, v2, start, end + 1) && Ascending(Keys(v2), start, end + 1)
  {
    var p := Z(v0[pivot]);
    RangeKeepsBound(v0, v1, start, pivot, p, true);
    KeysAgree(v1, v0, pivot, end + 1);
    RangeKeepsBound(v1, v2, pivot + 1, end + 1, p, false);
    KeysAgree(v2, v1, start, pivot + 1);
    JoinAscending(Keys(v2), start, pivot, end);
    PermutedTrans(v0, v0, v1, start, end + 1, start, pivot);
    PermutedTrans(v0, v1, v2, start, end + 1, pivot + 1, end + 1);
  }

  /** Sorts v[start..end] (both ends included) in ascending zIndex, leaving the
      rest of v alone. An empty range, such as start == 0 and end == -1 for an
      empty vector, changes nothing. */
  method Quicksort(v: array<Entity>, start: int, end: int)
    requires 0 <= start <= end + 1 <= v.Length
    modifies v
    ensures Ascending(Keys(v[..]), start, end + 1)
    ensures PermutedWithin(old(v[..]), v[..], start, end + 1)
    decreases end - start
  {
    if start < end {
      var pivot := Partition(v, start, end);
      ghost var v0 := v[..];
      ghost var k0 := Keys(v0);
      Quicksort(v, start, pivot - 1);
      ghost var v1 := v[..];
      ghost var k1 := Keys(v1);
      Quicksort(v, pivot + 1, end);
      assert Keys(v0) == k0 && Keys(v1) == k1;
      QuicksortStep(v0, v1, v[..], start, pivot, end);
      PermutedTrans(old(v[..]), v0, v[..], start, end + 1, start, end + 1);
    }
  }

  /** Scene::Update's call Quicksort(v, 0, v.size() - 1): the whole vector ends up
      in ascending zIndex and holds the same entity pointers. */
  method SortByZIndex(v: array<Entity>)
    modifies v
    ensures forall i, j | 0 <= i < j < v.Length :: Z(v[i]) <= Z(v[j])
    ensures multiset(v[..]) == old(multiset(v[..]))
  {
    Quicksort(v, 0, v.Length - 1);
    assert forall i | 0 <= i < v.Length :: Keys(v[..])[i] == Z(v[i]);
  }
}
