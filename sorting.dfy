/**
 * Ascending numeric sort, the `sort((a, b) => a - b)` the harmonic predicate
 * applies to its reciprocals. `SortInPlace` sorts an array in place;
 * `SortedPermutation` is the specification it meets: the sorted permutation
 * of a sequence, which exists (`Sort` builds one) and is unique
 * (`SortedUnique`).
 */
module Sorting {

  ghost predicate Sorted(s: seq<real>)
  {
    forall i, j :: 0 <= i < j < |s| ==> s[i] <= s[j]
  }

  /** `x` placed before the first element of `s` that is not smaller. */
  function Insert(x: real, s: seq<real>): (r: seq<real>)
    ensures multiset(r) == multiset(s) + multiset{x}
  {
    if s == [] || x <= s[0] then
      [x] + s
    else
      assert s == [s[0]] + s[1..];
      [s[0]] + Insert(x, s[1..])
  }

  /** A sorted sequence stays sorted with an element no larger than any of its own in front. */
  lemma PrependSorted(h: real, s: seq<real>)
    requires Sorted(s)
    requires forall v :: v in s ==> h <= v
    ensures Sorted([h] + s)
  {
    var r := [h] + s;
    forall i, j | 0 <= i < j < |r|
      ensures r[i] <= r[j]
    {
      if i == 0 {
        assert r[j] in s;
      } else {
        assert r[i] == s[i - 1] && r[j] == s[j - 1];
      }
    }
  }

  lemma {:induction false} InsertSorted(x: real, s: seq<real>)
    requires Sorted(s)
    ensures Sorted(Insert(x, s))
  {
    if s == [] || x <= s[0] {
      forall v | v in s
        ensures x <= v
      {
        SortedHeadIsLeast(s, v);
      }
      PrependSorted(x, s);
    } else {
      var rest := Insert(x, s[1..]);
      assert Insert(x, s) == [s[0]] + rest;
      InsertSorted(x, s[1..]);
      assert s == [s[0]] + s[1..];
      forall v | v in rest
        ensures s[0] <= v
      {
        assert v in multiset(rest);
        if v != x {
          SortedHeadIsLeast(s, v);
        }
      }
      PrependSorted(s[0], rest);
    }
  }

  /** Insertion sort on values. */
  function Sort(s: seq<real>): (r: seq<real>)
    ensures Sorted(r)
    ensures multiset(r) == multiset(s)
    ensures |r| == |s|
  {
    if s == [] then
      []
    else
      assert s == [s[0]] + s[1..];
      InsertSorted(s[0], Sort(s[1..]));
      Insert(s[0], Sort(s[1..]))
  }

  /** The ascending arrangement of the elements of `s`. */
  ghost function SortedPermutation(s: seq<real>): (r: seq<real>)
    ensures Sorted(r)
    ensures multiset(r) == multiset(s)
    ensures |r| == |s|
  {
    assert Sorted(Sort(s)) && multiset(Sort(s)) == multiset(s);
    var r :| Sorted(r) && multiset(r) == multiset(s);
    assert |r| == |multiset(r)| == |multiset(s)| == |s|;
    r
  }

  /** The first element of a sorted sequence is its least. */
  lemma SortedHeadIsLeast(s: seq<real>, v: real)
    requires Sorted(s)
    requires v in s
    ensures s[0] <= v
  {
  }

  /** Two sorted sequences holding the same elements start with the same, least, element. */
  lemma SortedSameHead(a: seq<real>, b: seq<real>)
    requires Sorted(a) && Sorted(b)
    requires multiset(a) == multiset(b)
    requires a != []
    ensures b != [] && a[0] == b[0]
    ensures multiset(a[1..]) == multiset(b[1..])
  {
    assert a[0] in multiset(b);
    SortedHeadIsLeast(b, a[0]);
    assert b[0] in multiset(a);
    SortedHeadIsLeast(a, b[0]);
    TailMultiset(a);
    TailMultiset(b);
  }

  /** Dropping the head removes exactly one copy of it from the multiset. */
  lemma TailMultiset(s: seq<real>)
    requires s != []
    ensures multiset(s[1..]) == multiset(s) - multiset{s[0]}
  {
    assert s == [s[0]] + s[1..];
  }

  /** Two sorted sequences holding the same elements are equal. */
  lemma {:induction false} SortedUnique(a: seq<real>, b: seq<real>)
    requires Sorted(a) && Sorted(b)
    requires multiset(a) == multiset(b)
    ensures a == b
  {
    if a == [] {
      assert |b| == |multiset(b)| == 0;
    } else {
      SortedSameHead(a, b);
      SortedUnique(a[1..], b[1..]);
      assert a == [a[0]] + a[1..];
      assert b == [b[0]] + b[1..];
    }
  }

  /** A sorted sequence is its own sorted permutation. */
  lemma SortedPermutationOfSorted(s: seq<real>)
    requires Sorted(s)
    ensures SortedPermutation(s) == s
  {
    SortedUnique(SortedPermutation(s), s);
  }

  /** Moves `a[i]` down into the sorted prefix `a[..i]`, swapping it past every larger element. */
  method InsertIntoPrefix(a: array<real>, i: nat)
    requires i < a.Length
    requires Sorted(a[..i])
    modifies a
    ensures Sorted(a[..i + 1])
    ensures forall k :: i < k < a.Length ==> a[k] == old(a[k])
    ensures multiset(a[..]) == multiset(old(a[..]))
  {
    var j := i;
    while 0 < j && a[j] < a[j - 1]
      invariant 0 <= j <= i
      invariant forall k, l :: 0 <= k < l <= i && k != j && l != j ==> a[k] <= a[l]
      invariant forall l :: j < l <= i ==> a[j] < a[l]
      invariant forall k :: i < k < a.Length ==> a[k] == old(a[k])
      invariant multiset(a[..]) == multiset(old(a[..]))
    {
      a[j - 1], a[j] := a[j], a[j - 1];
      j := j - 1;
    }
    assert forall k, l :: 0 <= k < l <= i ==> a[k] <= a[l];
  }

  /** Sorts `a` ascending, in place. */
  method SortInPlace(a: array<real>)
    modifies a
    ensures Sorted(a[..])
    ensures multiset(a[..]) == multiset(old(a[..]))
  {
    var i := 0;
    while i < a.Length
      invariant 0 <= i <= a.Length
      invariant Sorted(a[..i])
      invariant multiset(a[..]) == multiset(old(a[..]))
    {
      InsertIntoPrefix(a, i);
      i := i + 1;
    }
    assert a[..] == a[..a.Length];
  }
}
