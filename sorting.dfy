/**
 * `[...xs].sort((a, b) => key(b) - key(a))`: a sorted copy, largest key
 * first. The input sequence is a value and is never changed. The model
 * states sortedness and a permutation of the input; the relative order of
 * equal keys, which Array.prototype.sort keeps stable, is not stated.
 */
module Sorting {

  predicate SortedDesc<T>(xs: seq<T>, key: T -> real)
  {
    forall i, j :: 0 <= i < j < |xs| ==> key(xs[i]) >= key(xs[j])
  }

  /** Places x before the first element whose key does not exceed key(x). */
  function Insert<T>(x: T, xs: seq<T>, key: T -> real): (r: seq<T>)
    requires SortedDesc(xs, key)
    ensures SortedDesc(r, key)
    ensures multiset(r) == multiset(xs) + multiset{x}
    ensures |r| == |xs| + 1
    ensures r[0] == x || (xs != [] && r[0] == xs[0])
  {
    if xs == [] || key(x) >= key(xs[0]) then [x] + xs
    else
      var tail := Insert(x, xs[1..], key);
      assert xs == [xs[0]] + xs[1..];
      assert key(tail[0]) <= key(xs[0]);
      [xs[0]] + tail
  }

  function SortDesc<T>(xs: seq<T>, key: T -> real): (r: seq<T>)
    ensures SortedDesc(r, key)
    ensures multiset(r) == multiset(xs)
    ensures |r| == |xs|
  {
    if xs == [] then []
    else
      assert xs == [xs[0]] + xs[1..];
      Insert(xs[0], SortDesc(xs[1..], key), key)
  }

  /** Every element of a sorted sequence lies between its first and its last. */
  lemma SortedBounds<T>(r: seq<T>, key: T -> real, x: T)
    requires SortedDesc(r, key) && x in r
    ensures key(r[|r| - 1]) <= key(x) <= key(r[0])
  {
    var j :| 0 <= j < |r| && r[j] == x;
    if 0 < j {
      assert key(r[0]) >= key(r[j]);
    }
    if j < |r| - 1 {
      assert key(r[j]) >= key(r[|r| - 1]);
    }
  }

  /** The head of a non-empty sorted copy carries the largest key of the input. */
  lemma SortedHeadIsLargest<T>(xs: seq<T>, key: T -> real)
    requires xs != []
    ensures forall i :: 0 <= i < |xs| ==> key(xs[i]) <= key(SortDesc(xs, key)[0])
  {
    var r := SortDesc(xs, key);
    forall i | 0 <= i < |xs|
      ensures key(xs[i]) <= key(r[0])
    {
      assert xs[i] in multiset(r);
      SortedBounds(r, key, xs[i]);
    }
  }

  /** The last element of a non-empty sorted copy carries the smallest key. */
  lemma SortedLastIsSmallest<T>(xs: seq<T>, key: T -> real)
    requires xs != []
    ensures forall i :: 0 <= i < |xs| ==> key(SortDesc(xs, key)[|xs| - 1]) <= key(xs[i])
  {
    var r := SortDesc(xs, key);
    forall i | 0 <= i < |xs|
      ensures key(r[|xs| - 1]) <= key(xs[i])
    {
      assert xs[i] in multiset(r);
      SortedBounds(r, key, xs[i]);
    }
  }
}
