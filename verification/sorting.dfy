/** Ordering rows by a rank, as an SQL `ORDER BY` does: a permutation of the
    input whose ranks never decrease. Rows of equal rank keep their input order
    (insertion sort is stable); a database is free to order such ties in any
    way, so nothing else in the model relies on it.
 */
module Sorting {

  /** The ranks never decrease along xs. */
  predicate SortedBy<T>(xs: seq<T>, rank: T -> int) {
    forall i, j :: 0 <= i < j < |xs| ==> rank(xs[i]) <= rank(xs[j])
  }

  /** x inserted into xs before the first element ranked at least as high. */
  function InsertBy<T>(x: T, xs: seq<T>, rank: T -> int): (r: seq<T>)
    requires SortedBy(xs, rank)
    ensures SortedBy(r, rank)
    ensures multiset(r) == multiset(xs) + multiset{x}
    ensures |r| == |xs| + 1
  {
    if xs == [] || rank(x) <= rank(xs[0]) then
      [x] + xs
    else
      var rest := InsertBy(x, xs[1..], rank);
      forall k | 0 <= k < |rest|
        ensures rank(xs[0]) <= rank(rest[k])
      {
        assert rest[k] in multiset(rest);
        if rest[k] != x {
          assert rest[k] in multiset(xs[1..]);
          var m :| 0 <= m < |xs[1..]| && xs[1..][m] == rest[k];
          assert xs[m + 1] == rest[k];
        }
      }
      InsertKeepsSorted(xs, rest, rank);
      assert xs == [xs[0]] + xs[1..];
      [xs[0]] + rest
  }

  /** Putting the head back in front of a sorted permutation of the tail plus an element ranked above the head. */
  lemma InsertKeepsSorted<T>(xs: seq<T>, rest: seq<T>, rank: T -> int)
    requires xs != [] && SortedBy(xs, rank) && SortedBy(rest, rank)
    requires forall k :: 0 <= k < |rest| ==> rank(xs[0]) <= rank(rest[k])
    ensures SortedBy([xs[0]] + rest, rank)
  {
    var r := [xs[0]] + rest;
    forall i, j | 0 <= i < j < |r|
      ensures rank(r[i]) <= rank(r[j])
    {
      assert r[j] == rest[j - 1];
      if i > 0 {
        assert r[i] == rest[i - 1];
      }
    }
  }

  /** Insertion sort by rank. */
  function SortBy<T>(xs: seq<T>, rank: T -> int): (r: seq<T>)
    ensures SortedBy(r, rank)
    ensures multiset(r) == multiset(xs)
    ensures |r| == |xs|
  {
    if xs == [] then []
    else
      assert xs == [xs[0]] + xs[1..];
      InsertBy(xs[0], SortBy(xs[1..], rank), rank)
  }

  /** Sorting keeps exactly the elements it was given. */
  lemma SortByMembers<T>(xs: seq<T>, rank: T -> int, x: T)
    ensures x in SortBy(xs, rank) <==> x in xs
  {
    var r := SortBy(xs, rank);
    assert x in r <==> x in multiset(r);
    assert x in xs <==> x in multiset(xs);
  }

  /** Ranks that are already in order are left as they are. */
  lemma {:induction false} SortBySorted<T>(xs: seq<T>, rank: T -> int)
    requires forall i :: 0 <= i < |xs| - 1 ==> rank(xs[i]) <= rank(xs[i + 1])
    ensures SortBy(xs, rank) == xs
  {
    if xs != [] {
      SortBySorted(xs[1..], rank);
      assert SortBy(xs[1..], rank) == xs[1..];
    }
  }
}
