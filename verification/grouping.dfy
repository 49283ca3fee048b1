/** `itertools.groupby`: a sequence split into maximal runs of consecutive
    elements with equal keys. Every grouped listing of the backend (prices per
    date, prices per prefecture) is built with it.
 */
module Grouping {

  datatype Group<K, T> = Group(key: K, items: seq<T>)

  /** All the items of the groups, in order. */
  function Flatten<K, T>(gs: seq<Group<K, T>>): seq<T> {
    if gs == [] then [] else gs[0].items + Flatten(gs[1..])
  }

  /** Neighbouring groups have different keys. */
  predicate NeighboursDiffer<K(==), T>(gs: seq<Group<K, T>>) {
    |gs| < 2 || (gs[0].key != gs[1].key && NeighboursDiffer(gs[1..]))
  }

  /** Every group is non-empty and its items all carry its key. */
  predicate WellKeyed<K(==), T>(gs: seq<Group<K, T>>, key: T -> K) {
    forall i :: 0 <= i < |gs| ==>
      gs[i].items != [] && forall j :: 0 <= j < |gs[i].items| ==> key(gs[i].items[j]) == gs[i].key
  }

  /** `[(k, list(g)) for k, g in itertools.groupby(xs, key)]`. */
  function GroupBy<K(==), T>(xs: seq<T>, key: T -> K): (gs: seq<Group<K, T>>)
    ensures WellKeyed(gs, key)
    ensures |gs| <= |xs|
    ensures xs != [] ==> gs != [] && gs[0].key == key(xs[0])
  {
    if xs == [] then []
    else
      var rest := GroupBy(xs[1..], key);
      if rest != [] && rest[0].key == key(xs[0]) then
        [Group(key(xs[0]), [xs[0]] + rest[0].items)] + rest[1..]
      else
        [Group(key(xs[0]), [xs[0]])] + rest
  }

  /** Concatenating the groups gives the input back, in order. */
  lemma {:induction false} FlattenGroupBy<K, T>(xs: seq<T>, key: T -> K)
    ensures Flatten(GroupBy(xs, key)) == xs
  {
    if xs != [] {
      var rest := GroupBy(xs[1..], key);
      FlattenGroupBy(xs[1..], key);
      if rest != [] && rest[0].key == key(xs[0]) {
        var gs := GroupBy(xs, key);
        assert gs[1..] == rest[1..];
        assert Flatten(rest) == rest[0].items + Flatten(rest[1..]);
      }
    }
  }

  /** The groups are maximal: neighbouring groups never share a key. */
  lemma {:induction false} GroupByMaximal<K, T>(xs: seq<T>, key: T -> K)
    ensures NeighboursDiffer(GroupBy(xs, key))
  {
    if xs != [] {
      var rest := GroupBy(xs[1..], key);
      GroupByMaximal(xs[1..], key);
      var gs := GroupBy(xs, key);
      if rest != [] && rest[0].key == key(xs[0]) {
        assert gs[1..] == rest[1..];
        if |rest| >= 2 {
          assert NeighboursDiffer(rest[1..]);
        }
      } else {
        assert gs[1..] == rest;
      }
    }
  }

  /** Any well-keyed, maximal split of xs is the one `groupby` computes. */
  lemma {:induction false} GroupByUnique<K, T>(xs: seq<T>, key: T -> K, gs: seq<Group<K, T>>)
    requires Flatten(gs) == xs && WellKeyed(gs, key) && NeighboursDiffer(gs)
    ensures GroupBy(xs, key) == gs
    decreases |xs|
  {
    if gs == [] {
    } else {
      var g := gs[0];
      var x := g.items[0];
      assert xs[0] == x;
      if |g.items| == 1 {
        var tail := gs[1..];
        assert xs[1..] == Flatten(tail);
        assert WellKeyed(tail, key) by {
          forall i | 0 <= i < |tail| ensures tail[i] == gs[i + 1] { }
        }
        GroupByUnique(xs[1..], key, tail);
        assert g.items == [x] && g.key == key(x);
        assert gs == [g] + tail;
        if tail != [] {
          assert tail[0].key != g.key;
        }
      } else {
        var tail := [Group(g.key, g.items[1..])] + gs[1..];
        assert Flatten(tail) == g.items[1..] + Flatten(gs[1..]);
        assert g.items == [x] + g.items[1..];
        assert xs[1..] == Flatten(tail);
        assert WellKeyed(tail, key) by {
          forall i | 0 <= i < |tail|
            ensures tail[i].items != [] && forall j :: 0 <= j < |tail[i].items| ==> key(tail[i].items[j]) == tail[i].key
          {
            if i == 0 {
              forall j | 0 <= j < |tail[0].items| ensures key(tail[0].items[j]) == tail[0].key {
                assert tail[0].items[j] == g.items[j + 1];
              }
            } else {
              assert tail[i] == gs[i];
            }
          }
        }
        assert NeighboursDiffer(tail) by {
          if |gs| >= 2 {
            assert tail[1..] == gs[1..];
          }
        }
        GroupByUnique(xs[1..], key, tail);
      }
    }
  }

  /** The group keys strictly increase in rank. */
  predicate StrictlyRanked<K, T>(gs: seq<Group<K, T>>, rank: K -> int) {
    forall i, j :: 0 <= i < j < |gs| ==> rank(gs[i].key) < rank(gs[j].key)
  }

  /** Grouping input sorted by an injective rank of its key gives groups of strictly increasing rank. */
  lemma {:induction false} GroupByIncreasing<K, T>(xs: seq<T>, key: T -> K, rank: K -> int)
    requires forall i, j :: 0 <= i < j < |xs| ==> rank(key(xs[i])) <= rank(key(xs[j]))
    requires forall i, j :: 0 <= i < j < |xs| && key(xs[i]) != key(xs[j]) ==> rank(key(xs[i])) != rank(key(xs[j]))
    ensures StrictlyRanked(GroupBy(xs, key), rank)
  {
    if xs != [] {
      var tail := xs[1..];
      forall i, j | 0 <= i < j < |tail|
        ensures rank(key(tail[i])) <= rank(key(tail[j]))
        ensures key(tail[i]) != key(tail[j]) ==> rank(key(tail[i])) != rank(key(tail[j]))
      {
        assert tail[i] == xs[i + 1] && tail[j] == xs[j + 1];
      }
      GroupByIncreasing(tail, key, rank);
      var rest := GroupBy(tail, key);
      var k0 := key(xs[0]);
      if rest != [] && rest[0].key == k0 {
        RankedMerge(Group(k0, [xs[0]] + rest[0].items), rest, rank);
      } else {
        if rest != [] {
          assert rest[0].key == key(xs[1]);
        }
        RankedCons(Group(k0, [xs[0]]), rest, rank);
      }
    }
  }

  /** A group ranked below a strictly ranked list can go in front of it. */
  lemma RankedCons<K, T>(g: Group<K, T>, rest: seq<Group<K, T>>, rank: K -> int)
    requires StrictlyRanked(rest, rank) && (rest != [] ==> rank(g.key) < rank(rest[0].key))
    ensures StrictlyRanked([g] + rest, rank)
  {
    var gs := [g] + rest;
    forall i, j | 0 <= i < j < |gs|
      ensures rank(gs[i].key) < rank(gs[j].key)
    {
      assert gs[j] == rest[j - 1];
      if i > 0 {
        assert gs[i] == rest[i - 1];
      } else if j > 1 {
        assert rank(rest[0].key) < rank(rest[j - 1].key);
      }
    }
  }

  /** A group with the key of the first one of a strictly ranked list can replace it. */
  lemma RankedMerge<K, T>(g: Group<K, T>, rest: seq<Group<K, T>>, rank: K -> int)
    requires StrictlyRanked(rest, rank) && rest != [] && g.key == rest[0].key
    ensures StrictlyRanked([g] + rest[1..], rank)
  {
    var gs := [g] + rest[1..];
    forall i, j | 0 <= i < j < |gs|
      ensures rank(gs[i].key) < rank(gs[j].key)
    {
      assert gs[j] == rest[j];
      if i > 0 {
        assert gs[i] == rest[i];
      }
    }
  }

  /** An item is flattened out exactly when some group holds it. */
  lemma {:induction false} FlattenMembers<K, T>(gs: seq<Group<K, T>>, x: T)
    ensures x in Flatten(gs) <==> exists i :: 0 <= i < |gs| && x in gs[i].items
  {
    if gs != [] {
      FlattenMembers(gs[1..], x);
      if exists i :: 0 <= i < |gs[1..]| && x in gs[1..][i].items {
        var i :| 0 <= i < |gs[1..]| && x in gs[1..][i].items;
        assert x in gs[i + 1].items;
      }
      if exists i :: 0 <= i < |gs| && x in gs[i].items {
        var i :| 0 <= i < |gs| && x in gs[i].items;
        if i > 0 {
          assert x in gs[1..][i - 1].items;
        }
      }
    }
  }

  /** The keys of the groups are exactly the keys of the items. */
  lemma GroupByKeys<K, T>(xs: seq<T>, key: T -> K, k: K)
    ensures (exists i :: 0 <= i < |GroupBy(xs, key)| && GroupBy(xs, key)[i].key == k) <==>
      (exists j :: 0 <= j < |xs| && key(xs[j]) == k)
  {
    var gs := GroupBy(xs, key);
    FlattenGroupBy(xs, key);
    if exists i :: 0 <= i < |gs| && gs[i].key == k {
      var i :| 0 <= i < |gs| && gs[i].key == k;
      var x := gs[i].items[0];
      FlattenMembers(gs, x);
      var j :| 0 <= j < |xs| && xs[j] == x;
    }
    if exists j :: 0 <= j < |xs| && key(xs[j]) == k {
      var j :| 0 <= j < |xs| && key(xs[j]) == k;
      FlattenMembers(gs, xs[j]);
      var i :| 0 <= i < |gs| && xs[j] in gs[i].items;
      var m :| 0 <= m < |gs[i].items| && gs[i].items[m] == xs[j];
    }
  }

  /** When the keys of the groups rank strictly apart, a group holds exactly the items with its key. */
  lemma GroupByMembers<K, T>(xs: seq<T>, key: T -> K, rank: K -> int, i: nat, x: T)
    requires StrictlyRanked(GroupBy(xs, key), rank) && i < |GroupBy(xs, key)|
    ensures x in GroupBy(xs, key)[i].items <==> x in xs && key(x) == GroupBy(xs, key)[i].key
  {
    var gs := GroupBy(xs, key);
    FlattenGroupBy(xs, key);
    FlattenMembers(gs, x);
    if x in gs[i].items {
      var m :| 0 <= m < |gs[i].items| && gs[i].items[m] == x;
    }
    if x in xs && key(x) == gs[i].key {
      var j :| 0 <= j < |gs| && x in gs[j].items;
      var m :| 0 <= m < |gs[j].items| && gs[j].items[m] == x;
      assert gs[j].key == gs[i].key;
    }
  }
}
