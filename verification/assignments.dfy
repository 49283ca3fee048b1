/** A run of dictionary assignments `m[k] = v`, one after another, and what
    the dictionary holds afterwards: each written key the value of its last
    write, every other key its old value. Both the keyed document writes and
    the plot data are such runs.
 */
module Assignments {

  /** Setting keys one after another, `m[k] = v` for each pair in order. */
  function Writes<K, V>(c: map<K, V>, ws: seq<(K, V)>): map<K, V>
    decreases |ws|
  {
    if ws == [] then c else Writes(c[ws[0].0 := ws[0].1], ws[1..])
  }

  /** The index of the last write under the key, or -1. */
  function LastWrite<K(==), V>(ws: seq<(K, V)>, k: K): (i: int)
    ensures -1 <= i < |ws|
    ensures i >= 0 ==> ws[i].0 == k
    ensures forall j :: i < j < |ws| ==> ws[j].0 != k
  {
    if ws == [] then -1
    else if ws[|ws| - 1].0 == k then |ws| - 1
    else LastWrite(ws[..|ws| - 1], k)
  }

  /** The keys a run of writes writes under. */
  function WrittenKeys<K, V>(ws: seq<(K, V)>): set<K> {
    set i | 0 <= i < |ws| :: ws[i].0
  }

  lemma {:induction false} WritesSnoc<K, V>(c: map<K, V>, ws: seq<(K, V)>, w: (K, V))
    ensures Writes(c, ws + [w]) == Writes(c, ws)[w.0 := w.1]
    decreases |ws|
  {
    if ws != [] {
      assert (ws + [w])[1..] == ws[1..] + [w];
      WritesSnoc(c[ws[0].0 := ws[0].1], ws[1..], w);
    }
  }

  /** After a run of writes, the keys are the old ones and the written ones,
      each written key holds its last write and every other key its old
      value. */
  lemma {:induction false} WritesLast<K, V>(c: map<K, V>, ws: seq<(K, V)>)
    ensures Writes(c, ws).Keys == c.Keys + WrittenKeys(ws)
    ensures forall k :: k in Writes(c, ws) ==>
      Writes(c, ws)[k] == if LastWrite(ws, k) >= 0 then ws[LastWrite(ws, k)].1 else c[k]
    decreases |ws|
  {
    if ws != [] {
      var init := ws[..|ws| - 1];
      var w := ws[|ws| - 1];
      WritesLast(c, init);
      WritesSnoc(c, init, w);
      assert init + [w] == ws;
      assert WrittenKeys(ws) == WrittenKeys(init) + {w.0} by {
        forall k | k in WrittenKeys(ws)
          ensures k in WrittenKeys(init) + {w.0}
        {
          var i :| 0 <= i < |ws| && k == ws[i].0;
          if i < |init| {
            assert init[i].0 == k;
          }
        }
      }
      forall k | k in Writes(c, ws)
        ensures Writes(c, ws)[k] == if LastWrite(ws, k) >= 0 then ws[LastWrite(ws, k)].1 else c[k]
      {
        if k != w.0 {
          assert LastWrite(ws, k) == LastWrite(init, k);
        }
      }
    }
  }

  /** Repeating a run of writes changes nothing. */
  lemma WritesIdempotent<K, V>(c: map<K, V>, ws: seq<(K, V)>)
    ensures Writes(Writes(c, ws), ws) == Writes(c, ws)
  {
    var once := Writes(c, ws);
    WritesLast(c, ws);
    WritesLast(once, ws);
    var twice := Writes(once, ws);
    assert twice.Keys == once.Keys;
    forall k | k in twice
      ensures twice[k] == once[k]
    {
    }
  }

  /** A write that no later write shares a key with is what the key holds at the end. */
  lemma WritesLastIndex<K, V>(c: map<K, V>, ws: seq<(K, V)>, i: int)
    requires 0 <= i < |ws| && forall j :: i < j < |ws| ==> ws[j].0 != ws[i].0
    ensures ws[i].0 in Writes(c, ws) && Writes(c, ws)[ws[i].0] == ws[i].1
  {
    WritesLast(c, ws);
    var last := LastWrite(ws, ws[i].0);
    assert last == i;
  }

  /** A key no write touches keeps its value. */
  lemma WritesKeeps<K, V>(c: map<K, V>, ws: seq<(K, V)>, k: K)
    requires k in c && k !in WrittenKeys(ws)
    ensures k in Writes(c, ws) && Writes(c, ws)[k] == c[k]
  {
    WritesLast(c, ws);
  }

}
