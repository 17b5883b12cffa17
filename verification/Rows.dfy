/** Ordered puts on one column of the database. */
module Rows {

  /** Apply puts in order: the last put on a key wins. */
  function PutAll<K, V>(m: map<K, V>, rows: seq<(K, V)>): map<K, V> {
    if rows == [] then m
    else PutAll(m, rows[..|rows| - 1])[rows[|rows| - 1].0 := rows[|rows| - 1].1]
  }

  function Keys<K, V>(rows: seq<(K, V)>): set<K> {
    set i | 0 <= i < |rows| :: rows[i].0
  }

  /** A key is there if it was or is put, and an unput key keeps its value. */
  lemma {:induction false} PutAllAt<K, V>(m: map<K, V>, rows: seq<(K, V)>, k: K)
    ensures k in PutAll(m, rows) <==> k in m || k in Keys(rows)
    ensures k in m && k !in Keys(rows) ==> PutAll(m, rows)[k] == m[k]
  {
    if rows != [] {
      var front := rows[..|rows| - 1];
      PutAllAt(m, front, k);
      assert Keys(rows) == Keys(front) + {rows[|rows| - 1].0};
    }
  }

  /** A put key's value depends on the puts alone. */
  lemma {:induction false} PutDecides<K, V>(m: map<K, V>, m': map<K, V>, rows: seq<(K, V)>, k: K)
    requires k in Keys(rows)
    ensures k in PutAll(m, rows) && k in PutAll(m', rows) && PutAll(m, rows)[k] == PutAll(m', rows)[k]
  {
    PutAllAt(m, rows, k);
    PutAllAt(m', rows, k);
    var front := rows[..|rows| - 1];
    if k != rows[|rows| - 1].0 {
      assert Keys(rows) == Keys(front) + {rows[|rows| - 1].0};
      PutDecides(m, m', front, k);
    }
  }

  lemma {:induction false} PutAllConcat<K, V>(m: map<K, V>, a: seq<(K, V)>, b: seq<(K, V)>)
    ensures PutAll(m, a + b) == PutAll(PutAll(m, a), b)
  {
    if b == [] {
      assert a + b == a;
    } else {
      PutAllConcat(m, a, b[..|b| - 1]);
      assert (a + b)[..|a + b| - 1] == a + b[..|b| - 1];
    }
  }

  lemma PutOne<K, V>(m: map<K, V>, k: K, v: V)
    ensures PutAll(m, [(k, v)]) == m[k := v]
  {
    assert [(k, v)][..0] == [];
  }

  lemma KeysConcat<K, V>(a: seq<(K, V)>, b: seq<(K, V)>)
    ensures Keys(a + b) == Keys(a) + Keys(b)
  {
    assert forall i | 0 <= i < |b| :: (a + b)[|a| + i] == b[i];
    assert forall i | 0 <= i < |a| :: (a + b)[i] == a[i];
  }

  /** Replacing a tail of puts: deleting the keys of the old tail that the new one does not put, and
      then putting the new tail, is the same as never having put the old tail, exactly when no deleted
      key was there before the old tail. */
  lemma ReplaceTail<K, V>(m: map<K, V>, old_: seq<(K, V)>, new_: seq<(K, V)>)
    ensures PutAll(PutAll(m, old_) - (Keys(old_) - Keys(new_)), new_) == PutAll(m, new_)
       <==> Keys(old_) - Keys(new_) !! m.Keys
  {
    hide PutAll, Keys;
    var gone := Keys(old_) - Keys(new_);
    var kept := PutAll(m, old_) - gone;
    var lhs, rhs := PutAll(kept, new_), PutAll(m, new_);
    forall k ensures k in lhs <==> k in kept || k in Keys(new_)
             ensures k in rhs <==> k in m || k in Keys(new_)
    {
      PutAllAt(kept, new_, k);
      PutAllAt(m, new_, k);
    }
    if gone !! m.Keys {
      forall k | k in lhs.Keys + rhs.Keys ensures k in lhs && k in rhs && lhs[k] == rhs[k] {
        PutAllAt(m, old_, k);
        PutAllAt(kept, new_, k);
        PutAllAt(m, new_, k);
        if k in Keys(new_) {
          PutDecides(kept, m, new_, k);
        }
      }
      assert lhs.Keys == rhs.Keys;
    } else {
      var k :| k in gone && k in m.Keys;
      assert k !in lhs && k in rhs;
    }
  }

  /** The last put on a key decides. */
  lemma {:induction false} LastPutDecides<K, V>(m: map<K, V>, rows: seq<(K, V)>, j: nat)
    requires j < |rows| && forall l | j < l < |rows| :: rows[l].0 != rows[j].0
    ensures rows[j].0 in PutAll(m, rows) && PutAll(m, rows)[rows[j].0] == rows[j].1
  {
    if j < |rows| - 1 {
      LastPutDecides(m, rows[..|rows| - 1], j);
    }
  }
}
