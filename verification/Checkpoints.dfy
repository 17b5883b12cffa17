/** Validator checkpoints under big-endian epoch keys: bounded retention, newest usable first. */
module Checkpoints {
  import opened Common
  import opened Sorting
  import opened Bytes

  const RETENTION: nat := 64
  const EPOCH_BYTES: nat := 8

  type Epoch = n: nat | n < 0x1_0000_0000_0000_0000

  /** What a row decodes to. */
  datatype Entry = Corrupt | Checkpoint(epoch: Epoch, validators: nat, body: nat)
  function RowKey(e: Epoch): Key {
    BigEndian(e, EPOCH_BYTES)
  }

  lemma RowKeyOrders(e: Epoch, e': Epoch)
    ensures RowKey(e) == RowKey(e') <==> e == e'
    ensures Below(RowKey(e), RowKey(e')) <==> e < e'
  {
    assert Power(4) == 256 * 256 * 256 * 256;
    assert Power(8) == 256 * 256 * 256 * 256 * Power(4);
    BigEndianOrders(e, e', EPOCH_BYTES);
  }

  /** The rows are the entries of `kept`, each under its epoch's key. */
  ghost predicate Agree(rows: map<Key, Entry>, kept: map<Epoch, Entry>) {
    && (forall e | e in kept :: RowKey(e) in rows && rows[RowKey(e)] == kept[e])
    && (forall k | k in rows :: exists e | e in kept :: k == RowKey(e))
  }

  /** A checkpoint a restart can use: it decodes, its key is its own, and it names validators. */
  predicate Usable(e: Epoch, entry: Entry) {
    entry.Checkpoint? && entry.epoch == e && entry.validators != 0
  }

  /** The new checkpoint is there, and nothing else changed except that some of the oldest others may
      be gone. */
  ghost predicate Replaces(m: map<Epoch, Entry>, e: Epoch, cp: Entry, m': map<Epoch, Entry>) {
    && e in m' && m'[e] == cp && m'.Keys <= m.Keys + {e}
    && (forall k | k in m' && k != e :: m'[k] == m[k])
    && (forall gone, k | gone in m && gone !in m' && k in m' && k != e :: gone < k)
  }

  function Capped(size: nat): nat {
    if size < RETENTION then size else RETENTION
  }

  /** One write: only what exceeds the retention limit is gone. */
  ghost predicate Writes(m: map<Epoch, Entry>, e: Epoch, cp: Entry, m': map<Epoch, Entry>) {
    Replaces(m, e, cp, m') && |m'.Keys| == Capped(|m.Keys + {e}|)
  }

  class CheckpointStore {
    var rows: map<Key, Entry>
    ghost var kept: map<Epoch, Entry>

    constructor ()
      ensures Agree(rows, kept) && kept == map[]
    {
      rows, kept := map[], map[];
    }

    method CreateCheckpoint(cp: Entry)
      requires Agree(rows, kept) && cp.Checkpoint?
      modifies this
      ensures Agree(rows, kept) && Writes(old(kept), cp.epoch, cp, kept)
    {
      hide BigEndian, Below, Ascending;
      var key := RowKey(cp.epoch);
      var existing := OtherKeys(rows, key);
      ghost var epochs := EpochsOf(rows, kept, existing, cp.epoch);
      var total := |existing| + 1;
      var drop := if total > RETENTION then total - RETENTION else 0;
      StillAgrees(rows, kept, cp, existing, epochs, drop);
      DropOldest(kept, cp, epochs, drop);
      rows := rows[key := cp] - Elements(existing[..drop]);
      kept := kept[cp.epoch := cp] - Elements(epochs[..drop]);
    }

    /** The reverse scan finds the highest usable epoch kept. */
    method LoadLatestCheckpoint() returns (r: Option<Entry>)
      requires Agree(rows, kept)
      ensures r.Some? ==>
                && r.value.Checkpoint? && r.value.epoch in kept && kept[r.value.epoch] == r.value
                && Usable(r.value.epoch, r.value)
                && forall e | e in kept && e > r.value.epoch :: !Usable(e, kept[e])
      ensures r.None? ==> forall e | e in kept :: !Usable(e, kept[e])
    {
      hide RowKey, Below, Ascending, AtMost, Agree, Increasing, Usable;
      var keys := Iterate(rows, []);
      NothingBelowEmpty();
      ghost var epochs := AllEpochs(rows, kept, keys);
      EveryEpochSeen(rows, kept, keys, epochs);
      var i := |keys|;
      while 0 < i
        invariant 0 <= i <= |keys|
        invariant forall l | i <= l < |keys| :: epochs[l] in kept && !Usable(epochs[l], kept[epochs[l]])
      {
        i := i - 1;
        var entry := rows[keys[i]];
        CheckIsUsable(epochs[i], entry);
        if entry.Checkpoint? {
          if keys[i] == RowKey(entry.epoch) && entry.validators != 0 {
            NewerComeLater(kept, epochs, i);
            return Some(entry);
          }
        }
      }
      r := None;
    }
  }

  lemma CheckIsUsable(e: Epoch, entry: Entry)
    ensures Usable(e, entry) <==> entry.Checkpoint? && RowKey(e) == RowKey(entry.epoch) && entry.validators != 0
    ensures Usable(e, entry) ==> entry.epoch == e
  {
    if entry.Checkpoint? {
      RowKeyOrders(e, entry.epoch);
    }
  }

  lemma EveryEpochSeen(rows: map<Key, Entry>, kept: map<Epoch, Entry>, keys: seq<Key>, epochs: seq<Epoch>)
    requires Agree(rows, kept) && Spelled(keys, epochs)
    requires forall k | k in rows :: k in keys
    requires forall e | e in kept && RowKey(e) in keys :: e in epochs
    requires forall e | e in epochs :: e in kept
    ensures forall e | e in kept :: e in epochs
    ensures forall i | 0 <= i < |epochs| :: epochs[i] in kept && keys[i] in rows && rows[keys[i]] == kept[epochs[i]]
  {
    hide RowKey;
    forall i | 0 <= i < |epochs|
      ensures epochs[i] in kept && keys[i] in rows && rows[keys[i]] == kept[epochs[i]]
    {
      assert epochs[i] in epochs;
    }
  }

  lemma NewerComeLater(kept: map<Epoch, Entry>, epochs: seq<Epoch>, i: nat)
    requires Increasing(epochs) && i < |epochs| && forall e | e in kept :: e in epochs
    requires forall l | i < l < |epochs| :: epochs[l] in kept && !Usable(epochs[l], kept[epochs[l]])
    ensures forall e | e in kept && e > epochs[i] :: !Usable(e, kept[e])
  {
    forall e | e in kept && e > epochs[i] ensures !Usable(e, kept[e]) {
      var l :| 0 <= l < |epochs| && epochs[l] == e;
      assert i < l;
    }
  }

  method OtherKeys(rows: map<Key, Entry>, key: Key) returns (existing: seq<Key>)
    ensures Ascending(existing)
    ensures forall k :: k in existing <==> k in rows && k != key
  {
    hide Below;
    var keys := Iterate(rows, []);
    NothingBelowEmpty();
    existing := [];
    for i := 0 to |keys|
      invariant Ascending(existing)
      invariant forall k :: k in existing <==> k in keys[..i] && k != key
    {
      assert keys[..i + 1] == keys[..i] + [keys[i]];
      if keys[i] != key {
        forall a | 0 <= a < |existing| ensures Below(existing[a], keys[i]) {
          assert existing[a] in existing;
          var l :| 0 <= l < i && keys[..i][l] == existing[a];
        }
        existing := existing + [keys[i]];
      }
    }
    assert keys[..|keys|] == keys;
  }

  lemma NothingBelowEmpty()
    ensures forall k: Key :: AtMost([], k)
  {
  }

  ghost predicate Spelled(keys: seq<Key>, epochs: seq<Epoch>) {
    |epochs| == |keys| && forall i | 0 <= i < |keys| :: keys[i] == RowKey(epochs[i])
  }

  ghost predicate Increasing(epochs: seq<Epoch>) {
    forall i, j | 0 <= i < j < |epochs| :: epochs[i] < epochs[j]
  }

  /** Ascending keys spell increasing epochs. */
  lemma AllEpochs(rows: map<Key, Entry>, kept: map<Epoch, Entry>, keys: seq<Key>) returns (epochs: seq<Epoch>)
    requires Agree(rows, kept) && Ascending(keys)
    requires forall k | k in keys :: k in rows
    ensures Spelled(keys, epochs) && Increasing(epochs)
    ensures forall e | e in epochs :: e in kept
    ensures forall e | e in kept && RowKey(e) in keys :: e in epochs
  {
    hide BigEndian, Below;
    epochs := [];
    for i := 0 to |keys|
      invariant |epochs| == i && forall l | 0 <= l < i :: keys[l] == RowKey(epochs[l]) && epochs[l] in kept
    {
      assert keys[i] in rows;
      var e :| e in kept && keys[i] == RowKey(e);
      epochs := epochs + [e];
    }
    forall i, j | 0 <= i < j < |epochs| ensures epochs[i] < epochs[j] {
      RowKeyOrders(epochs[i], epochs[j]);
    }
    forall e | e in kept && RowKey(e) in keys ensures e in epochs {
      var l :| 0 <= l < |keys| && keys[l] == RowKey(e);
      RowKeyOrders(e, epochs[l]);
      assert epochs[l] == e;
    }
  }

  lemma EpochsOf(rows: map<Key, Entry>, kept: map<Epoch, Entry>, existing: seq<Key>, e: Epoch)
    returns (epochs: seq<Epoch>)
    requires Agree(rows, kept) && Ascending(existing)
    requires forall k :: k in existing <==> k in rows && k != RowKey(e)
    ensures Spelled(existing, epochs) && Increasing(epochs)
    ensures Elements(epochs) == kept.Keys - {e}
  {
    hide BigEndian, Below, Ascending;
    epochs := AllEpochs(rows, kept, existing);
    forall x: Epoch ensures x in Elements(epochs) <==> x in kept.Keys - {e} {
      RowKeyOrders(x, e);
      if x in epochs {
        var l :| 0 <= l < |epochs| && epochs[l] == x;
        assert existing[l] in existing;
      }
    }
  }

  lemma StillAgrees(rows: map<Key, Entry>, kept: map<Epoch, Entry>, cp: Entry, existing: seq<Key>, epochs: seq<Epoch>,
                    drop: nat)
    requires Agree(rows, kept) && cp.Checkpoint? && Spelled(existing, epochs) && drop <= |existing|
    ensures Agree(rows[RowKey(cp.epoch) := cp] - Elements(existing[..drop]),
                  kept[cp.epoch := cp] - Elements(epochs[..drop]))
  {
    hide BigEndian;
    var rows' := rows[RowKey(cp.epoch) := cp] - Elements(existing[..drop]);
    var kept' := kept[cp.epoch := cp] - Elements(epochs[..drop]);
    forall e: Epoch ensures RowKey(e) in Elements(existing[..drop]) <==> e in Elements(epochs[..drop]) {
      if RowKey(e) in existing[..drop] {
        var l :| 0 <= l < drop && existing[l] == RowKey(e);
        RowKeyOrders(e, epochs[l]);
        assert epochs[..drop][l] == e;
      }
    }
    forall e | e in kept' ensures RowKey(e) in rows' && rows'[RowKey(e)] == kept'[e] {
      RowKeyOrders(e, cp.epoch);
    }
    forall k | k in rows' ensures exists e | e in kept' :: k == RowKey(e) {
      if k == RowKey(cp.epoch) {
        assert cp.epoch in kept';
      } else {
        var e :| e in kept && k == RowKey(e);
        assert e in kept';
      }
    }
  }

  /** Dropping the oldest others beyond the limit is a write. */
  lemma DropOldest(m: map<Epoch, Entry>, cp: Entry, epochs: seq<Epoch>, drop: nat)
    requires cp.Checkpoint? && Increasing(epochs) && Elements(epochs) == m.Keys - {cp.epoch}
    requires drop == if |epochs| + 1 > RETENTION then |epochs| + 1 - RETENTION else 0
    ensures Writes(m, cp.epoch, cp, m[cp.epoch := cp] - Elements(epochs[..drop]))
  {
    hide Increasing, Elements, Replaces;
    var e, gone, others := cp.epoch, Elements(epochs[..drop]), Elements(epochs);
    SizesOf(epochs, drop);
    forall g, k | g in gone && k in m && k != e && k !in gone ensures g < k {
      assert k in others;
      OldestFirst(epochs, drop, g, k);
    }
    DropsOnlyOldest(m, e, cp, gone);
    assert m.Keys + {e} == others + {e};
    SizeAfterDrop(m.Keys + {e}, gone);
  }

  lemma DropsOnlyOldest(m: map<Epoch, Entry>, e: Epoch, cp: Entry, gone: set<Epoch>)
    requires gone <= m.Keys && e !in gone
    requires forall g, k | g in gone && k in m && k != e && k !in gone :: g < k
    ensures Replaces(m, e, cp, m[e := cp] - gone)
    ensures (m[e := cp] - gone).Keys == m.Keys + {e} - gone
  {
    var m' := m[e := cp] - gone;
    assert m'.Keys == m.Keys + {e} - gone;
    assert forall g, k | g in m && g !in m' && k in m' && k != e :: g < k;
  }

  lemma SizeAfterDrop(all: set<Epoch>, gone: set<Epoch>)
    requires gone <= all
    ensures |all - gone| == |all| - |gone|
  {
    assert (all - gone) + gone == all;
  }

  lemma SizesOf(epochs: seq<Epoch>, drop: nat)
    requires Increasing(epochs) && drop <= |epochs|
    ensures |Elements(epochs)| == |epochs| && |Elements(epochs[..drop])| == drop
    ensures Elements(epochs[..drop]) <= Elements(epochs)
  {
    DistinctSize(epochs);
    DistinctSize(epochs[..drop]);
  }

  lemma OldestFirst(epochs: seq<Epoch>, drop: nat, g: Epoch, k: Epoch)
    requires Increasing(epochs) && drop <= |epochs|
    requires g in Elements(epochs[..drop]) && k in Elements(epochs) && k !in Elements(epochs[..drop])
    ensures g < k
  {
    var i :| 0 <= i < drop && epochs[..drop][i] == g;
    var j :| 0 <= j < |epochs| && epochs[j] == k;
    assert forall l | 0 <= l < drop :: epochs[..drop][l] in Elements(epochs[..drop]);
  }

  // ---------- Whole runs ----------

  /** States before and after each write of a run. */
  ghost predicate Run(states: seq<map<Epoch, Entry>>, writes: seq<Entry>) {
    && |states| == |writes| + 1 && states[0] == map[]
    && forall i | 0 <= i < |writes| ::
         writes[i].Checkpoint? && Writes(states[i], writes[i].epoch, writes[i], states[i + 1])
  }

  /** The epochs of the first `n` writes. */
  ghost function Written(writes: seq<Entry>, n: nat): set<Epoch>
    requires n <= |writes| && forall w | w in writes :: w.Checkpoint?
  {
    if n == 0 then {} else Written(writes, n - 1) + {writes[n - 1].epoch}
  }

  /** `m` holds the newest epochs of `all`, as many as the limit allows. */
  ghost predicate Newest(m: set<Epoch>, all: set<Epoch>) {
    m <= all && |m| == Capped(|all|) && forall gone, k | gone in all - m && k in m :: gone < k
  }

  /** However many checkpoints are written, in whatever epoch order, at most 64 are retained, and the
      one written last is among them. */
  lemma RetentionIsBounded(states: seq<map<Epoch, Entry>>, writes: seq<Entry>, n: nat)
    requires Run(states, writes) && 0 < n <= |writes|
    ensures |states[n].Keys| <= RETENTION && writes[n - 1].epoch in states[n]
  {
    assert Writes(states[n - 1], writes[n - 1].epoch, writes[n - 1], states[n]);
  }

  /** With epochs that never decrease, what is retained is exactly the newest 64 epochs ever written. */
  lemma {:induction false} NewestAreRetained(states: seq<map<Epoch, Entry>>, writes: seq<Entry>, n: nat)
    requires Run(states, writes) && n <= |writes|
    requires forall i, j | 0 <= i < j < |writes| :: writes[i].epoch <= writes[j].epoch
    ensures forall w | w in writes :: w.Checkpoint?
    ensures Newest(states[n].Keys, Written(writes, n))
  {
    hide Writes, Capped, Newest;
    if n == 0 {
      NothingWritten(states[0]);
    } else {
      NewestAreRetained(states, writes, n - 1);
      WrittenIsOlder(writes, n - 1, writes[n - 1].epoch);
      OneMoreRetained(states[n - 1], states[n], Written(writes, n - 1), writes[n - 1]);
    }
  }

  lemma {:induction false} WrittenIsOlder(writes: seq<Entry>, n: nat, e: Epoch)
    requires n <= |writes| && forall w | w in writes :: w.Checkpoint?
    requires forall i | 0 <= i < n :: writes[i].epoch <= e
    ensures forall x | x in Written(writes, n) :: x <= e
  {
    if n > 0 {
      WrittenIsOlder(writes, n - 1, e);
    }
  }

  lemma NothingWritten(m: map<Epoch, Entry>)
    requires m == map[]
    ensures Newest(m.Keys, {})
  {
  }

  lemma OneMoreRetained(m: map<Epoch, Entry>, m': map<Epoch, Entry>, all: set<Epoch>, cp: Entry)
    requires cp.Checkpoint? && Writes(m, cp.epoch, cp, m') && forall e | e in all :: e <= cp.epoch
    requires Newest(m.Keys, all)
    ensures Newest(m'.Keys, all + {cp.epoch})
  {
    var e, all' := cp.epoch, all + {cp.epoch};
    if |all| < RETENTION {
      SameSizeSubset(m.Keys, all);
    } else {
      EnoughEither(m.Keys, all, e);
    }
    forall gone, k | gone in all' - m'.Keys && k in m' ensures gone < k {
      assert gone != e;
      assert k == e || k in m;
      assert gone !in m ==> gone in all - m.Keys;
    }
  }

  lemma EnoughEither(some: set<Epoch>, all: set<Epoch>, e: Epoch)
    requires |some| >= RETENTION && |all| >= RETENTION
    ensures |some + {e}| >= RETENTION && |all + {e}| >= RETENTION
  {
    assert e in some ==> some + {e} == some;
    assert e in all ==> all + {e} == all;
  }

  lemma {:induction false} SameSizeSubset(a: set<Epoch>, b: set<Epoch>)
    requires a <= b && |a| == |b|
    ensures a == b
  {
    assert b == a + (b - a);
    assert |b| == |a| + |b - a|;
  }
}
