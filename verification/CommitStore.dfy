/** Training-epoch commitments under the key `job ‖ big-endian epoch`. */
module CommitStore {
  import opened Common
  import opened Bytes

  const JOB_BYTES: nat := 32
  const EPOCH_BYTES: nat := 8
  const U64_LIMIT: nat := 0x1_0000_0000_0000_0000

  type Job = k: Key | |k| == 32 witness seq(32, _ => 0 as byte)
  type Epoch = n: nat | n < 0x1_0000_0000_0000_0000

  datatype Commit = Commit(job: Job, epoch: Epoch, body: nat)
  function RowKey(job: Job, epoch: Epoch): Key {
    job + BigEndian(epoch, EPOCH_BYTES)
  }

  lemma EightBytes()
    ensures Power(EPOCH_BYTES) == U64_LIMIT
  {
    assert Power(4) == 256 * 256 * 256 * 256;
    assert Power(8) == 256 * 256 * 256 * 256 * Power(4);
  }

  /** Row keys tell (job, epoch) pairs apart, and order a job's epochs numerically. */
  lemma RowKeyOrders(j: Job, e: Epoch, j': Job, e': Epoch)
    ensures RowKey(j, e) == RowKey(j', e') <==> j == j' && e == e'
    ensures Below(RowKey(j, e), RowKey(j', e')) <==> Below(j, j') || (j == j' && e < e')
    ensures RowKey(j, e)[..JOB_BYTES] == j && !Below(j, j)
  {
    BelowIsStrictTotal(j, j);
    EightBytes();
    BigEndianOrders(e, e', EPOCH_BYTES);
    PrefixDecides(j, BigEndian(e, EPOCH_BYTES), j', BigEndian(e', EPOCH_BYTES));
    assert RowKey(j, e)[..JOB_BYTES] == j && RowKey(j', e')[..JOB_BYTES] == j';
    assert RowKey(j, e)[JOB_BYTES..] == BigEndian(e, EPOCH_BYTES);
    assert RowKey(j', e')[JOB_BYTES..] == BigEndian(e', EPOCH_BYTES);
  }

  class TrainingChainStore {
    var rows: map<Key, Commit>
    ghost var commits: map<(Job, Epoch), Commit>   // the simple map the rows stand for

    ghost predicate Ok()
      reads this
    {
      Agree(rows, commits)
    }

    constructor ()
      ensures Ok() && commits == map[]
    {
      rows, commits := map[], map[];
    }

    method PutCommit(c: Commit)
      requires Ok()
      modifies this
      ensures Ok() && commits == old(commits)[(c.job, c.epoch) := c]
    {
      forall j: Job, e: Epoch ensures RowKey(c.job, c.epoch) == RowKey(j, e) <==> c.job == j && c.epoch == e {
        RowKeyOrders(c.job, c.epoch, j, e);
      }
      rows := rows[RowKey(c.job, c.epoch) := c];
      commits := commits[(c.job, c.epoch) := c];
    }

    method GetCommit(job: Job, epoch: Epoch) returns (r: Option<Commit>)
      requires Ok()
      ensures r == if (job, epoch) in commits then Some(commits[(job, epoch)]) else None
    {
      var k := RowKey(job, epoch);
      if k in rows {
        RowKeyOrders(job, epoch, rows[k].job, rows[k].epoch);
        return Some(rows[k]);
      }
      r := None;
    }

    /** The prefix scan: exactly the commits last put for the job, in ascending epoch order. */
    method CommitsForJob(job: Job) returns (out: seq<Commit>)
      requires Ok()
      ensures forall c: Commit :: c in out <==> c.job == job && Has(commits, c)
      ensures forall i, j | 0 <= i < j < |out| :: out[i].epoch < out[j].epoch
    {
      hide Below, BigEndian, Ascending;
      var keys := Iterate(rows, RowKey(job, 0));
      out := [];
      var i := 0;
      while i < |keys| && |keys[i]| >= JOB_BYTES && keys[i][..JOB_BYTES] == job
        invariant 0 <= i <= |keys| && |out| == i
        invariant forall l | 0 <= l < i :: out[l] == rows[keys[l]] && out[l].job == job
      {
        RowKeyOrders(rows[keys[i]].job, rows[keys[i]].epoch, job, 0);
        out := out + [rows[keys[i]]];
        i := i + 1;
      }
      assert i < |keys| ==> rows[keys[i]].job != job by {
        if i < |keys| {
          RowKeyOrders(rows[keys[i]].job, rows[keys[i]].epoch, job, 0);
        }
      }
      forall c: Commit | c.job == job && Has(commits, c) ensures c in out {
        ScanFinds(rows, commits, job, keys, i, c);
      }
      ScanAscends(rows, commits, job, keys, out);
    }
  }

  /** The rows hold exactly the simple map's commits, each under its own key. */
  ghost predicate Agree(rows: map<Key, Commit>, commits: map<(Job, Epoch), Commit>) {
    && (forall k | k in rows :: k == RowKey(rows[k].job, rows[k].epoch) && Has(commits, rows[k]))
    && (forall je | je in commits ::
          commits[je].job == je.0 && commits[je].epoch == je.1
          && RowKey(je.0, je.1) in rows && rows[RowKey(je.0, je.1)] == commits[je])
  }

  lemma ScanFinds(rows: map<Key, Commit>, commits: map<(Job, Epoch), Commit>, job: Job, keys: seq<Key>, i: nat,
                  c: Commit)
    requires Agree(rows, commits) && Ascending(keys) && c.job == job && Has(commits, c)
    requires forall k :: k in keys <==> k in rows && AtMost(RowKey(job, 0), k)
    requires i <= |keys| && (i < |keys| ==> rows[keys[i]].job != job)
    ensures exists l | 0 <= l < i :: keys[l] in rows && rows[keys[l]] == c
  {
    hide Below, BigEndian, RowKey;
    var k := RowKey(job, c.epoch);
    RowKeyOrders(job, c.epoch, job, 0);
    var l :| 0 <= l < |keys| && keys[l] == k;
    if i <= l {
      assert rows[keys[i]].job != job && keys[i] in rows;
      ScanIsComplete(rows[keys[i]], job, c.epoch);
      BelowIsStrictTotal(keys[i], k);
    }
  }

  lemma ScanAscends(rows: map<Key, Commit>, commits: map<(Job, Epoch), Commit>, job: Job, keys: seq<Key>,
                    out: seq<Commit>)
    requires Agree(rows, commits) && Ascending(keys) && |out| <= |keys|
    requires forall l | 0 <= l < |out| :: keys[l] in rows && out[l] == rows[keys[l]] && out[l].job == job
    ensures forall l, m | 0 <= l < m < |out| :: out[l].epoch < out[m].epoch
  {
    hide Below, BigEndian, RowKey;
    forall l, m | 0 <= l < m < |out| ensures out[l].epoch < out[m].epoch {
      RowKeyOrders(job, out[l].epoch, job, out[m].epoch);
    }
  }

  ghost predicate Has(commits: map<(Job, Epoch), Commit>, c: Commit) {
    (c.job, c.epoch) in commits && commits[(c.job, c.epoch)] == c
  }

  /** A key from the scan's start on that is outside the job's prefix lies above all of the job's keys. */
  lemma ScanIsComplete(other: Commit, job: Job, epoch: Epoch)
    requires AtMost(RowKey(job, 0), RowKey(other.job, other.epoch)) && other.job != job
    ensures Below(RowKey(job, epoch), RowKey(other.job, other.epoch))
  {
    RowKeyOrders(other.job, other.epoch, job, 0);
    RowKeyOrders(job, epoch, other.job, other.epoch);
    BelowIsStrictTotal(job, other.job);
  }
}
