/** Round-robin distribution of shards over workers, rotated by the epoch. */
module Rotation {
  import opened Common

  /** The worker index that trains shard `i` in an epoch. */
  function WorkerOf(i: nat, epoch: nat, n: nat): (w: nat)
    requires n > 0
    ensures w < n
  {
    (i + epoch) % n
  }

  /** The shards of one worker, in order. */
  function ShardsOf(shards: nat, epoch: nat, n: nat, w: nat): seq<nat>
    requires n > 0
  {
    if shards == 0 then [] else
      ShardsOf(shards - 1, epoch, n, w) + if WorkerOf(shards - 1, epoch, n) == w then [shards - 1] else []
  }

  /** Fill the lists shard by shard. */
  method Distribute(shards: nat, epoch: nat, n: nat) returns (lists: seq<seq<nat>>)
    requires n > 0
    ensures |lists| == n && forall w | 0 <= w < n :: lists[w] == ShardsOf(shards, epoch, n, w)
  {
    lists := seq(n, _ => []);
    for i := 0 to shards
      invariant |lists| == n && forall w | 0 <= w < n :: lists[w] == ShardsOf(i, epoch, n, w)
    {
      var w := (i + epoch) % n;
      lists := lists[w := lists[w] + [i]];
    }
  }

  /** Each shard is in the list of exactly one worker. */
  lemma {:induction false} ShardHasOneWorker(shards: nat, epoch: nat, n: nat, w: nat, i: nat)
    requires n > 0
    ensures i in ShardsOf(shards, epoch, n, w) <==> i < shards && WorkerOf(i, epoch, n) == w
  {
    if shards > 0 {
      ShardHasOneWorker(shards - 1, epoch, n, w, i);
    }
  }

  // ---------- Modular arithmetic ----------

  lemma Quotient(x: int, n: nat, q: int, r: int)
    requires n > 0 && x == n * q + r && 0 <= r < n
    ensures x / n == q && x % n == r
  {
    var p, s := x / n, x % n;
    assert x == n * p + s && 0 <= s < n;
    assert n * (p - q) == r - s by { Distribute3(n, p, q); }
    if p > q {
      assert n * (p - q) >= n by { AtLeast(n, p - q); }
    } else if p < q {
      assert n * (q - p) >= n by { AtLeast(n, q - p); }
    }
  }

  lemma Distribute3(n: nat, p: int, q: int)
    ensures n * (p - q) == n * p - n * q
  {
  }

  lemma AtLeast(n: nat, k: int)
    requires k >= 1
    ensures n * k >= n
  {
  }

  /** Stepping by one moves the remainder by one, or back to zero. */
  lemma Step(x: int, n: nat)
    requires n > 0
    ensures if x % n == n - 1 then (x + 1) % n == 0 && (x + 1) / n == x / n + 1
            else (x + 1) % n == x % n + 1 && (x + 1) / n == x / n
  {
    var q, r := x / n, x % n;
    assert x == n * q + r;
    if r == n - 1 {
      assert n * (q + 1) == n * q + n;
      Quotient(x + 1, n, q + 1, 0);
    } else {
      Quotient(x + 1, n, q, r + 1);
    }
  }

  // ---------- Balanced loads ----------

  function Load(shards: nat, epoch: nat, n: nat, w: nat): nat
    requires n > 0
  {
    |ShardsOf(shards, epoch, n, w)|
  }

  /** How far `w` is ahead of the worker of shard zero. */
  function Offset(epoch: nat, n: nat, w: nat): (d: nat)
    requires n > 0 && w < n
    ensures d < n
  {
    var start := epoch % n;
    if w >= start then w - start else w + n - start
  }

  /** Shard `i` falls to `w` exactly when `i` is the offset of `w` in its round. */
  lemma {:induction false} FallsTo(i: nat, epoch: nat, n: nat, w: nat)
    requires n > 0 && w < n
    ensures WorkerOf(i, epoch, n) == w <==> i % n == Offset(epoch, n, w)
    ensures WorkerOf(i, epoch, n) == if i % n + epoch % n < n then i % n + epoch % n else i % n + epoch % n - n
  {
    if i == 0 {
      Quotient(0, n, 0, 0);
    } else {
      FallsTo(i - 1, epoch, n, w);
      Step(i - 1, n);
      Step(i - 1 + epoch, n);
    }
  }

  /** A worker's load: the full rounds, and one more if the broken round reaches its offset. */
  lemma {:induction false} LoadIs(shards: nat, epoch: nat, n: nat, w: nat)
    requires n > 0 && w < n
    ensures Load(shards, epoch, n, w) == shards / n + if Offset(epoch, n, w) < shards % n then 1 else 0
  {
    if shards == 0 {
      Quotient(0, n, 0, 0);
    } else {
      LoadIs(shards - 1, epoch, n, w);
      FallsTo(shards - 1, epoch, n, w);
      Step(shards - 1, n);
    }
  }

  /** Loads differ by at most one. */
  lemma LoadsAreBalanced(shards: nat, epoch: nat, n: nat, v: nat, w: nat)
    requires n > 0 && v < n && w < n
    ensures Load(shards, epoch, n, v) <= Load(shards, epoch, n, w) + 1
  {
    LoadIs(shards, epoch, n, v);
    LoadIs(shards, epoch, n, w);
  }

  // ---------- A full rotation ----------

  /** Over the `n` epochs from `epoch` on, worker `w` trains shard `i` in exactly one: the one its offset
      names. */
  lemma FullRotation(i: nat, epoch: nat, n: nat, w: nat, j: nat)
    requires n > 0 && w < n && j < n
    ensures WorkerOf(i, epoch + j, n) == w <==> j == Offset(i + epoch, n, w)
  {
    FallsTo(j, i + epoch, n, w);
    Quotient(j, n, 0, j);
    assert i + (epoch + j) == j + (i + epoch);
  }
}
