/** The block import path of the node: the column families updated by ordered batches, proved to keep
    every index the exact image of the head's chain and to follow `ForkChoice` step by step. */
module ChainNode {
  import opened Common
  import opened BlockTree
  import opened ForkChoice
  import opened ChainDb
  import opened Rows
  import opened TicketColumn

  /** No stored branch carries a transaction twice. */
  ghost predicate TxsUnique(store: Store, genesis: Block)
    requires Tree(store, genesis)
  {
    forall h | h in store :: NoRepeat(Path(store, genesis, h))
  }

  /** The transactions of `txs` whose hash is not kept, in order. */
  function DisplacedIn(txs: seq<Tx>, keep: set<Hash>): seq<Tx> {
    if txs == [] then []
    else
      var last := txs[|txs| - 1];
      DisplacedIn(txs[..|txs| - 1], keep) + if last.hash in keep then [] else [last]
  }

  ghost function DisplacedBetween(p: seq<Block>, i: nat, j: nat, keep: set<Hash>): seq<Tx>
    requires j <= |p|
  {
    if j <= i then [] else DisplacedBetween(p, i, j - 1, keep) + DisplacedIn(p[j - 1].txs, keep)
  }

  method AppendBlock(batch: seq<Op>, b: Block, ghost db: Db) returns (batch': seq<Op>)
    ensures ApplyAll(db, batch') == BlockWritten(ApplyAll(db, batch), b)
  {
    hide ApplyAll;
    ghost var before := ApplyAll(db, batch);
    batch' := batch + [PutNumber(b)];
    ApplyOneMore(db, batch, PutNumber(b));
    ghost var prev := batch';
    batch' := batch' + [PutHashIndex(b.hash, b.number)];
    ApplyOneMore(db, prev, PutHashIndex(b.hash, b.number));
    prev := batch';
    batch' := batch' + [PutBlock(b)];
    ApplyOneMore(db, prev, PutBlock(b));
    ghost var written := ApplyAll(db, batch');
    for j := 0 to |b.txs|
      invariant ApplyAll(db, batch') ==
                written.(txs := PutAll(written.txs, TxRows(b.txs[..j])),
                         txIndex := PutAll(written.txIndex, LocationRows(b.txs[..j], b.number)))
    {
      prev := batch';
      batch' := batch' + [PutTx(b.txs[j])];
      ApplyOneMore(db, prev, PutTx(b.txs[j]));
      prev := batch';
      batch' := batch' + [PutLocation(b.txs[j].hash, (b.number, j))];
      ApplyOneMore(db, prev, PutLocation(b.txs[j].hash, (b.number, j)));
      assert TxRows(b.txs[..j + 1])[..j] == TxRows(b.txs[..j]);
      assert LocationRows(b.txs[..j + 1], b.number)[..j] == LocationRows(b.txs[..j], b.number);
    }
    assert b.txs[..|b.txs|] == b.txs;
  }

  method AppendReceiptsAndHead(batch: seq<Op>, b: Block, receipts: seq<Receipt>, root: Hash, ghost db: Db)
    returns (batch': seq<Op>)
    requires root == b.root
    ensures ApplyAll(db, batch') == ReceiptsWritten(ApplyAll(db, batch), b, receipts)
  {
    hide ApplyAll;
    batch' := batch;
    ghost var before := ApplyAll(db, batch);
    for j := 0 to |receipts|
      invariant ApplyAll(db, batch') ==
                before.(receipts := PutAll(before.receipts, ReceiptRows(receipts[..j])))
    {
      ghost var prev := batch';
      batch' := batch' + [PutReceipt(receipts[j])];
      ApplyOneMore(db, prev, PutReceipt(receipts[j]));
      assert ReceiptRows(receipts[..j + 1])[..j] == ReceiptRows(receipts[..j]);
    }
    assert receipts[..|receipts|] == receipts;
    ApplyOneMore(db, batch', PutLatest(b.number, root));
    batch' := batch' + [PutLatest(b.number, root)];
  }

  /** `Chain::is_canonical`: the number index holds this hash at this height. */
  predicate HoldsAt(db: Db, hash: Hash, number: nat) {
    number in db.byNumber && db.byNumber[number].hash == hash
  }

  /** The number index is the chain `p`. */
  ghost predicate Indexes(db: Db, p: seq<Block>) {
    && (forall i: nat :: i in db.byNumber <==> i < |p|)
    && (forall i | 0 <= i < |p| :: db.byNumber[i] == p[i])
  }

  /** Where the chain `q` leaves the indexed chain: the first `at` blocks are shared, no later one is
      canonical. */
  ghost predicate LeavesAt(db: Db, p: seq<Block>, q: seq<Block>, at: nat) {
    && 0 < at <= |p| && at <= |q| && p[at - 1] == q[at - 1]
    && forall k | at <= k < |q| :: !HoldsAt(db, q[k].hash, k)
  }

  /** `branch` is the chain `q` from block `at` on, tip first. */
  ghost predicate TipFirst(branch: seq<Block>, q: seq<Block>, at: nat) {
    |branch| == |q| - at && forall i | 0 <= i < |branch| :: branch[i] == q[|q| - 1 - i]
  }

  /** `executed` is the chain `q` from block `at` on, oldest first, each block executed on its parent to
      the root it claims. */
  ghost predicate OldestFirst(past: History, executed: seq<(Block, Outcome)>, q: seq<Block>, at: nat) {
    && 0 < at && |executed| == |q| - at
    && forall i | 0 <= i < |executed| :: ExecutedAt(past, executed[i], q, at + i)
  }

  ghost predicate ExecutedAt(past: History, e: (Block, Outcome), q: seq<Block>, k: nat)
    requires 0 < k < |q|
  {
    && e == (q[k], past.rules.execute(q[k], q[k - 1].root, past.DueIn(q[k])))
    && e.1.root == q[k].root
  }

  /** Collect the branch, tip first, down to the first canonical ancestor. Every parent is found and
      the height falls, so neither the missing-ancestor error nor an endless walk can happen. */
  method WalkToAncestor(db: Db, tip: Block, ghost genesis: Block, ghost p: seq<Block>)
    returns (branch: seq<Block>, ancestor: Block)
    requires Tree(db.byHash, genesis) && tip.hash in db.byHash && db.byHash[tip.hash] == tip
    requires p != [] && p[0] == genesis && Indexes(db, p) && StoredChain(db.byHash, p)
    ensures HoldsAt(db, ancestor.hash, ancestor.number)
    ensures var q := Path(db.byHash, genesis, tip.hash);
            && LeavesAt(db, p, q, ancestor.number + 1) && q[ancestor.number] == ancestor
            && TipFirst(branch, q, ancestor.number + 1)
  {
    ghost var q := Path(db.byHash, genesis, tip.hash);
    PathIsChain(db.byHash, genesis, tip.hash);
    hide Path, Tree;
    branch := [];
    var cursor := tip;
    while !HoldsAt(db, cursor.hash, cursor.number)
      invariant cursor.number < |q| && cursor == q[cursor.number]
      invariant |branch| == |q| - cursor.number - 1
      invariant forall i | 0 <= i < |branch| :: branch[i] == q[|q| - 1 - i]
      invariant forall k | cursor.number < k < |q| :: !HoldsAt(db, q[k].hash, k)
      decreases cursor.number
    {
      branch := branch + [cursor];
      assert 0 < cursor.number;
      assert q[cursor.number].parent == q[cursor.number - 1].hash;
      cursor := db.byHash[cursor.parent];
    }
    ancestor := cursor;
  }

  /** The replay, with what was recorded before it. */
  ghost function Joined(r: Replayed, soFar: map<Hash, Tickets>): Replayed {
    r.(matured := r.matured + soFar)
  }

  lemma ReplayOne(rules: Rules, column: Tickets, q: seq<Block>, k: nat, soFar: map<Hash, Tickets>)
    requires 0 < k < |q|
    ensures var outcome, after := ExecuteOn(rules, column, q[k], q[k - 1].root),
                                  ColumnAfter(rules, column, q[k], q[k - 1].root);
            Joined(Replay(rules, column, q, k), soFar)
            == if outcome.root != q[k].root then Replayed(false, after, soFar)
               else Joined(Replay(rules, after, q, k + 1), map[q[k].hash := DueAt(column, q[k])] + soFar)
  {
    hide ColumnAfter, ExecuteOn, DueAt;
    var after := ColumnAfter(rules, column, q[k], q[k - 1].root);
    var rest, due := Replay(rules, after, q, k + 1).matured, DueAt(column, q[k]);
    assert rest[q[k].hash := due] + soFar == rest + (map[q[k].hash := due] + soFar);
    assert map[] + soFar == soFar;
  }

  /** Re-execute the branch, oldest first, until a root does not come out as claimed. */
  method ReExecute(rules: Rules, branch: seq<Block>, ancestor: Block, column: Tickets, ghost q: seq<Block>,
                   ghost at: nat, ghost matured: map<Hash, Tickets>)
    returns (ok: bool, executed: seq<(Block, Outcome)>, column': Tickets, ghost replayed: map<Hash, Tickets>)
    requires 0 < at <= |q| && ancestor == q[at - 1] && TipFirst(branch, q, at)
    requires forall i, j | 0 <= i < j < |q| :: q[i].hash != q[j].hash
    ensures ok == Replay(rules, column, q, at).ok && column' == Replay(rules, column, q, at).column
    ensures replayed == Replay(rules, column, q, at).matured
    ensures ok ==> OldestFirst(History(rules, matured + replayed), executed, q, at)
  {
    hide Replay, ColumnAfter, ExecuteOn, DueAt, Recorded, OldestFirst;
    var parentRoot := ancestor.root;
    executed, column', ok, replayed := [], column, true, map[];
    assert Recorded(History(rules, map[]), [], q, at) by { NothingRecorded(rules, q, at); }
    var i := |branch|;
    assert Joined(Replay(rules, column, q, at), map[]) == Replay(rules, column, q, at);
    while 0 < i
      invariant 0 <= i <= |branch| && |executed| == |branch| - i
      invariant parentRoot == q[|q| - 1 - i].root
      invariant Joined(Replay(rules, column', q, at + |executed|), replayed) == Replay(rules, column, q, at)
      invariant forall l | at + |executed| <= l < |q| :: q[l].hash !in replayed
      invariant Recorded(History(rules, replayed), executed, q, at)
    {
      i := i - 1;
      var b := branch[i];
      ghost var k := at + |executed|;
      assert b == q[k];
      ReplayOne(rules, column', q, k, replayed);
      var outcome := ExecuteOn(rules, column', b, parentRoot);
      ghost var due := DueAt(column', b);
      assert outcome == rules.execute(b, parentRoot, due) by { ExecutesDue(rules, column', b, parentRoot); }
      column' := ColumnAfter(rules, column', b, parentRoot);
      if outcome.root != b.root {
        return false, [], column', replayed;
      }
      parentRoot := outcome.root;
      RecordOne(rules, replayed, executed, q, at, due, outcome);
      replayed := map[b.hash := due] + replayed;
      executed := executed + [(b, outcome)];
    }
    assert Replay(rules, column', q, |q|) == Replayed(true, column', map[]) by { ReplayNone(rules, column', q); }
    assert map[] + replayed == replayed;
    RecordedOver(rules, matured, replayed, executed, q, at);
  }

  /** The first of the blocks from `at` on, each executed as recorded. */
  ghost predicate Recorded(past: History, executed: seq<(Block, Outcome)>, q: seq<Block>, at: nat)
    requires 0 < at && at + |executed| <= |q|
  {
    forall l | 0 <= l < |executed| :: RecordedAt(past, executed, q, at, l)
  }

  ghost predicate RecordedAt(past: History, executed: seq<(Block, Outcome)>, q: seq<Block>, at: nat, l: nat)
    requires 0 < at && at + |executed| <= |q| && l < |executed|
  {
    q[at + l].hash in past.matured && ExecutedAt(past, executed[l], q, at + l)
  }

  lemma NothingRecorded(rules: Rules, q: seq<Block>, at: nat)
    requires 0 < at <= |q|
    ensures Recorded(History(rules, map[]), [], q, at)
  {
  }

  lemma RecordOne(rules: Rules, replayed: map<Hash, Tickets>, executed: seq<(Block, Outcome)>, q: seq<Block>, at: nat,
                  due: Tickets, outcome: Outcome)
    requires 0 < at && at + |executed| < |q| && Recorded(History(rules, replayed), executed, q, at)
    requires var k := at + |executed|;
             && q[k].hash !in replayed
             && outcome == rules.execute(q[k], q[k - 1].root, due) && outcome.root == q[k].root
    ensures var b := q[at + |executed|];
            Recorded(History(rules, map[b.hash := due] + replayed), executed + [(b, outcome)], q, at)
  {
    var k := at + |executed|;
    var past := History(rules, map[q[k].hash := due] + replayed);
    var more := executed + [(q[k], outcome)];
    forall l | 0 <= l < |more| ensures RecordedAt(past, more, q, at, l) {
      if l < |executed| {
        assert RecordedAt(History(rules, replayed), executed, q, at, l);
      }
    }
  }

  lemma RecordedOver(rules: Rules, matured: map<Hash, Tickets>, replayed: map<Hash, Tickets>,
                     executed: seq<(Block, Outcome)>, q: seq<Block>, at: nat)
    requires 0 < at && at + |executed| == |q| && Recorded(History(rules, replayed), executed, q, at)
    ensures OldestFirst(History(rules, matured + replayed), executed, q, at)
  {
    forall l | 0 <= l < |executed|
      ensures ExecutedAt(History(rules, matured + replayed), executed[l], q, at + l)
    {
      assert RecordedAt(History(rules, replayed), executed, q, at, l);
    }
  }

  lemma ExecutesDue(rules: Rules, column: Tickets, b: Block, root: Hash)
    ensures ExecuteOn(rules, column, b, root) == rules.execute(b, root, DueAt(column, b))
  {
  }

  lemma ReplayNone(rules: Rules, column: Tickets, q: seq<Block>)
    ensures Replay(rules, column, q, |q|) == Replayed(true, column, map[])
  {
  }

  /** The hashes of every transaction on the winning branch. */
  method BranchTxHashes(ghost past: History, executed: seq<(Block, Outcome)>, ghost q: seq<Block>, ghost at: nat)
    returns (hashes: set<Hash>)
    requires OldestFirst(past, executed, q, at)
    ensures hashes == HashesBetween(q, at, |q|)
  {
    hashes := {};
    for i := 0 to |executed|
      invariant hashes == HashesBetween(q, at, at + i)
    {
      assert ExecutedAt(past, executed[i], q, at + i);
      hashes := hashes + TxHashes(executed[i].0.txs);
    }
  }

  lemma DropOneHash(db: Db, hashes: set<Hash>, gone: set<Hash>, h: Hash)
    ensures Apply(Drop(db, hashes, gone), DeleteHashIndex(h)) == Drop(db, hashes + {h}, gone)
  {
    assert db.hashIndex - hashes - {h} == db.hashIndex - (hashes + {h});
  }

  lemma DropOneTx(db: Db, hashes: set<Hash>, gone: set<Hash>, h: Hash)
    ensures Apply(Apply(Apply(Drop(db, hashes, gone), DeleteReceipt(h)), DeleteLocation(h)), DeleteTx(h))
         == Drop(db, hashes, gone + {h})
  {
    assert db.txs - gone - {h} == db.txs - (gone + {h});
    assert db.txIndex - gone - {h} == db.txIndex - (gone + {h});
    assert db.receipts - gone - {h} == db.receipts - (gone + {h});
  }

  /** Delete the rows of one abandoned block's transactions, except those the new branch carries. */
  method DropTxs(db: Db, batch: seq<Op>, txs: seq<Tx>, keep: set<Hash>, ghost hashes: set<Hash>, ghost gone: set<Hash>)
    returns (batch': seq<Op>, displaced: seq<Tx>)
    requires ApplyAll(db, batch) == Drop(db, hashes, gone)
    ensures ApplyAll(db, batch') == Drop(db, hashes, gone + (TxHashes(txs) - keep))
    ensures displaced == DisplacedIn(txs, keep)
  {
    hide ApplyAll, Drop, Apply;
    batch', displaced := batch, [];
    assert gone + (TxHashes(txs[..0]) - keep) == gone;
    for j := 0 to |txs|
      invariant ApplyAll(db, batch') == Drop(db, hashes, gone + (TxHashes(txs[..j]) - keep))
      invariant displaced == DisplacedIn(txs[..j], keep)
    {
      var h := txs[j].hash;
      assert txs[..j + 1][..j] == txs[..j];
      assert TxHashes(txs[..j + 1]) == TxHashes(txs[..j]) + {h} by {
        assert forall l | 0 <= l < j :: txs[..j + 1][l] == txs[..j][l];
        assert txs[..j + 1][j].hash == h;
      }
      if h in keep {
        assert gone + (TxHashes(txs[..j + 1]) - keep) == gone + (TxHashes(txs[..j]) - keep);
      } else {
        DropOneTx(db, hashes, gone + (TxHashes(txs[..j]) - keep), h);
        assert gone + (TxHashes(txs[..j + 1]) - keep) == gone + (TxHashes(txs[..j]) - keep) + {h};
        ApplyOneMore(db, batch', DeleteReceipt(h));
        ApplyOneMore(db, batch' + [DeleteReceipt(h)], DeleteLocation(h));
        ApplyOneMore(db, batch' + [DeleteReceipt(h)] + [DeleteLocation(h)], DeleteTx(h));
        batch' := batch' + [DeleteReceipt(h)] + [DeleteLocation(h)] + [DeleteTx(h)];
        displaced := displaced + [txs[j]];
      }
    }
    assert txs[..|txs|] == txs;
  }

  /** Drop the abandoned blocks' index entries and phantom transaction rows, oldest first. */
  method DropAbandoned(db: Db, at: nat, oldHead: nat, keep: set<Hash>, ghost p: seq<Block>)
    returns (batch: seq<Op>, displaced: seq<Tx>)
    requires Indexes(db, p) && at <= |p| == oldHead + 1
    ensures ApplyAll(db, batch) == Drop(db, BlockHashes(p, at, |p|), HashesBetween(p, at, |p|) - keep)
    ensures displaced == DisplacedBetween(p, at, |p|, keep)
  {
    hide ApplyAll, Apply, Drop, BlockHashes, HashesBetween, DisplacedBetween, TxHashes;
    batch, displaced := [], [];
    NothingDropped(db);
    NoneAbandoned(p, at, keep);
    for number := at to oldHead + 1
      invariant ApplyAll(db, batch) ==
                Drop(db, BlockHashes(p, at, number), HashesBetween(p, at, number) - keep)
      invariant displaced == DisplacedBetween(p, at, number, keep)
    {
      var abandoned := db.byNumber[number];
      OneMoreAbandoned(p, at, number, keep);
      DropOneHash(db, BlockHashes(p, at, number), HashesBetween(p, at, number) - keep, abandoned.hash);
      ApplyOneMore(db, batch, DeleteHashIndex(abandoned.hash));
      batch := batch + [DeleteHashIndex(abandoned.hash)];
      var more;
      batch, more := DropTxs(db, batch, abandoned.txs, keep, BlockHashes(p, at, number + 1),
                             HashesBetween(p, at, number) - keep);
      displaced := displaced + more;
    }
  }

  lemma NoneAbandoned(p: seq<Block>, at: nat, keep: set<Hash>)
    requires at <= |p|
    ensures BlockHashes(p, at, at) == {} && HashesBetween(p, at, at) - keep == {}
    ensures DisplacedBetween(p, at, at, keep) == []
  {
  }

  lemma OneMoreAbandoned(p: seq<Block>, at: nat, number: nat, keep: set<Hash>)
    requires at <= number < |p|
    ensures BlockHashes(p, at, number + 1) == BlockHashes(p, at, number) + {p[number].hash}
    ensures HashesBetween(p, at, number) - keep + (TxHashes(p[number].txs) - keep)
         == HashesBetween(p, at, number + 1) - keep
    ensures DisplacedBetween(p, at, number + 1, keep)
         == DisplacedBetween(p, at, number, keep) + DisplacedIn(p[number].txs, keep)
  {
    hide TxHashes, DisplacedIn;
  }

  lemma NothingDropped(db: Db)
    ensures ApplyAll(db, []) == Drop(db, {}, {})
  {
    assert db.hashIndex - {} == db.hashIndex && db.txs - {} == db.txs;
    assert db.txIndex - {} == db.txIndex && db.receipts - {} == db.receipts;
  }

  /** Write every branch block canonically, oldest first, after the deletes already in the batch. */
  method WriteBranch(ghost past: History, batch: seq<Op>, executed: seq<(Block, Outcome)>, ghost db: Db,
                     ghost q: seq<Block>, ghost at: nat)
    returns (batch': seq<Op>)
    requires OldestFirst(past, executed, q, at)
    ensures ApplyAll(db, batch') == WriteRange(past, ApplyAll(db, batch), q, at, |q|)
  {
    hide ApplyAll, BlockWritten, ReceiptsWritten;
    batch' := batch;
    for i := 0 to |executed|
      invariant ApplyAll(db, batch') == WriteRange(past, ApplyAll(db, batch), q, at, at + i)
    {
      var (b, outcome) := executed[i];
      assert ExecutedAt(past, executed[i], q, at + i);
      assert q[at + i] == b && ReceiptsAt(past, q, at + i) == outcome.receipts;
      batch' := AppendBlock(batch', b, db);
      batch' := AppendReceiptsAndHead(batch', b, outcome.receipts, outcome.root, db);
    }
  }

  // ---------- The columns as the image of the head's chain ----------

  /** Every column is exactly the image of the head's chain; the transaction rows as long as no stored
      branch repeats a transaction. */
  ghost predicate Exact(past: History, db: Db, genesis: Block, head: Hash)
    requires Tree(db.byHash, genesis) && head in db.byHash
  {
    var p := Path(db.byHash, genesis, head);
    && NumbersExact(db, p)
    && (TxsUnique(db.byHash, genesis) ==> RowsExact(past, db, p))
  }

  /** A history that differs only on blocks of other branches. */
  lemma ExactTransfers(past: History, past': History, db: Db, genesis: Block, head: Hash)
    requires Tree(db.byHash, genesis) && head in db.byHash && Exact(past, db, genesis, head)
    requires SamePast(past, past', Path(db.byHash, genesis, head))
    ensures Exact(past', db, genesis, head)
  {
    hide NumbersExact, RowsExact, TxsUnique, Tree, SamePast;
    SamePastSameRows(past, past', db, Path(db.byHash, genesis, head));
  }

  /** Executions leave every other column alone. */
  lemma ExactIgnoresColumn(past: History, db: Db, genesis: Block, head: Hash, column: Tickets)
    requires Tree(db.byHash, genesis) && head in db.byHash && Exact(past, db, genesis, head)
    ensures Exact(past, db.(undelegations := column), genesis, head)
  {
    hide TxsUnique, Tree, Path;
  }

  lemma ChainFacts(db: Db, genesis: Block, head: Hash)
    requires Tree(db.byHash, genesis) && head in db.byHash
    requires NumbersExact(db, Path(db.byHash, genesis, head))
    ensures var p := Path(db.byHash, genesis, head);
            && StoredChain(db.byHash, p) && p[0] == genesis && Indexes(db, p)
            && (forall h :: h in db.hashIndex <==> h in BlockHashes(p, 0, |p|))
  {
    hide NumbersExact, Path, Tree;
    PathIsChain(db.byHash, genesis, head);
    NumbersExactMeans(db, Path(db.byHash, genesis, head), db.byHash);
  }

  /** A block the chain `q` shares with the canonical chain lies below where `q` leaves it. */
  lemma BranchesAreDisjoint(db: Db, genesis: Block, g: Hash, h: Hash, at: nat)
    requires Tree(db.byHash, genesis) && g in db.byHash && h in db.byHash
    requires Indexes(db, Path(db.byHash, genesis, g))
    requires LeavesAt(db, Path(db.byHash, genesis, g), Path(db.byHash, genesis, h), at)
    ensures var p, q := Path(db.byHash, genesis, g), Path(db.byHash, genesis, h);
            && p[..at] == q[..at]
            && BlockHashes(p, at, |p|) !! BlockHashes(q, at, |q|)
            && BlockHashes(p, 0, at) !! BlockHashes(p, at, |p|)
  {
    var p, q := Path(db.byHash, genesis, g), Path(db.byHash, genesis, h);
    PathIsChain(db.byHash, genesis, g);
    PathIsChain(db.byHash, genesis, h);
    PathsAgreeBelow(db.byHash, genesis, g, h, at - 1);
    hide Path, Tree;
    forall i, j | at <= i < |p| && at <= j < |q| ensures p[i].hash != q[j].hash {
      assert HoldsAt(db, p[i].hash, i) && p[i].number == i && q[j].number == j;
    }
    forall i, j | 0 <= i < at && at <= j < |p| ensures p[i].hash != p[j].hash {
      assert p[i].number == i && p[j].number == j;
    }
  }

  /** The guard of `reorg_to`: the ancestor is at or above the finalized height, or the branch carries
      the finalized block. */
  predicate Guard(branch: seq<Block>, ancestor: nat, fin: Point) {
    ancestor >= fin.height || exists b | b in branch :: b.number == fin.height && b.hash == fin.hash
  }

  /** The finality guard of `reorg_to`, on the branch it walked, decides exactly whether the new chain
      contains the finalized block. */
  lemma GuardIsExact(db: Db, p: seq<Block>, q: seq<Block>, at: nat, branch: seq<Block>, fin: Point)
    requires Indexes(db, p) && StoredChain(db.byHash, p) && StoredChain(db.byHash, q)
    requires LeavesAt(db, p, q, at) && p[..at] == q[..at] && TipFirst(branch, q, at)
    requires fin.height < |p| && p[fin.height].hash == fin.hash
    ensures Guard(branch, at - 1, fin) <==> fin.height < |q| && q[fin.height].hash == fin.hash
  {
    if fin.height < at {
      assert p[fin.height] == p[..at][fin.height] == q[..at][fin.height];
    } else {
      forall b | b in branch ensures !(b.number == fin.height && b.hash == fin.hash) {
        var i :| 0 <= i < |branch| && branch[i] == b;
        assert b == q[|q| - 1 - i];
        assert b.number == fin.height ==> !HoldsAt(db, b.hash, fin.height);
      }
      if fin.height < |q| {
        assert !HoldsAt(db, q[fin.height].hash, fin.height);
      }
    }
  }

  /** The batch of a reorganisation leaves every column the image of the new chain. */
  lemma ReorgIsExact(past: History, db: Db, genesis: Block, g: Hash, h: Hash, at: nat)
    requires Tree(db.byHash, genesis) && g in db.byHash && h in db.byHash
    requires db.byHash[h].number >= db.byHash[g].number
    requires genesis.txs == [] && ReceiptsMatch(past.rules) && Exact(past, db, genesis, g)
    requires LeavesAt(db, Path(db.byHash, genesis, g), Path(db.byHash, genesis, h), at)
    requires at < |Path(db.byHash, genesis, h)|
    ensures var p, q := Path(db.byHash, genesis, g), Path(db.byHash, genesis, h);
            var gone := HashesBetween(p, at, |p|) - HashesBetween(q, at, |q|);
            var db' := WriteRange(past, Drop(db, BlockHashes(p, at, |p|), gone), q, at, |q|);
            db'.byHash == db.byHash && Exact(past, db', genesis, h)
  {
    hide NumbersExact, RowsExact, WriteRange, HashesBetween, Indexes, StoredChain, ReceiptsMatch, NoRepeat, LeavesAt;
    var p, q := Path(db.byHash, genesis, g), Path(db.byHash, genesis, h);
    var gone := HashesBetween(p, at, |p|) - HashesBetween(q, at, |q|);
    ChainFacts(db, genesis, g);
    PathStored(db.byHash, genesis, h);
    BranchesAreDisjoint(db, genesis, g, h, at);
    LeavesLate(db, p, q, at);
    ReindexNumbers(past, db, p, q, at, gone);
    if TxsUnique(db.byHash, genesis) {
      ReindexRows(past, db, p, q, at, BlockHashes(p, at, |p|));
      NothingBelowFork(p, at);
    }
  }

  lemma NothingBelowFork(p: seq<Block>, at: nat)
    requires NoRepeat(p) && at <= |p|
    ensures HashesBetween(p, 0, at) !! HashesBetween(p, at, |p|)
  {
  }

  lemma LeavesLate(db: Db, p: seq<Block>, q: seq<Block>, at: nat)
    requires LeavesAt(db, p, q, at)
    ensures 0 < at <= |p| && at <= |q|
  {
  }

  lemma PathStored(store: Store, genesis: Block, h: Hash)
    requires Tree(store, genesis) && h in store
    ensures StoredChain(store, Path(store, genesis, h)) && Path(store, genesis, h)[0] == genesis
  {
    PathIsChain(store, genesis, h);
  }

  /** Storing a side block leaves every column the image of the unchanged chain. */
  lemma StoringIsExact(past: History, db: Db, genesis: Block, head: Hash, b: Block)
    requires Tree(db.byHash, genesis) && head in db.byHash && Exact(past, db, genesis, head)
    requires b.hash !in db.byHash && b.parent in db.byHash && b.number == db.byHash[b.parent].number + 1
    ensures var db' := db.(byHash := db.byHash[b.hash := b]);
            Tree(db'.byHash, genesis) && Exact(past, db', genesis, head)
  {
    hide NumbersExact, RowsExact, NoRepeat, Linked;
    StoreBlock(db.byHash, genesis, b);
    UniqueBefore(db.byHash, genesis, b);
    ColumnsIgnoreStore(past, db, db.byHash[b.hash := b], Path(db.byHash, genesis, head));
  }

  lemma ColumnsIgnoreStore(past: History, db: Db, store: Store, p: seq<Block>)
    ensures NumbersExact(db.(byHash := store), p) == NumbersExact(db, p)
    ensures RowsExact(past, db.(byHash := store), p) == RowsExact(past, db, p)
  {
  }

  lemma UniqueBefore(store: Store, genesis: Block, b: Block)
    requires Tree(store, genesis) && b.hash !in store && b.parent in store && b.number == store[b.parent].number + 1
    ensures Tree(store[b.hash := b], genesis)
    ensures TxsUnique(store[b.hash := b], genesis) ==> TxsUnique(store, genesis)
  {
    hide NoRepeat, Linked;
    StoreBlock(store, genesis, b);
    if TxsUnique(store[b.hash := b], genesis) {
      forall h | h in store ensures NoRepeat(Path(store, genesis, h)) {
        assert NoRepeat(Path(store[b.hash := b], genesis, h));
      }
    }
  }

  /** Committing the head's child extends the image by one block. */
  lemma ExtendingIsExact(past: History, db: Db, genesis: Block, head: Hash, b: Block)
    requires Tree(db.byHash, genesis) && head in db.byHash && Exact(past, db, genesis, head)
    requires genesis.txs == [] && ReceiptsMatch(past.rules)
    requires b.hash !in db.byHash && b.parent == head && b.number == db.byHash[head].number + 1
    ensures var db' := WriteBlock(db, b, past.rules.execute(b, db.byHash[head].root, past.DueIn(b)).receipts);
            && db'.byHash == db.byHash[b.hash := b]
            && Tree(db'.byHash, genesis) && Exact(past, db', genesis, b.hash)
  {
    hide Exact, WriteBlock, WriteRange, HashesBetween, Drop, ReceiptsMatch, Linked, LeavesAt, Indexes, StoredChain;
    var stored := db.(byHash := db.byHash[b.hash := b]);
    StoringIsExact(past, db, genesis, head, b);
    StoreBlock(db.byHash, genesis, b);
    var p := Path(db.byHash, genesis, head);
    HeadIndexed(past, stored, genesis, head);
    LeavesAtTip(stored, p, b);
    ReorgIsExact(past, stored, genesis, head, b.hash, |p|);
    OneBlockRange(past, stored, p, b);
    SameWrite(db, b, past.rules.execute(b, db.byHash[head].root, past.DueIn(b)).receipts);
  }

  lemma HeadIndexed(past: History, db: Db, genesis: Block, head: Hash)
    requires Tree(db.byHash, genesis) && head in db.byHash && Exact(past, db, genesis, head)
    ensures Indexes(db, Path(db.byHash, genesis, head))
  {
    hide NumbersExact, RowsExact;
    ChainFacts(db, genesis, head);
  }

  lemma OneBlockRange(past: History, db: Db, p: seq<Block>, b: Block)
    requires p != []
    ensures var q, n := p + [b], |p|;
            var dropped := Drop(db, BlockHashes(p, n, n), HashesBetween(p, n, n) - HashesBetween(q, n, n + 1));
            WriteRange(past, dropped, q, n, n + 1)
            == WriteBlock(db, b, past.rules.execute(b, p[n - 1].root, past.DueIn(b)).receipts)
  {
    hide WriteBlock, Drop;
    var q, n := p + [b], |p|;
    assert BlockHashes(p, n, n) == {} && HashesBetween(p, n, n) - HashesBetween(q, n, n + 1) == {};
    NothingDropped(db);
    assert WriteRange(past, db, q, n, n) == db;
  }

  lemma SameWrite(db: Db, b: Block, receipts: seq<Receipt>)
    ensures WriteBlock(db.(byHash := db.byHash[b.hash := b]), b, receipts) == WriteBlock(db, b, receipts)
    ensures WriteBlock(db, b, receipts).byHash == db.byHash[b.hash := b]
  {
  }

  lemma LeavesAtTip(db: Db, p: seq<Block>, b: Block)
    requires Indexes(db, p) && p != []
    ensures LeavesAt(db, p, p + [b], |p|)
  {
  }

  /** Nothing is lost: each transaction of the old chain is on the new one or handed back. */
  lemma {:induction false} KeptOrDisplaced(p: seq<Block>, q: seq<Block>, at: nat, end: nat, k: nat, j: nat)
    requires at <= end <= |p| && at <= |q| && p[..at] == q[..at]
    requires k < end && j < |p[k].txs|
    ensures var keep := HashesBetween(q, at, |q|);
            p[k].txs[j] in DisplacedBetween(p, at, end, keep) || p[k].txs[j].hash in HashesBetween(q, 0, |q|)
    decreases end
  {
    hide HashesBetween, DisplacedIn;
    var keep := HashesBetween(q, at, |q|);
    if k < at {
      assert p[k] == p[..at][k] == q[..at][k];
      CarriedBy(q, k, |q|, j);
    } else if k == end - 1 {
      HashesWithin(q, at, |q|);
      if p[k].txs[j].hash !in keep {
        DisplacedInHas(p[k].txs, keep, j);
      }
    } else {
      KeptOrDisplaced(p, q, at, end - 1, k, j);
    }
  }

  lemma {:induction false} DisplacedInHas(txs: seq<Tx>, keep: set<Hash>, j: nat)
    requires j < |txs| && txs[j].hash !in keep
    ensures txs[j] in DisplacedIn(txs, keep)
  {
    if j < |txs| - 1 {
      DisplacedInHas(txs[..|txs| - 1], keep, j);
    }
  }

  lemma {:induction false} CarriedBy(q: seq<Block>, k: nat, n: nat, j: nat)
    requires k < n <= |q| && j < |q[k].txs|
    ensures q[k].txs[j].hash in HashesBetween(q, 0, n)
  {
    if k < n - 1 {
      CarriedBy(q, k, n - 1, j);
    }
  }

  lemma {:induction false} HashesWithin(q: seq<Block>, at: nat, n: nat)
    ensures HashesBetween(q, at, n) <= HashesBetween(q, 0, n)
  {
    if at < n {
      HashesWithin(q, at, n - 1);
    }
  }

  // ---------- The node ----------

  class Chain {
    const rules: Rules
    const genesis: Block
    var db: Db
    var head: Block
    var fin: Point
    var engineFin: nat
    var stateRoot: Hash
    /** The undelegations that fell due in the execution each stored block's rows come from. */
    ghost var matured: map<Hash, Tickets>

    ghost function View(): Node
      reads this
    {
      Node(genesis, db.byHash, head, fin, engineFin, db.undelegations, matured)
    }

    ghost function Past(): History
      reads this
    {
      History(rules, matured)
    }

    ghost predicate Ok()
      reads this
    {
      && genesis.txs == [] && ReceiptsMatch(rules)
      && Valid(rules, View())
      && Exact(Past(), db, genesis, head.hash)
      && stateRoot == head.root
    }

    constructor (rules: Rules, genesis: Block, undelegations: Tickets)
      requires genesis.number == 0 && genesis.txs == [] && ReceiptsMatch(rules)
      ensures Ok() && View() == Start(genesis, undelegations)
      ensures this.rules == rules
    {
      this.rules, this.genesis := rules, genesis;
      var batch := AppendBlock([], genesis, EmptyDb(undelegations));
      batch := AppendReceiptsAndHead(batch, genesis, [], genesis.root, EmptyDb(undelegations));
      db := ApplyAll(EmptyDb(undelegations), batch);
      head, fin, engineFin, stateRoot := genesis, Point(0, genesis.hash), 0, genesis.root;
      matured := map[];
      GenesisIsExact(History(rules, map[]), genesis, undelegations);
      StartIsValid(rules, genesis, undelegations);
    }

    method IsCanonicalBlock(hash: Hash, number: nat) returns (r: bool)
      requires Ok()
      ensures r == IsCanonical(View(), number, hash)
    {
      r := HoldsAt(db, hash, number);
      HeadIndexed(Past(), db, genesis, head.hash);
    }

    /** Execute a block on a root: what falls due at its time leaves the column, and what it stores
        enters it, whatever becomes of the block. */
    method ExecuteBlock(b: Block, root: Hash) returns (outcome: Outcome)
      modifies this`db
      ensures outcome == ExecuteOn(rules, old(db.undelegations), b, root)
      ensures db == old(db).(undelegations := ColumnAfter(rules, old(db.undelegations), b, root))
      ensures View() == Ran(rules, old(View()), b, root)
      ensures old(Ok()) ==> Ok()
    {
      if Ok() {
        StillAdvances(rules, View(), ColumnAfter(rules, db.undelegations, b, root));
        ExactIgnoresColumn(Past(), db, genesis, head.hash, ColumnAfter(rules, db.undelegations, b, root));
      }
      hide Exact, AllAccepted, Tree, Path, FinalIsCanonical, ReceiptsMatch;
      var due := DueAt(db.undelegations, b);
      outcome := rules.execute(b, root, due);
      db := db.(undelegations := NotDue(db.undelegations, b.timestamp / 1000) + outcome.created);
    }

    /** Reorganise onto the stored branch ending at `tip`, unless that would abandon the finalized block
        or some block of the branch does not re-execute to its root. A refusal changes nothing at all; a
        failed re-execution changes nothing but the column it ran on. */
    method ReorgTo(tip: Block) returns (verdict: Verdict, displaced: seq<Tx>)
      requires Ok()
      requires tip.hash in db.byHash && db.byHash[tip.hash] == tip && Better(tip, head)
      modifies this
      ensures verdict == if !OnPath(old(View()), tip.hash) then Refused
                         else if !ReplayOnto(rules, old(View()), tip.hash).ok then Diverged else Adopted
      ensures verdict.Refused? ==> unchanged(this)
      ensures !verdict.Adopted? ==> displaced == []
      ensures var r := ReplayOnto(rules, old(View()), tip.hash);
              && (verdict.Diverged? ==>
                    && unchanged(this`head, this`fin, this`engineFin, this`stateRoot, this`matured)
                    && db == old(db).(undelegations := r.column) && Exact(Past(), db, genesis, head.hash))
              && (verdict.Adopted? ==>
                    && View() == old(View()).(head := tip, column := r.column, matured := old(matured) + r.matured)
                    && Exact(Past(), db, genesis, tip.hash) && stateRoot == tip.root
                    && TxsAccounted(old(Canonical(View())), Canonical(View()), displaced))
    {
      hide Exact, ReceiptsMatch, AllAccepted, TxsAccounted, Path, Tree, FinalIsCanonical, Replay, Fork, BranchOf;
      displaced := [];
      var branch, ancestor, retains := ChooseBranch(db, head, tip, fin, engineFin, View(), Past());
      if !retains {
        return Refused, [];
      }
      ghost var q, at := Path(db.byHash, genesis, tip.hash), ancestor.number + 1;
      BranchShape(db, genesis, head.hash, tip.hash, branch, ancestor);
      PathHashes(db.byHash, genesis, tip.hash);
      var ok, executed, column;
      ghost var replayed;
      ok, executed, column, replayed := ReExecute(rules, branch, ancestor, db.undelegations, q, at, matured);
      if !ok {
        ExactIgnoresColumn(Past(), db, genesis, head.hash, column);
        db := db.(undelegations := column);
        return Diverged, [];
      }
      ReadyToRewrite(Past(), db, genesis, head.hash, tip.hash, branch, ancestor);
      db := db.(undelegations := column);
      matured := matured + replayed;
      db, displaced := RewriteChain(db, head, tip, executed, ancestor, branch, Past(), genesis);
      head, stateRoot := tip, tip.root;
      verdict := Adopted;
    }

    /** Commit a block that was just executed as the new canonical head, in one batch. */
    method CommitCanonical(b: Block, receipts: seq<Receipt>, root: Hash, ghost before: Node)
      requires Ok() && View() == Ran(rules, before, b, head.root) && Valid(rules, before)
      requires b.hash !in db.byHash && b.parent == head.hash && Accepts(rules, head, b, DueAt(before.column, b))
      requires receipts == rules.execute(b, head.root, DueAt(before.column, b)).receipts && root == b.root
      modifies this
      ensures Ok() && View() == Moved(rules, before, b, old(head).root)
    {
      hide Exact, ReceiptsMatch, AllAccepted, FinalIsCanonical, ApplyAll, WriteBlock, Tree, ColumnAfter, DueAt, Path;
      ghost var due := DueAt(before.column, b);
      ghost var past := History(rules, matured[b.hash := due]);
      NewBlockElsewhere(Past(), db.byHash, genesis, head.hash, b.hash, due);
      ExactTransfers(Past(), past, db, genesis, head.hash);
      ExtendingIsExact(past, db, genesis, head.hash, b);
      ChildRetainsFinal(rules, before, b);
      MovedIsSafe(rules, before, b);
      var batch := AppendBlock([], b, db);
      batch := AppendReceiptsAndHead(batch, b, receipts, root, db);
      BatchWrites(db, b, receipts, batch);
      WriteKeepsColumn(db, b, receipts);
      db := ApplyAll(db, batch);
      head, stateRoot := b, root;
      matured := matured[b.hash := due];
    }

    /** Import one block. The node follows `ForkChoice` exactly, stays the image of its head's chain,
        and loses no transaction of the chain it leaves. */
    method ImportBlock(b: Block) returns (verdict: Verdict, displaced: seq<Tx>)
      requires Ok()
      modifies this
      ensures Ok() && View() == Next(rules, old(View()), Import(b))
      ensures verdict == Judge(rules, old(View()), b)
      ensures b.number < old(head).number || (b.number == old(head).number && b.hash >= old(head).hash) ==>
                head == old(head)
      ensures verdict in {AlreadyKnown, UnknownParent, Rejected} ==> unchanged(this)
      ensures verdict.Mismatched? ==> db == old(db).(undelegations := db.undelegations)
      ensures verdict in {SideBranch, Refused, Diverged} ==>
                db == old(db).(byHash := old(db.byHash)[b.hash := b], undelegations := db.undelegations)
      ensures TxsAccounted(old(Canonical(View())), Canonical(View()), displaced)
    {
      hide Exact, ReceiptsMatch, AllAccepted, FinalIsCanonical, Tree, Path, TxsAccounted, ColumnAfter, Replay, DueAt;
      hide Fork;
      displaced := [];
      ghost var n := View();
      HeadAfterImport(rules, n, b);
      AllKeptWhenStill(Canonical(n));
      IndexedIsStored(Past(), db, genesis, head.hash);
      if b.hash in db.byHash || b.hash in db.hashIndex {
        return AlreadyKnown, [];
      }
      if b.parent !in db.byHash {
        return UnknownParent, [];
      }
      var parent := db.byHash[b.parent];
      if !(b.number == parent.number + 1 && b.parent == parent.hash && rules.scheduled(b, parent)) {
        return Rejected, [];
      }
      var outcome := ExecuteBlock(b, parent.root);
      if outcome.root != b.root || outcome.gas != b.gasUsed {
        return Mismatched, [];
      }
      assert Accepts(rules, parent, b, DueAt(n.column, b));
      if b.parent == head.hash {
        StillKept(n.store, genesis, head.hash, b);
        CommitCanonical(b, outcome.receipts, outcome.root, n);
        return Extended, [];
      }
      verdict, displaced := ImportSide(b, n);
    }

    /** Store a block that was just executed and does not extend the head; if it is better, reorganise. */
    method ImportSide(b: Block, ghost n: Node) returns (verdict: Verdict, displaced: seq<Tx>)
      requires Ok() && Valid(rules, n) && b.hash !in db.byHash && b.parent in db.byHash && b.parent != head.hash
      requires View() == Ran(rules, n, b, db.byHash[b.parent].root)
      requires Accepts(rules, db.byHash[b.parent], b, DueAt(n.column, b))
      modifies this
      ensures Ok() && View() == Imported(rules, n, b)
      ensures verdict == Judge(rules, n, b)
      ensures verdict in {SideBranch, Refused, Diverged, Adopted}
      ensures !verdict.Adopted? ==>
                db == old(db).(byHash := old(db.byHash)[b.hash := b], undelegations := db.undelegations)
      ensures TxsAccounted(old(Canonical(View())), Canonical(View()), displaced)
    {
      hide Exact, ReceiptsMatch, AllAccepted, FinalIsCanonical, Tree, Path, TxsAccounted, ColumnAfter, Replay, DueAt;
      hide Fork, Reproduces, RetainsFinal, ReplayTo, ReplayOnto, OnPath;
      displaced := [];
      SameReplay(rules, n, b);
      AllKeptWhenStill(Canonical(n));
      ImportIsSafe(rules, n, b);
      StoreSide(b, n);
      verdict := SideBranch;
      if Better(b, head) {
        verdict, displaced := ReorgTo(b);
      }
    }

    /** Store a block that was just executed and does not extend the head, by hash only. */
    method StoreSide(b: Block, ghost before: Node)
      requires Ok() && Valid(rules, before) && b.hash !in db.byHash && b.parent in db.byHash && b.parent != head.hash
      requires View() == Ran(rules, before, b, db.byHash[b.parent].root)
      requires Accepts(rules, db.byHash[b.parent], b, DueAt(before.column, b))
      modifies this`db, this`matured
      ensures Ok() && View() == Kept(rules, before, b, old(db.byHash[b.parent]).root)
      ensures db == old(db).(byHash := old(db.byHash)[b.hash := b])
    {
      hide Exact, ReceiptsMatch, AllAccepted, FinalIsCanonical, Tree, ColumnAfter, DueAt, Path;
      ghost var due := DueAt(before.column, b);
      ghost var past := History(rules, matured[b.hash := due]);
      NewBlockElsewhere(Past(), db.byHash, genesis, head.hash, b.hash, due);
      ExactTransfers(Past(), past, db, genesis, head.hash);
      KeptIsSafe(rules, before, b);
      StoringIsExact(past, db, genesis, head.hash, b);
      db := db.(byHash := db.byHash[b.hash := b]);
      matured := matured[b.hash := due];
    }

    /** Store a block this node produced: it must extend the head, and is checked like an import. */
    method StoreProducedBlock(b: Block) returns (verdict: Verdict)
      requires Ok() && NoCollisions(View(), [Produce(b)])
      modifies this
      ensures Ok() && View() == Next(rules, old(View()), Produce(b))
      ensures verdict == JudgeProduced(rules, old(View()), b)
      ensures verdict in {UnknownParent, Rejected} ==> unchanged(this)
      ensures verdict.Mismatched? ==> db == old(db).(undelegations := db.undelegations)
    {
      hide Exact, ReceiptsMatch, AllAccepted, FinalIsCanonical, Tree, Path, NoCollisions, ColumnAfter, DueAt, Judge;
      hide Imported;
      ghost var n := View();
      if b.parent != head.hash {
        return UnknownParent;
      }
      if !(b.number == head.number + 1 && rules.scheduled(b, head)) {
        return Rejected;
      }
      var outcome := ExecuteBlock(b, head.root);
      if outcome.root != b.root || outcome.gas != b.gasUsed {
        return Mismatched;
      }
      ProducedIsNew(rules, n, b);
      CommitCanonical(b, outcome.receipts, outcome.root, n);
      verdict := Extended;
    }

    /** Execute a block to draft it, on the root of a stored parent. */
    method DraftBlock(b: Block) returns (outcome: Outcome)
      requires Ok() && b.parent in db.byHash
      modifies this`db
      ensures Ok() && View() == Next(rules, old(View()), Draft(b))
      ensures outcome == ExecuteOn(rules, old(db.undelegations), b, db.byHash[b.parent].root)
    {
      hide Exact, ReceiptsMatch, AllAccepted, FinalIsCanonical, Tree, Path, ColumnAfter, DueAt;
      outcome := ExecuteBlock(b, db.byHash[b.parent].root);
    }

    /** Record a finalized block, if it is canonical here. */
    method RecordFinalized(height: nat, hash: Hash)
      requires Ok()
      modifies this`fin, this`engineFin
      ensures Ok() && View() == Next(rules, old(View()), Finalize(height, hash))
    {
      hide Exact, ReceiptsMatch, AllAccepted, Tree, Path;
      FinalizeIsSafe(rules, View(), height, hash);
      var canonical := IsCanonicalBlock(hash, height);
      if canonical {
        if height > fin.height {
          fin := Point(height, hash);
        }
        engineFin := if height > engineFin then height else engineFin;
      }
    }

    /** Resolve a transaction hash to its canonical block and position. With no repeated transaction,
        this finds exactly the transactions of the canonical chain. */
    method CanonicalTxAt(hash: Hash) returns (at: Option<(Block, nat)>)
      requires Ok()
      ensures at.Some? ==>
                var (b, j) := at.value;
                b in Canonical(View()) && j < |b.txs| && b.txs[j].hash == hash
      ensures TxsUnique(db.byHash, genesis) ==>
                (at.Some? <==> hash in HashesBetween(Canonical(View()), 0, |Canonical(View())|))
    {
      hide Exact, ReceiptsMatch, AllAccepted, FinalIsCanonical, Tree, Path, TxsUnique;
      ghost var p := Canonical(View());
      HeadIndexed(Past(), db, genesis, head.hash);
      assert TxsUnique(db.byHash, genesis) ==>
               db.txIndex.Keys == HashesBetween(p, 0, |p|) && (hash in db.txIndex ==> Locates(db, p, hash)) by {
        if TxsUnique(db.byHash, genesis) {
          LocationsAreTrue(Past(), db, genesis, head.hash, hash);
        }
      }
      if hash !in db.txIndex {
        return None;
      }
      var (height, index) := db.txIndex[hash];
      if height !in db.byNumber {
        return None;
      }
      var b := db.byNumber[height];
      if index < |b.txs| && b.txs[index].hash == hash {
        assert b == p[height];
        at := Some((b, index));
      } else {
        at := None;
      }
    }
  }

  /** Does the chain ending at `h` contain the finalized block? */
  ghost predicate OnPath(n: Node, h: Hash)
    requires Tree(n.store, n.genesis) && h in n.store
  {
    var q := Path(n.store, n.genesis, h);
    n.fin.height < |q| && q[n.fin.height].hash == n.fin.hash
  }

  ghost predicate KeptTx(tx: Tx, q: seq<Block>, displaced: seq<Tx>) {
    tx in displaced || tx.hash in HashesBetween(q, 0, |q|)
  }

  /** What re-executing the stored branch ending at `h` yields. */
  ghost function ReplayOnto(rules: Rules, n: Node, h: Hash): Replayed
    requires Tree(n.store, n.genesis) && n.head.hash in n.store && h in n.store
  {
    var q := Path(n.store, n.genesis, h);
    Replay(rules, n.column, q, Fork(Canonical(n), q))
  }

  /** A block better than the head is not on the head's chain. */
  lemma BetterIsElsewhere(db: Db, genesis: Block, head: Block, tip: Block)
    requires Tree(db.byHash, genesis) && head.hash in db.byHash && db.byHash[head.hash] == head
    requires Indexes(db, Path(db.byHash, genesis, head.hash)) && Better(tip, head)
    ensures !HoldsAt(db, tip.hash, tip.number)
  {
    PathIsChain(db.byHash, genesis, head.hash);
  }

  /** Walk to the common ancestor and apply the finality guard. */
  method ChooseBranch(db: Db, head: Block, tip: Block, fin: Point, engineFin: nat, ghost n: Node, ghost past: History)
    returns (branch: seq<Block>, ancestor: Block, retains: bool)
    requires n.store == db.byHash && n.head == head && n.fin == fin && n.engineFin == engineFin
    requires Tree(n.store, n.genesis) && head.hash in n.store && n.store[head.hash] == head && FinalIsCanonical(n)
    requires Exact(past, db, n.genesis, head.hash)
    requires tip.hash in db.byHash && db.byHash[tip.hash] == tip && Better(tip, head)
    ensures retains == OnPath(n, tip.hash)
    ensures BranchOf(db, n.genesis, head.hash, tip.hash, branch, ancestor)
    ensures Fork(Canonical(n), Path(n.store, n.genesis, tip.hash)) == ancestor.number + 1
  {
    hide Exact, Tree, Path, StoredChain, TipFirst, HoldsAt, Fork, LeavesAt, Indexes;
    ghost var genesis := n.genesis;
    ghost var p, q := Path(db.byHash, genesis, head.hash), Path(db.byHash, genesis, tip.hash);
    HeadIndexed(past, db, genesis, head.hash);
    PathStored(db.byHash, genesis, head.hash);
    PathStored(db.byHash, genesis, tip.hash);
    BetterIsElsewhere(db, genesis, head, tip);
    branch, ancestor := WalkToAncestor(db, tip, genesis, p);
    BranchesAreDisjoint(db, genesis, head.hash, tip.hash, ancestor.number + 1);
    LeavesLate(db, p, q, ancestor.number + 1);
    GuardIsExact(db, p, q, ancestor.number + 1, branch, fin);
    BranchNotEmpty(db, q, branch, ancestor, tip);
    LeavesAtFork(db, p, q, ancestor.number + 1);
    var finalizedHeight := if engineFin > fin.height then engineFin else fin.height;
    retains := ancestor.number >= finalizedHeight
      || (fin.height == finalizedHeight && exists b | b in branch :: b.number == finalizedHeight && b.hash == fin.hash);
  }

  lemma LeavesAtFork(db: Db, p: seq<Block>, q: seq<Block>, at: nat)
    requires Indexes(db, p) && LeavesAt(db, p, q, at) && p[..at] == q[..at]
    ensures Fork(p, q) == at
  {
    hide Fork;
    if at < |p| && at < |q| {
      assert !HoldsAt(db, q[at].hash, at);
    }
    ForkIs(p, q, at);
  }

  /** `branch` is the part of the tip's chain above `ancestor`, tip first; `ancestor` is the last block
      that chain shares with the head's. */
  ghost predicate BranchOf(db: Db, genesis: Block, head: Hash, tip: Hash, branch: seq<Block>, ancestor: Block)
    requires Tree(db.byHash, genesis) && head in db.byHash && tip in db.byHash
  {
    var p, q, at := Path(db.byHash, genesis, head), Path(db.byHash, genesis, tip), ancestor.number + 1;
    && LeavesAt(db, p, q, at) && p[..at] == q[..at] && q[at - 1] == ancestor
    && branch != [] && TipFirst(branch, q, at)
  }

  lemma BranchNotEmpty(db: Db, q: seq<Block>, branch: seq<Block>, ancestor: Block, tip: Block)
    requires ancestor.number < |q| && q[ancestor.number] == ancestor && TipFirst(branch, q, ancestor.number + 1)
    requires q[|q| - 1] == tip && |q| == tip.number + 1 && !HoldsAt(db, tip.hash, tip.number)
    requires HoldsAt(db, ancestor.hash, ancestor.number)
    ensures branch != []
  {
  }

  /** Rewrite the canonical columns onto the re-executed branch in one batch: deletes before puts. */
  method RewriteChain(db: Db, head: Block, tip: Block, executed: seq<(Block, Outcome)>, ancestor: Block,
                      ghost branch: seq<Block>, ghost past: History, ghost genesis: Block)
    returns (db': Db, displaced: seq<Tx>)
    requires Tree(db.byHash, genesis) && genesis.txs == [] && ReceiptsMatch(past.rules)
    requires head.hash in db.byHash && db.byHash[head.hash] == head && Exact(past, db, genesis, head.hash)
    requires tip.hash in db.byHash && db.byHash[tip.hash] == tip && tip.number >= head.number
    requires BranchOf(db, genesis, head.hash, tip.hash, branch, ancestor)
    requires OldestFirst(past, executed, Path(db.byHash, genesis, tip.hash), ancestor.number + 1)
    ensures db'.byHash == db.byHash && db'.undelegations == db.undelegations && Exact(past, db', genesis, tip.hash)
    ensures TxsAccounted(Path(db.byHash, genesis, head.hash), Path(db.byHash, genesis, tip.hash), displaced)
  {
    hide Exact, ReceiptsMatch, Tree, Path, HashesBetween, WriteRange, Drop, Indexes, ApplyAll, EveryTxKept, HandsBack;
    hide LeavesAt, OldestFirst, BlockHashes, TipFirst;
    ghost var p, q := Path(db.byHash, genesis, head.hash), Path(db.byHash, genesis, tip.hash);
    ghost var at := ancestor.number + 1;
    HeadIndexed(past, db, genesis, head.hash);
    LeavesLate(db, p, q, at);
    assert at < |q| by {
      NonemptyTail(branch, q, at);
    }
    var keep := BranchTxHashes(past, executed, q, at);
    var batch;
    batch, displaced := DropAbandoned(db, ancestor.number + 1, head.number, keep, p);
    batch := WriteBranch(past, batch, executed, db, q, at);
    db' := ApplyAll(db, batch);
    ReorgIsExact(past, db, genesis, head.hash, tip.hash, at);
    WritesKeepColumn(past, Drop(db, BlockHashes(p, at, |p|), HashesBetween(p, at, |p|) - keep), q, at, |q|);
    DropKeepsColumn(db, BlockHashes(p, at, |p|), HashesBetween(p, at, |p|) - keep);
    NothingLost(p, q, at, displaced);
    LeavesAtFork(db, p, q, at);
    OnlyLostHandedBack(p, q, at, displaced);
  }

  lemma {:induction false} WritesKeepColumn(past: History, db: Db, q: seq<Block>, i: nat, j: nat)
    requires j <= |q|
    ensures WriteRange(past, db, q, i, j).undelegations == db.undelegations
    decreases j
  {
    hide PutAll, TxRows, LocationRows, ReceiptRows, ReceiptsAt;
    if i < j {
      WritesKeepColumn(past, db, q, i, j - 1);
    }
  }

  lemma DropKeepsColumn(db: Db, hashes: set<Hash>, gone: set<Hash>)
    ensures Drop(db, hashes, gone).undelegations == db.undelegations
  {
  }

  /** A block of the chain `p` is none of those above `at` on the chain `q`. */
  lemma NotAbove(p: seq<Block>, q: seq<Block>, at: nat, k: nat, l: nat)
    requires 0 < at <= |p| && at <= l < |q| && k < |p| && p[..at] == q[..at]
    requires BlockHashes(p, at, |p|) !! BlockHashes(q, at, |q|)
    requires forall i, j | 0 <= i < j < |q| :: q[i].hash != q[j].hash
    ensures p[k].hash != q[l].hash
  {
    if k < at {
      assert p[k] == p[..at][k] == q[..at][k] == q[k];
    } else {
      assert p[k].hash in BlockHashes(p, at, |p|) && q[l].hash in BlockHashes(q, at, |q|);
    }
  }

  /** What a replay records is about blocks that the chain it leaves does not have. */
  lemma ReplayIsElsewhere(past: History, db: Db, genesis: Block, g: Hash, h: Hash, branch: seq<Block>, ancestor: Block,
                          replayed: map<Hash, Tickets>)
    requires Tree(db.byHash, genesis) && g in db.byHash && h in db.byHash
    requires Indexes(db, Path(db.byHash, genesis, g)) && BranchOf(db, genesis, g, h, branch, ancestor)
    requires Replays(past.rules, Path(db.byHash, genesis, h), ancestor.number + 1, replayed)
    ensures SamePast(past, past.(matured := past.matured + replayed), Path(db.byHash, genesis, g))
  {
    hide Tree, Path, Indexes, LeavesAt, TipFirst, BlockHashes, Reproduces;
    var p, q, at := Path(db.byHash, genesis, g), Path(db.byHash, genesis, h), ancestor.number + 1;
    BranchesAreDisjoint(db, genesis, g, h, at);
    LeavesLate(db, p, q, at);
    PathHashes(db.byHash, genesis, h);
    forall k | 0 <= k < |p| ensures p[k].hash !in replayed {
      forall l | ReplaysAt(past.rules, q, at, replayed, p[k].hash, l) ensures false {
        NotAbove(p, q, at, k, l);
      }
    }
  }

  /** Before a re-executed branch is written, every column is still the image of the chain it leaves. */
  lemma ReadyToRewrite(past: History, db: Db, genesis: Block, head: Hash, tip: Hash, branch: seq<Block>,
                       ancestor: Block)
    requires Tree(db.byHash, genesis) && head in db.byHash && tip in db.byHash && Exact(past, db, genesis, head)
    requires BranchOf(db, genesis, head, tip, branch, ancestor)
    requires ancestor.number + 1 <= |Path(db.byHash, genesis, tip)|
    ensures var r := Replay(past.rules, db.undelegations, Path(db.byHash, genesis, tip), ancestor.number + 1);
            var db' := db.(undelegations := r.column);
            && Exact(past.(matured := past.matured + r.matured), db', genesis, head)
            && BranchOf(db', genesis, head, tip, branch, ancestor)
  {
    hide Exact, Tree, Path, Indexes, Replay, Replays, SamePast, BranchOf;
    var q := Path(db.byHash, genesis, tip);
    var r := Replay(past.rules, db.undelegations, q, ancestor.number + 1);
    ReplayReproduces(past.rules, db.undelegations, q, ancestor.number + 1);
    HeadIndexed(past, db, genesis, head);
    ReplayIsElsewhere(past, db, genesis, head, tip, branch, ancestor, r.matured);
    ExactTransfers(past, past.(matured := past.matured + r.matured), db, genesis, head);
    ExactIgnoresColumn(past.(matured := past.matured + r.matured), db, genesis, head, r.column);
    SameBranch(db, r.column, genesis, head, tip, branch, ancestor);
  }

  lemma PathHashes(store: Store, genesis: Block, h: Hash)
    requires Tree(store, genesis) && h in store
    ensures var q := Path(store, genesis, h); forall i, j | 0 <= i < j < |q| :: q[i].hash != q[j].hash
  {
    PathIsChain(store, genesis, h);
    var q := Path(store, genesis, h);
    hide Path, Tree;
    forall i, j | 0 <= i < j < |q| ensures q[i].hash != q[j].hash {
      assert q[i].number == i && q[j].number == j;
    }
  }

  lemma NonemptyTail(branch: seq<Block>, q: seq<Block>, at: nat)
    requires TipFirst(branch, q, at) && branch != []
    ensures at < |q|
  {
  }

  /** Each transaction of the old chain `p` is on the new chain `q` or handed back. */
  ghost predicate EveryTxKept(p: seq<Block>, q: seq<Block>, displaced: seq<Tx>) {
    forall k, j | 0 <= k < |p| && 0 <= j < |p[k].txs| :: KeptTx(p[k].txs[j], q, displaced)
  }

  lemma NothingLost(p: seq<Block>, q: seq<Block>, at: nat, displaced: seq<Tx>)
    requires at <= |p| && at <= |q| && p[..at] == q[..at]
    requires displaced == DisplacedBetween(p, at, |p|, HashesBetween(q, at, |q|))
    ensures EveryTxKept(p, q, displaced)
  {
    forall k, j | 0 <= k < |p| && 0 <= j < |p[k].txs| ensures KeptTx(p[k].txs[j], q, displaced) {
      KeptOrDisplaced(p, q, at, |p|, k, j);
    }
  }

  /** The transactions of blocks `i` to `j` of the chain, in order. */
  ghost function TxsBetween(p: seq<Block>, i: nat, j: nat): seq<Tx>
    requires j <= |p|
  {
    if j <= i then [] else TxsBetween(p, i, j - 1) + p[j - 1].txs
  }

  /** Some block of the chain from `i` on carries a transaction with this hash. */
  ghost predicate CarriedFrom(q: seq<Block>, i: nat, h: Hash) {
    exists k, j :: i <= k < |q| && 0 <= j < |q[k].txs| && q[k].txs[j].hash == h
  }

  /** Handed back is, as often as it occurs, each transaction of the old chain above the fork that the new
      chain does not carry above the fork, and nothing else. */
  ghost predicate HandsBack(p: seq<Block>, q: seq<Block>, displaced: seq<Tx>) {
    forall tx :: multiset(displaced)[tx]
              == if CarriedFrom(q, Fork(p, q), tx.hash) then 0 else multiset(TxsBetween(p, Fork(p, q), |p|))[tx]
  }

  ghost predicate TxsAccounted(p: seq<Block>, q: seq<Block>, displaced: seq<Tx>) {
    EveryTxKept(p, q, displaced) && HandsBack(p, q, displaced)
  }

  lemma {:induction false} DisplacedInCount(txs: seq<Tx>, keep: set<Hash>, tx: Tx)
    ensures multiset(DisplacedIn(txs, keep))[tx] == if tx.hash in keep then 0 else multiset(txs)[tx]
  {
    if txs != [] {
      var n := |txs| - 1;
      DisplacedInCount(txs[..n], keep, tx);
      assert txs == txs[..n] + [txs[n]];
    }
  }

  lemma {:induction false} DisplacedCount(p: seq<Block>, i: nat, j: nat, keep: set<Hash>, tx: Tx)
    requires j <= |p|
    ensures multiset(DisplacedBetween(p, i, j, keep))[tx]
         == if tx.hash in keep then 0 else multiset(TxsBetween(p, i, j))[tx]
    decreases j
  {
    hide DisplacedIn;
    if i < j {
      DisplacedCount(p, i, j - 1, keep, tx);
      DisplacedInCount(p[j - 1].txs, keep, tx);
    }
  }

  lemma {:induction false} HashesAreCarried(q: seq<Block>, i: nat, n: nat, h: Hash)
    requires n <= |q|
    ensures h in HashesBetween(q, i, n) <==> CarriedFrom(q[..n], i, h)
    decreases n
  {
    if i < n {
      HashesAreCarried(q, i, n - 1, h);
      if CarriedFrom(q[..n - 1], i, h) {
        var k, j :| i <= k < n - 1 && 0 <= j < |q[k].txs| && q[..n - 1][k].txs[j].hash == h;
        assert q[..n][k].txs[j].hash == h;
      }
      if h in TxHashes(q[n - 1].txs) {
        var j :| 0 <= j < |q[n - 1].txs| && q[n - 1].txs[j].hash == h;
        assert q[..n][n - 1].txs[j].hash == h;
      }
    }
  }

  lemma OnlyLostHandedBack(p: seq<Block>, q: seq<Block>, at: nat, displaced: seq<Tx>)
    requires at <= |p| && at == Fork(p, q)
    requires displaced == DisplacedBetween(p, at, |p|, HashesBetween(q, at, |q|))
    ensures HandsBack(p, q, displaced)
  {
    hide Fork, HashesBetween, CarriedFrom, TxsBetween, DisplacedBetween;
    assert q[..|q|] == q;
    forall tx
      ensures multiset(displaced)[tx]
           == if CarriedFrom(q, at, tx.hash) then 0 else multiset(TxsBetween(p, at, |p|))[tx]
    {
      DisplacedCount(p, at, |p|, HashesBetween(q, at, |q|), tx);
      HashesAreCarried(q, at, |q|, tx.hash);
    }
  }

  lemma {:induction false} TxsBetweenHas(p: seq<Block>, i: nat, j: nat, tx: Tx)
    requires j <= |p| && tx in TxsBetween(p, i, j)
    ensures exists k :: i <= k < j && tx in p[k].txs
    decreases j
  {
    if tx !in p[j - 1].txs {
      TxsBetweenHas(p, i, j - 1, tx);
    }
  }

  /** What is handed back was on the old chain above the fork, and its hash is nowhere above the fork on the
      new one; where the old chain repeats no transaction it is nowhere on the new one at all. */
  lemma HandedBackIsGone(p: seq<Block>, q: seq<Block>, displaced: seq<Tx>, tx: Tx)
    requires HandsBack(p, q, displaced) && tx in displaced
    ensures exists k :: Fork(p, q) <= k < |p| && tx in p[k].txs
    ensures !CarriedFrom(q, Fork(p, q), tx.hash)
    ensures NoRepeat(p) ==> !CarriedFrom(q, 0, tx.hash)
  {
    hide TxsBetween, Fork, NoRepeat;
    var at := Fork(p, q);
    assert tx in multiset(displaced);
    assert tx in TxsBetween(p, at, |p|) by { assert tx in multiset(TxsBetween(p, at, |p|)); }
    TxsBetweenHas(p, at, |p|, tx);
    if NoRepeat(p) && CarriedFrom(q, 0, tx.hash) {
      var k, j :| 0 <= k < |q| && 0 <= j < |q[k].txs| && q[k].txs[j].hash == tx.hash;
      SharedBelow(p, q);
      var l :| at <= l < |p| && tx in p[l].txs;
      RepeatedAcross(p, k, j, l, tx, at);
    }
  }

  lemma {:induction false} SharedBelow(p: seq<Block>, q: seq<Block>)
    ensures p[..Fork(p, q)] == q[..Fork(p, q)]
    ensures forall k | 0 <= k < Fork(p, q) :: p[k] == q[k]
  {
    if p != [] && q != [] && p[0] == q[0] {
      SharedBelow(p[1..], q[1..]);
      var at := Fork(p[1..], q[1..]);
      assert p[..at + 1] == [p[0]] + p[1..][..at] && q[..at + 1] == [q[0]] + q[1..][..at];
      forall k | 0 <= k < at + 1 ensures p[k] == q[k] {
        assert p[k] == p[..at + 1][k] && q[k] == q[..at + 1][k];
      }
    }
  }

  lemma RepeatedAcross(p: seq<Block>, k: nat, j: nat, l: nat, tx: Tx, at: nat)
    requires k < at <= l < |p| && j < |p[k].txs| && p[k].txs[j].hash == tx.hash && tx in p[l].txs
    ensures !NoRepeat(p)
  {
    hide HashesBetween;
    CarriedBy(p, k, at, j);
    HashesAreCarried(p, at, |p|, tx.hash);
    assert p[..|p|] == p;
    var i :| 0 <= i < |p[l].txs| && p[l].txs[i] == tx;
    assert CarriedFrom(p, at, tx.hash);
  }

  function EmptyDb(undelegations: Tickets): Db {
    Db(map[], map[], map[], map[], map[], map[], 0, 0, undelegations)
  }

  lemma GenesisIsExact(past: History, genesis: Block, undelegations: Tickets)
    requires genesis.number == 0 && genesis.txs == []
    ensures var db := WriteBlock(EmptyDb(undelegations), genesis, []);
            && db.byHash == map[genesis.hash := genesis] && db.undelegations == undelegations
            && Tree(db.byHash, genesis) && Exact(past, db, genesis, genesis.hash)
  {
    var db := WriteBlock(EmptyDb(undelegations), genesis, []);
    var p := [genesis];
    assert Path(db.byHash, genesis, genesis.hash) == p;
    assert Between(NumberColumn(p), 0, 1) == [(0, genesis)];
    PutOne<nat, Block>(map[], 0, genesis);
    assert Between(HashColumn(p), 0, 1) == [(genesis.hash, 0)];
    PutOne<Hash, nat>(map[], genesis.hash, 0);
    assert Between(TxColumn(p), 0, 1) == [];
    assert Between(LocationColumn(p), 0, 1) == [];
    assert Between(ReceiptColumn(past, p), 0, 1) == [];
  }

  lemma BatchWrites(db: Db, b: Block, receipts: seq<Receipt>, batch: seq<Op>)
    requires ApplyAll(db, batch) == ReceiptsWritten(BlockWritten(ApplyAll(db, []), b), b, receipts)
    ensures ApplyAll(db, batch) == WriteBlock(db, b, receipts)
  {
  }

  lemma AllKeptWhenStill(p: seq<Block>)
    ensures TxsAccounted(p, p, [])
  {
    ForkIs(p, p, |p|);
    forall k, j | 0 <= k < |p| && 0 <= j < |p[k].txs| ensures KeptTx(p[k].txs[j], p, []) {
      CarriedBy(p, k, |p|, j);
    }
  }

  lemma StillKept(store: Store, genesis: Block, head: Hash, b: Block)
    requires Tree(store, genesis) && head in store && b.hash !in store && b.parent == head
    requires b.number == store[head].number + 1
    ensures Tree(store[b.hash := b], genesis)
    ensures TxsAccounted(Path(store, genesis, head), Path(store[b.hash := b], genesis, b.hash), [])
  {
    var p := Path(store, genesis, head);
    StoreBlock(store, genesis, b);
    hide Path, Tree;
    var q := p + [b];
    ForkIs(p, q, |p|);
    forall k, j | 0 <= k < |p| && 0 <= j < |p[k].txs| ensures KeptTx(p[k].txs[j], q, []) {
      assert q[k] == p[k];
      CarriedBy(q, k, |q|, j);
    }
  }

  lemma IndexedIsStored(past: History, db: Db, genesis: Block, head: Hash)
    requires Tree(db.byHash, genesis) && head in db.byHash && Exact(past, db, genesis, head)
    ensures forall h | h in db.hashIndex :: h in db.byHash
  {
    hide NumbersExact, RowsExact;
    ChainFacts(db, genesis, head);
  }

  lemma LocationsAreTrue(past: History, db: Db, genesis: Block, head: Hash, hash: Hash)
    requires Tree(db.byHash, genesis) && head in db.byHash && Exact(past, db, genesis, head)
    requires genesis.txs == [] && ReceiptsMatch(past.rules) && TxsUnique(db.byHash, genesis)
    ensures var p := Path(db.byHash, genesis, head);
            && db.txIndex.Keys == HashesBetween(p, 0, |p|)
            && (hash in db.txIndex ==> Locates(db, p, hash))
  {
    hide NumbersExact, RowsExact, ReceiptsMatch, HashesBetween, Tree, Path, NoRepeat;
    var p := Path(db.byHash, genesis, head);
    PathStored(db.byHash, genesis, head);
    assert NoRepeat(p);
    RowsExactMeans(past, db, p, db.byHash);
    if hash in db.txIndex {
      var k, j := FindTx(p, |p|, hash);
      assert PositionedAt(past, db, p, k, j);
    }
  }

  ghost predicate Locates(db: Db, p: seq<Block>, hash: Hash)
    requires hash in db.txIndex
  {
    var (k, j) := db.txIndex[hash];
    k < |p| && j < |p[k].txs| && p[k].txs[j].hash == hash
  }

  lemma {:induction false} FindTx(p: seq<Block>, n: nat, hash: Hash) returns (k: nat, j: nat)
    requires n <= |p| && hash in HashesBetween(p, 0, n)
    ensures k < n && j < |p[k].txs| && p[k].txs[j].hash == hash
  {
    if hash in TxHashes(p[n - 1].txs) {
      k := n - 1;
      j :| 0 <= j < |p[k].txs| && p[k].txs[j].hash == hash;
    } else {
      k, j := FindTx(p, n - 1, hash);
    }
  }

  /** The branch leaves the chain above `ancestor`. */
  lemma BranchShape(db: Db, genesis: Block, head: Hash, tip: Hash, branch: seq<Block>, ancestor: Block)
    requires Tree(db.byHash, genesis) && head in db.byHash && tip in db.byHash
    requires BranchOf(db, genesis, head, tip, branch, ancestor)
    ensures var q, at := Path(db.byHash, genesis, tip), ancestor.number + 1;
            at <= |q| && q[at - 1] == ancestor && TipFirst(branch, q, at)
  {
  }

  lemma SameBranch(db: Db, column: Tickets, genesis: Block, head: Hash, tip: Hash, branch: seq<Block>, ancestor: Block)
    requires Tree(db.byHash, genesis) && head in db.byHash && tip in db.byHash
    ensures BranchOf(db.(undelegations := column), genesis, head, tip, branch, ancestor)
         == BranchOf(db, genesis, head, tip, branch, ancestor)
  {
    hide Path, Tree, TipFirst;
  }

  /** A block that is not stored is on no stored chain. */
  lemma NewBlockElsewhere(past: History, store: Store, genesis: Block, head: Hash, h: Hash, due: Tickets)
    requires Tree(store, genesis) && head in store && h !in store
    ensures SamePast(past, past.(matured := past.matured[h := due]), Path(store, genesis, head))
  {
    PathIsChain(store, genesis, head);
  }

  lemma WriteKeepsColumn(db: Db, b: Block, receipts: seq<Receipt>)
    ensures WriteBlock(db, b, receipts).undelegations == db.undelegations
  {
  }

  /** Re-executing a branch just stored is what fork choice foresees. */
  lemma SameReplay(rules: Rules, n: Node, b: Block)
    requires Tree(n.store, n.genesis) && n.head.hash in n.store && b.hash !in n.store && b.parent in n.store
    requires b.number == n.store[b.parent].number + 1
    ensures var kept := Kept(rules, n, b, n.store[b.parent].root);
            && Tree(kept.store, kept.genesis)
            && ReplayOnto(rules, kept, b.hash) == ReplayTo(rules, n, b)
            && OnPath(kept, b.hash) == RetainsFinal(n, b) && Canonical(kept) == Canonical(n)
  {
    hide Replay, Fork, ColumnAfter, DueAt;
    StoreBlock(n.store, n.genesis, b);
  }
}
