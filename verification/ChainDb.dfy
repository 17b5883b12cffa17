/** The node's column families, the ordered write batch, and what the columns hold when they are the
    exact image of one chain of blocks. */
module ChainDb {
  import opened Common
  import opened BlockTree
  import opened ForkChoice
  import opened Rows
  import opened TicketColumn

  /** `byNumber` stands for the header and body columns, which are always written together. No batch
      touches the undelegations: executions write them directly. */
  datatype Db = Db(
    byNumber: map<nat, Block>,
    hashIndex: map<Hash, nat>,
    byHash: Store,
    txs: map<Hash, Tx>,
    txIndex: map<Hash, (nat, nat)>,
    receipts: map<Hash, Receipt>,
    latestNumber: nat,
    latestRoot: Hash,
    undelegations: Tickets)

  datatype Op =
    | PutNumber(block: Block)
    | PutHashIndex(hash: Hash, number: nat)
    | PutBlock(block: Block)
    | PutTx(tx: Tx)
    | PutLocation(hash: Hash, location: (nat, nat))
    | PutReceipt(receipt: Receipt)
    | PutLatest(number: nat, root: Hash)
    | DeleteHashIndex(hash: Hash)
    | DeleteTx(hash: Hash)
    | DeleteLocation(hash: Hash)
    | DeleteReceipt(hash: Hash)

  function Apply(db: Db, op: Op): Db {
    match op
    case PutNumber(b) => db.(byNumber := db.byNumber[b.number := b])
    case PutHashIndex(h, n) => db.(hashIndex := db.hashIndex[h := n])
    case PutBlock(b) => db.(byHash := db.byHash[b.hash := b])
    case PutTx(tx) => db.(txs := db.txs[tx.hash := tx])
    case PutLocation(h, loc) => db.(txIndex := db.txIndex[h := loc])
    case PutReceipt(r) => db.(receipts := db.receipts[r.txHash := r])
    case PutLatest(n, root) => db.(latestNumber := n, latestRoot := root)
    case DeleteHashIndex(h) => db.(hashIndex := db.hashIndex - {h})
    case DeleteTx(h) => db.(txs := db.txs - {h})
    case DeleteLocation(h) => db.(txIndex := db.txIndex - {h})
    case DeleteReceipt(h) => db.(receipts := db.receipts - {h})
  }

  /** A batch is applied in insertion order, all at once. */
  function ApplyAll(db: Db, batch: seq<Op>): Db {
    if batch == [] then db else Apply(ApplyAll(db, batch[..|batch| - 1]), batch[|batch| - 1])
  }

  lemma ApplyOneMore(db: Db, batch: seq<Op>, op: Op)
    ensures ApplyAll(db, batch + [op]) == Apply(ApplyAll(db, batch), op)
  {
    assert (batch + [op])[..|batch|] == batch;
  }

  // ---------- Rows of one block ----------

  function TxRows(txs: seq<Tx>): seq<(Hash, Tx)> {
    seq(|txs|, j requires 0 <= j < |txs| => (txs[j].hash, txs[j]))
  }

  function LocationRows(txs: seq<Tx>, number: nat): seq<(Hash, (nat, nat))> {
    seq(|txs|, j requires 0 <= j < |txs| => (txs[j].hash, (number, j)))
  }

  function ReceiptRows(receipts: seq<Receipt>): seq<(Hash, Receipt)> {
    seq(|receipts|, j requires 0 <= j < |receipts| => (receipts[j].txHash, receipts[j]))
  }

  function TxHashes(txs: seq<Tx>): set<Hash> {
    set j | 0 <= j < |txs| :: txs[j].hash
  }

  /** The columns after the block and its transaction rows are written. */
  function BlockWritten(db: Db, b: Block): Db {
    db.(byNumber := db.byNumber[b.number := b],
        hashIndex := db.hashIndex[b.hash := b.number],
        byHash := db.byHash[b.hash := b],
        txs := PutAll(db.txs, TxRows(b.txs)),
        txIndex := PutAll(db.txIndex, LocationRows(b.txs, b.number)))
  }

  /** The columns after the receipts and the head metadata are written. */
  function ReceiptsWritten(db: Db, b: Block, receipts: seq<Receipt>): Db {
    db.(receipts := PutAll(db.receipts, ReceiptRows(receipts)), latestNumber := b.number, latestRoot := b.root)
  }

  function WriteBlock(db: Db, b: Block, receipts: seq<Receipt>): Db {
    ReceiptsWritten(BlockWritten(db, b), b, receipts)
  }

  /** The columns without the given index entries and transaction rows. */
  function Drop(db: Db, hashes: set<Hash>, gone: set<Hash>): Db {
    db.(hashIndex := db.hashIndex - hashes,
        txs := db.txs - gone, txIndex := db.txIndex - gone, receipts := db.receipts - gone)
  }

  // ---------- Rows of a chain ----------

  /** One receipt per transaction, in order, as the executor produces them. */
  ghost predicate ReceiptsMatch(rules: Rules) {
    forall b: Block, root: Hash, due: Tickets :: Match(b.txs, rules.execute(b, root, due).receipts)
  }

  predicate Match(txs: seq<Tx>, receipts: seq<Receipt>) {
    |receipts| == |txs| && forall j | 0 <= j < |txs| :: receipts[j].txHash == txs[j].hash
  }

  /** How blocks were executed: by which rules, and with which undelegations falling due. */
  datatype History = History(rules: Rules, matured: map<Hash, Tickets>)
  {
    function DueIn(b: Block): Tickets {
      if b.hash in matured then matured[b.hash] else map[]
    }
  }

  /** The receipts of the `k`-th block of a chain; genesis is stored without any. */
  ghost function ReceiptsAt(past: History, p: seq<Block>, k: nat): seq<Receipt> {
    if 0 < k < |p| then past.rules.execute(p[k], p[k - 1].root, past.DueIn(p[k])).receipts else []
  }

  /** Two histories that agree on the blocks of a chain. */
  ghost predicate SamePast(past: History, past': History, p: seq<Block>) {
    past'.rules == past.rules && forall k | 0 <= k < |p| :: past'.DueIn(p[k]) == past.DueIn(p[k])
  }

  ghost function TxColumn(p: seq<Block>): nat -> seq<(Hash, Tx)> {
    (k: nat) => if k < |p| then TxRows(p[k].txs) else []
  }

  ghost function LocationColumn(p: seq<Block>): nat -> seq<(Hash, (nat, nat))> {
    (k: nat) => if k < |p| then LocationRows(p[k].txs, p[k].number) else []
  }

  ghost function ReceiptColumn(past: History, p: seq<Block>): nat -> seq<(Hash, Receipt)> {
    (k: nat) => ReceiptRows(ReceiptsAt(past, p, k))
  }

  /** The rows of blocks `i` up to `j`, in order. */
  ghost function Between<V>(rows: nat -> seq<(Hash, V)>, i: nat, j: nat): seq<(Hash, V)>
    decreases j
  {
    if j <= i then [] else Between(rows, i, j - 1) + rows(j - 1)
  }

  lemma {:induction false} BetweenSplits<V>(rows: nat -> seq<(Hash, V)>, i: nat, j: nat, k: nat)
    requires i <= j <= k
    ensures Between(rows, i, k) == Between(rows, i, j) + Between(rows, j, k)
    decreases k
  {
    if j < k {
      BetweenSplits(rows, i, j, k - 1);
      assert Between(rows, i, j) + Between(rows, j, k - 1) + rows(k - 1)
          == Between(rows, i, j) + (Between(rows, j, k - 1) + rows(k - 1));
    }
  }

  lemma {:induction false} BetweenSame<V>(f: nat -> seq<(Hash, V)>, g: nat -> seq<(Hash, V)>, i: nat, j: nat)
    requires forall k: nat | i <= k < j :: f(k) == g(k)
    ensures Between(f, i, j) == Between(g, i, j)
    decreases j
  {
    if i < j {
      BetweenSame(f, g, i, j - 1);
    }
  }

  /** The hashes of the transactions in blocks `i` up to `j`. */
  ghost function HashesBetween(p: seq<Block>, i: nat, j: nat): set<Hash>
    decreases j
  {
    if j <= i then {} else HashesBetween(p, i, j - 1) + (if j <= |p| then TxHashes(p[j - 1].txs) else {})
  }

  /** No transaction hash occurs twice on the chain. */
  ghost predicate NoRepeat(p: seq<Block>) {
    && (forall k | 0 <= k < |p| :: NoRepeatIn(p[k].txs))
    && (forall k | 0 <= k <= |p| :: HashesBetween(p, 0, k) !! HashesBetween(p, k, |p|))
  }

  predicate NoRepeatIn(txs: seq<Tx>) {
    forall j, l | 0 <= j < l < |txs| :: txs[j].hash != txs[l].hash
  }

  /** All three columns have the chain's transaction hashes as keys. */
  lemma {:induction false} ColumnKeys<V>(rows: nat -> seq<(Hash, V)>, p: seq<Block>, i: nat, j: nat)
    requires i <= j <= |p|
    requires forall k: nat | i <= k < j :: Keys(rows(k)) == TxHashes(p[k].txs)
    ensures Keys(Between(rows, i, j)) == HashesBetween(p, i, j)
    decreases j
  {
    if i < j {
      ColumnKeys(rows, p, i, j - 1);
      KeysConcat(Between(rows, i, j - 1), rows(j - 1));
    }
  }

  lemma RowKeys(b: Block, receipts: seq<Receipt>)
    requires Match(b.txs, receipts)
    ensures Keys(TxRows(b.txs)) == TxHashes(b.txs)
    ensures Keys(LocationRows(b.txs, b.number)) == TxHashes(b.txs)
    ensures Keys(ReceiptRows(receipts)) == TxHashes(b.txs)
  {
    assert forall j | 0 <= j < |b.txs| :: TxRows(b.txs)[j].0 == b.txs[j].hash;
    assert forall j | 0 <= j < |b.txs| :: LocationRows(b.txs, b.number)[j].0 == b.txs[j].hash;
    assert forall j | 0 <= j < |b.txs| :: ReceiptRows(receipts)[j].0 == b.txs[j].hash;
  }

  /** Swapping the tail of one column for the tail of another chain that shares the first `at` blocks. */
  lemma RewriteColumn<V>(old_: nat -> seq<(Hash, V)>, new_: nat -> seq<(Hash, V)>, at: nat, oldEnd: nat, newEnd: nat,
                         m: map<Hash, V>, gone: set<Hash>)
    requires at <= oldEnd && at <= newEnd
    requires forall k: nat | k < at :: old_(k) == new_(k)
    requires m == PutAll(map[], Between(old_, 0, oldEnd))
    requires gone == Keys(Between(old_, at, oldEnd)) - Keys(Between(new_, at, newEnd))
    ensures PutAll(m - gone, Between(new_, at, newEnd)) == PutAll(map[], Between(new_, 0, newEnd))
       <==> gone !! Keys(Between(old_, 0, at))
  {
    var none: map<Hash, V> := map[];
    var shared, oldTail, newTail := Between(old_, 0, at), Between(old_, at, oldEnd), Between(new_, at, newEnd);
    BetweenSame(old_, new_, 0, at);
    BetweenSplits(old_, 0, at, oldEnd);
    BetweenSplits(new_, 0, at, newEnd);
    PutAllConcat(none, shared, oldTail);
    PutAllConcat(none, shared, newTail);
    var prefix := PutAll(none, shared);
    forall k ensures k in prefix <==> k in Keys(shared) {
      PutAllAt(none, shared, k);
    }
    ReplaceTail(prefix, oldTail, newTail);
  }

  // ---------- The image of a chain ----------

  /** One stored block per height. */
  ghost predicate StoredChain(store: Store, p: seq<Block>) {
    forall i | 0 <= i < |p| :: p[i].number == i && p[i].hash in store && store[p[i].hash] == p[i]
  }

  ghost function NumberColumn(p: seq<Block>): nat -> seq<(nat, Block)> {
    (k: nat) => if k < |p| then [(k, p[k])] else []
  }

  ghost function HashColumn(p: seq<Block>): nat -> seq<(Hash, nat)> {
    (k: nat) => if k < |p| then [(p[k].hash, k)] else []
  }

  /** One column holding exactly a chain's rows. */
  ghost function Column<V>(rows: nat -> seq<(Hash, V)>, p: seq<Block>): map<Hash, V> {
    PutAll(map[], Between(rows, 0, |p|))
  }

  /** The number index, the hash index and the head metadata are those of the chain. */
  ghost predicate NumbersExact(db: Db, p: seq<Block>) {
    && p != []
    && db.byNumber == Column(NumberColumn(p), p)
    && db.hashIndex == Column(HashColumn(p), p)
    && db.latestNumber == |p| - 1 && db.latestRoot == p[|p| - 1].root
  }

  /** The transaction rows are the chain's. */
  ghost predicate RowsExact(past: History, db: Db, p: seq<Block>) {
    && db.txs == Column(TxColumn(p), p)
    && db.txIndex == Column(LocationColumn(p), p)
    && db.receipts == Column(ReceiptColumn(past, p), p)
  }

  lemma SamePastSameRows(past: History, past': History, db: Db, p: seq<Block>)
    requires SamePast(past, past', p)
    ensures RowsExact(past, db, p) == RowsExact(past', db, p)
  {
    hide PutAll, ReceiptRows;
    forall k: nat | k < |p| ensures ReceiptColumn(past, p)(k) == ReceiptColumn(past', p)(k) {
    }
    BetweenSame(ReceiptColumn(past, p), ReceiptColumn(past', p), 0, |p|);
  }

  /** Blocks `i` up to `j` of a chain, written in order with the receipts of re-executing them. */
  ghost function WriteRange(past: History, db: Db, q: seq<Block>, i: nat, j: nat): Db
    requires j <= |q|
    decreases j
  {
    if j <= i then db
    else WriteBlock(WriteRange(past, db, q, i, j - 1), q[j - 1], ReceiptsAt(past, q, j - 1))
  }

  lemma WriteOne(past: History, db: Db, q: seq<Block>, k: nat)
    requires k < |q|
    ensures var db' := WriteBlock(db, q[k], ReceiptsAt(past, q, k));
            && db'.txs == PutAll(db.txs, TxColumn(q)(k))
            && db'.txIndex == PutAll(db.txIndex, LocationColumn(q)(k))
            && db'.receipts == PutAll(db.receipts, ReceiptColumn(past, q)(k))
  {
    hide PutAll, TxRows, LocationRows, ReceiptRows, ReceiptsAt;
  }

  lemma WriteOneBlock(past: History, db: Db, q: seq<Block>, k: nat)
    requires k < |q| && StoredChain(db.byHash, q)
    ensures var db' := WriteBlock(db, q[k], ReceiptsAt(past, q, k));
            && db'.byHash == db.byHash
            && db'.byNumber == PutAll(db.byNumber, NumberColumn(q)(k))
            && db'.hashIndex == PutAll(db.hashIndex, HashColumn(q)(k))
  {
    hide TxRows, LocationRows, ReceiptRows, ReceiptsAt;
  }

  lemma {:induction false} WriteRangeRows(past: History, db: Db, q: seq<Block>, i: nat, j: nat)
    requires i <= j <= |q|
    ensures var db' := WriteRange(past, db, q, i, j);
            && db'.txs == PutAll(db.txs, Between(TxColumn(q), i, j))
            && db'.txIndex == PutAll(db.txIndex, Between(LocationColumn(q), i, j))
            && db'.receipts == PutAll(db.receipts, Between(ReceiptColumn(past, q), i, j))
    decreases j
  {
    if i < j {
      WriteRangeStep(past, db, q, i, j);
      BetweenStep(TxColumn(q), i, j);
      BetweenStep(LocationColumn(q), i, j);
      BetweenStep(ReceiptColumn(past, q), i, j);
      hide PutAll, TxColumn, LocationColumn, ReceiptColumn, WriteBlock, Between, WriteRange, ReceiptsAt;
      WriteRangeRows(past, db, q, i, j - 1);
      WriteOne(past, WriteRange(past, db, q, i, j - 1), q, j - 1);
      PutAllConcat(db.txs, Between(TxColumn(q), i, j - 1), TxColumn(q)(j - 1));
      PutAllConcat(db.txIndex, Between(LocationColumn(q), i, j - 1), LocationColumn(q)(j - 1));
      PutAllConcat(db.receipts, Between(ReceiptColumn(past, q), i, j - 1), ReceiptColumn(past, q)(j - 1));
    }
  }

  lemma {:induction false} WriteRangeBlocks(past: History, db: Db, q: seq<Block>, i: nat, j: nat)
    requires i <= j <= |q| && StoredChain(db.byHash, q)
    ensures var db' := WriteRange(past, db, q, i, j);
            && db'.byHash == db.byHash
            && db'.byNumber == PutAll(db.byNumber, Between(NumberColumn(q), i, j))
            && db'.hashIndex == PutAll(db.hashIndex, Between(HashColumn(q), i, j))
    decreases j
  {
    if i < j {
      WriteRangeStep(past, db, q, i, j);
      BetweenStep(NumberColumn(q), i, j);
      BetweenStep(HashColumn(q), i, j);
      hide PutAll, NumberColumn, HashColumn, WriteBlock, StoredChain, Between, WriteRange, ReceiptsAt;
      WriteRangeBlocks(past, db, q, i, j - 1);
      WriteOneBlock(past, WriteRange(past, db, q, i, j - 1), q, j - 1);
      PutAllConcat(db.byNumber, Between(NumberColumn(q), i, j - 1), NumberColumn(q)(j - 1));
      PutAllConcat(db.hashIndex, Between(HashColumn(q), i, j - 1), HashColumn(q)(j - 1));
    }
  }

  lemma WriteRangeStep(past: History, db: Db, q: seq<Block>, i: nat, j: nat)
    requires i < j <= |q|
    ensures WriteRange(past, db, q, i, j)
         == WriteBlock(WriteRange(past, db, q, i, j - 1), q[j - 1], ReceiptsAt(past, q, j - 1))
  {
  }

  lemma BetweenStep<V>(rows: nat -> seq<(Hash, V)>, i: nat, j: nat)
    requires i < j
    ensures Between(rows, i, j) == Between(rows, i, j - 1) + rows(j - 1)
  {
  }

  /** The hashes of blocks `i` up to `j`. */
  ghost function BlockHashes(p: seq<Block>, i: nat, j: nat): set<Hash>
    requires j <= |p|
  {
    set k | i <= k < j :: p[k].hash
  }

  lemma {:induction false} HashColumnKeys(p: seq<Block>, i: nat, j: nat)
    requires i <= j <= |p|
    ensures Keys(Between(HashColumn(p), i, j)) == BlockHashes(p, i, j)
    decreases j
  {
    if i < j {
      HashColumnKeys(p, i, j - 1);
      KeysConcat(Between(HashColumn(p), i, j - 1), HashColumn(p)(j - 1));
      assert HashColumn(p)(j - 1)[0].0 == p[j - 1].hash;
    }
  }

  lemma {:induction false} NumberColumnKeys(p: seq<Block>, i: nat, j: nat)
    requires i <= j <= |p|
    ensures forall k: nat :: k in Keys(Between(NumberColumn(p), i, j)) <==> i <= k < j
    decreases j
  {
    if i < j {
      NumberColumnKeys(p, i, j - 1);
      KeysConcat(Between(NumberColumn(p), i, j - 1), NumberColumn(p)(j - 1));
      assert NumberColumn(p)(j - 1)[0].0 == j - 1;
    }
  }

  /** Moving the number and hash indexes from one chain to another, no shorter, that shares exactly
      the first `at` blocks: drop the abandoned index entries, then write the new blocks. */
  lemma ReindexNumbers(past: History, db: Db, p: seq<Block>, q: seq<Block>, at: nat, gone: set<Hash>)
    requires at <= |p| <= |q| && at < |q| && p[..at] == q[..at]
    requires BlockHashes(p, at, |p|) !! BlockHashes(q, at, |q|)
    requires BlockHashes(p, 0, at) !! BlockHashes(p, at, |p|)
    requires NumbersExact(db, p) && StoredChain(db.byHash, p) && StoredChain(db.byHash, q)
    ensures var db' := WriteRange(past, Drop(db, BlockHashes(p, at, |p|), gone), q, at, |q|);
            NumbersExact(db', q) && db'.byHash == db.byHash
  {
    hide PutAll, Keys, Between, WriteRange;
    var dropped := Drop(db, BlockHashes(p, at, |p|), gone);
    WriteRangeBlocks(past, dropped, q, at, |q|);
    HashIndexMoves(db.hashIndex, p, q, at);
    NumbersMove(db.byNumber, p, q, at);
    LatestIsLast(past, dropped, q, at);
  }

  lemma LatestIsLast(past: History, db: Db, q: seq<Block>, at: nat)
    requires at < |q| && q[|q| - 1].number == |q| - 1
    ensures var db' := WriteRange(past, db, q, at, |q|);
            db'.latestNumber == |q| - 1 && db'.latestRoot == q[|q| - 1].root
  {
  }

  lemma HashIndexMoves(index: map<Hash, nat>, p: seq<Block>, q: seq<Block>, at: nat)
    requires at <= |p| && at <= |q| && p[..at] == q[..at]
    requires BlockHashes(p, at, |p|) !! BlockHashes(q, at, |q|)
    requires BlockHashes(p, 0, at) !! BlockHashes(p, at, |p|)
    requires index == Column(HashColumn(p), p)
    ensures PutAll(index - BlockHashes(p, at, |p|), Between(HashColumn(q), at, |q|)) == Column(HashColumn(q), q)
  {
    hide PutAll, Keys, Between;
    assert forall k: nat | k < at :: q[k] == q[..at][k] == p[k];
    HashColumnKeys(p, 0, at);
    HashColumnKeys(p, at, |p|);
    HashColumnKeys(q, at, |q|);
    RewriteColumn(HashColumn(p), HashColumn(q), at, |p|, |q|, index, BlockHashes(p, at, |p|));
  }

  lemma NumbersMove(numbers: map<nat, Block>, p: seq<Block>, q: seq<Block>, at: nat)
    requires at <= |p| <= |q| && p[..at] == q[..at]
    requires numbers == Column(NumberColumn(p), p)
    ensures PutAll(numbers, Between(NumberColumn(q), at, |q|)) == Column(NumberColumn(q), q)
  {
    hide PutAll, Keys, Between;
    assert forall k: nat | k < at :: q[k] == q[..at][k] == p[k];
    NumberColumnKeys(p, 0, at);
    NumberColumnKeys(p, at, |p|);
    NumberColumnKeys(q, at, |q|);
    assert numbers - {} == numbers;
    RewriteColumn(NumberColumn(p), NumberColumn(q), at, |p|, |q|, numbers, {});
  }

  /** The same for the transaction rows: drop those of the abandoned blocks that the new ones do not
      carry, then write the new ones. The rows stay exact exactly when no dropped transaction also
      occurs below the fork. */
  lemma ReindexRows(past: History, db: Db, p: seq<Block>, q: seq<Block>, at: nat, hashes: set<Hash>)
    requires 0 < at <= |p| && at <= |q| && p[..at] == q[..at] && p[0].txs == [] && ReceiptsMatch(past.rules)
    requires RowsExact(past, db, p)
    ensures var gone := HashesBetween(p, at, |p|) - HashesBetween(q, at, |q|);
            (RowsExact(past, WriteRange(past, Drop(db, hashes, gone), q, at, |q|), q)
             <==> gone !! HashesBetween(p, 0, at))
  {
    hide PutAll, Keys, Between, HashesBetween, WriteRange, ReceiptsMatch;
    assert forall k: nat | k < at :: q[k] == q[..at][k] == p[k];
    var gone := HashesBetween(p, at, |p|) - HashesBetween(q, at, |q|);
    WriteRangeRows(past, Drop(db, hashes, gone), q, at, |q|);
    ColumnsOf(past, p, 0, at);
    ColumnsOf(past, p, at, |p|);
    ColumnsOf(past, q, at, |q|);
    RewriteColumn(TxColumn(p), TxColumn(q), at, |p|, |q|, db.txs, gone);
    RewriteColumn(LocationColumn(p), LocationColumn(q), at, |p|, |q|, db.txIndex, gone);
    RewriteColumn(ReceiptColumn(past, p), ReceiptColumn(past, q), at, |p|, |q|, db.receipts, gone);
  }

  /** A transaction carried below the fork and again by the abandoned block: the reorganisation deletes
      the only rows it has, although the new chain still carries it. */
  lemma RepeatedTxLosesRows(past: History, db: Db, genesis: Block, a: Block, b: Block, c: Block, t: Tx,
                            hashes: set<Hash>)
    requires genesis.txs == [] && a.txs == [t] && b.txs == [t] && c.txs == [] && ReceiptsMatch(past.rules)
    requires RowsExact(past, db, [genesis, a, b])
    ensures var p, q := [genesis, a, b], [genesis, a, c];
            var gone := HashesBetween(p, 2, 3) - HashesBetween(q, 2, 3);
            var db' := WriteRange(past, Drop(db, hashes, gone), q, 2, 3);
            && !RowsExact(past, db', q)
            && t.hash in HashesBetween(q, 0, 3) && t.hash !in db'.txIndex
  {
    hide ReceiptsMatch, RowsExact, PutAll, ReceiptsAt, ReceiptColumn;
    var p, q := [genesis, a, b], [genesis, a, c];
    assert p[..2] == q[..2];
    assert TxHashes([t]) == {t.hash} by { assert [t][0].hash == t.hash; }
    assert HashesBetween(p, 2, 2) == {} && HashesBetween(q, 2, 2) == {} && HashesBetween(p, 0, 0) == {};
    assert HashesBetween(p, 0, 1) == {} && HashesBetween(q, 0, 1) == {};
    assert HashesBetween(p, 0, 2) == {t.hash} && HashesBetween(q, 0, 2) == {t.hash};
    assert HashesBetween(p, 2, 3) == {t.hash} && HashesBetween(q, 2, 3) == {};
    var gone := HashesBetween(p, 2, 3) - HashesBetween(q, 2, 3);
    ReindexRows(past, db, p, q, 2, hashes);
    WriteRangeRows(past, Drop(db, hashes, gone), q, 2, 3);
    assert Between(LocationColumn(q), 2, 3) == [];
    PutAllAt(Drop(db, hashes, gone).txIndex, Between(LocationColumn(q), 2, 3), t.hash);
  }

  lemma ColumnsOf(past: History, p: seq<Block>, i: nat, j: nat)
    requires i <= j <= |p| && p != [] && p[0].txs == [] && ReceiptsMatch(past.rules)
    ensures Keys(Between(TxColumn(p), i, j)) == HashesBetween(p, i, j)
    ensures Keys(Between(LocationColumn(p), i, j)) == HashesBetween(p, i, j)
    ensures Keys(Between(ReceiptColumn(past, p), i, j)) == HashesBetween(p, i, j)
  {
    forall k: nat | i <= k < j
      ensures Keys(TxColumn(p)(k)) == TxHashes(p[k].txs)
      ensures Keys(LocationColumn(p)(k)) == TxHashes(p[k].txs)
      ensures Keys(ReceiptColumn(past, p)(k)) == TxHashes(p[k].txs)
    {
      if 0 < k {
        assert Match(p[k].txs, past.rules.execute(p[k], p[k - 1].root, past.DueIn(p[k])).receipts);
      }
      RowKeys(p[k], ReceiptsAt(past, p, k));
    }
    ColumnKeys(TxColumn(p), p, i, j);
    ColumnKeys(LocationColumn(p), p, i, j);
    ColumnKeys(ReceiptColumn(past, p), p, i, j);
  }

  // ---------- What the image means ----------

  lemma ColumnAt<V>(rows: nat -> seq<(Hash, V)>, n: nat, k: nat, j: nat)
    requires k < n && j < |rows(k)|
    requires forall l | j < l < |rows(k)| :: rows(k)[l].0 != rows(k)[j].0
    requires rows(k)[j].0 !in Keys(Between(rows, k + 1, n))
    ensures rows(k)[j].0 in PutAll(map[], Between(rows, 0, n))
    ensures PutAll(map[], Between(rows, 0, n))[rows(k)[j].0] == rows(k)[j].1
  {
    hide PutAll, Keys;
    var none: map<Hash, V> := map[];
    var upTo, after := Between(rows, 0, k + 1), Between(rows, k + 1, n);
    BetweenSplits(rows, 0, k + 1, n);
    PutAllConcat(none, upTo, after);
    PutAllConcat(none, Between(rows, 0, k), rows(k));
    LastPutDecides(PutAll(none, Between(rows, 0, k)), rows(k), j);
    PutAllAt(PutAll(none, upTo), after, rows(k)[j].0);
  }

  lemma ColumnDomain<V>(rows: nat -> seq<(Hash, V)>, p: seq<Block>)
    ensures Column(rows, p).Keys == Keys(Between(rows, 0, |p|))
  {
    hide PutAll, Keys, Between;
    var none: map<Hash, V> := map[];
    forall h ensures h in Column(rows, p).Keys <==> h in Keys(Between(rows, 0, |p|)) {
      PutAllAt(none, Between(rows, 0, |p|), h);
    }
  }

  /** The number index covers exactly the chain's heights, with the chain's blocks, and the hash index
      is its exact inverse. */
  lemma NumbersExactMeans(db: Db, p: seq<Block>, store: Store)
    requires NumbersExact(db, p) && StoredChain(store, p)
    ensures forall i: nat :: i in db.byNumber <==> i < |p|
    ensures forall i | 0 <= i < |p| :: db.byNumber[i] == p[i]
    ensures forall h :: h in db.hashIndex <==> h in BlockHashes(p, 0, |p|)
    ensures forall i | 0 <= i < |p| :: p[i].hash in db.hashIndex && db.hashIndex[p[i].hash] == i
  {
    hide PutAll, Keys, Between;
    ColumnDomain(NumberColumn(p), p);
    ColumnDomain(HashColumn(p), p);
    NumberColumnKeys(p, 0, |p|);
    HashColumnKeys(p, 0, |p|);
    forall i: nat | i < |p|
      ensures db.byNumber[i] == p[i] && p[i].hash in db.hashIndex && db.hashIndex[p[i].hash] == i
    {
      NumberColumnKeys(p, i + 1, |p|);
      HashColumnKeys(p, i + 1, |p|);
      ColumnAt(NumberColumn(p), |p|, i, 0);
      ColumnAt(HashColumn(p), |p|, i, 0);
    }
  }

  /** If the chain repeats no transaction, the rows are exactly its transactions at their true
      positions, with the receipts of executing their blocks. */
  lemma RowsExactMeans(past: History, db: Db, p: seq<Block>, store: Store)
    requires p != [] && p[0].txs == [] && ReceiptsMatch(past.rules) && StoredChain(store, p)
    requires RowsExact(past, db, p) && NoRepeat(p)
    ensures db.txs.Keys == db.txIndex.Keys == db.receipts.Keys == HashesBetween(p, 0, |p|)
    ensures forall k, j | 0 <= k < |p| && 0 <= j < |p[k].txs| ::
              PositionedAt(past, db, p, k, j)
  {
    hide PutAll, Keys, Between, HashesBetween, ReceiptsMatch, NoRepeat;
    ColumnDomain(TxColumn(p), p);
    ColumnDomain(LocationColumn(p), p);
    ColumnDomain(ReceiptColumn(past, p), p);
    ColumnsOf(past, p, 0, |p|);
    forall k, j | 0 <= k < |p| && 0 <= j < |p[k].txs| ensures PositionedAt(past, db, p, k, j) {
      RowAt(past, db, p, k, j);
    }
  }

  /** The rows of the `j`-th transaction of block `k`. */
  ghost predicate PositionedAt(past: History, db: Db, p: seq<Block>, k: nat, j: nat)
    requires k < |p| && j < |p[k].txs|
  {
    var h := p[k].txs[j].hash;
    && h in db.txs && db.txs[h] == p[k].txs[j]
    && h in db.txIndex && db.txIndex[h] == (p[k].number, j)
    && j < |ReceiptsAt(past, p, k)|
    && h in db.receipts && db.receipts[h] == ReceiptsAt(past, p, k)[j]
  }

  lemma RowAt(past: History, db: Db, p: seq<Block>, k: nat, j: nat)
    requires p != [] && p[0].txs == [] && ReceiptsMatch(past.rules) && RowsExact(past, db, p) && NoRepeat(p)
    requires k < |p| && j < |p[k].txs|
    ensures PositionedAt(past, db, p, k, j)
  {
    hide PutAll, Keys, Between, ReceiptsMatch;
    assert 0 < k;
    assert Match(p[k].txs, ReceiptsAt(past, p, k)) by {
      MatchAt(past, p, k);
    }
    var h := p[k].txs[j].hash;
    assert h !in HashesBetween(p, k + 1, |p|) by {
      assert h in HashesBetween(p, 0, k + 1);
    }
    ColumnsOf(past, p, k + 1, |p|);
    ColumnAt(TxColumn(p), |p|, k, j);
    ColumnAt(LocationColumn(p), |p|, k, j);
    ColumnAt(ReceiptColumn(past, p), |p|, k, j);
  }

  lemma MatchAt(past: History, p: seq<Block>, k: nat)
    requires ReceiptsMatch(past.rules) && 0 < k < |p|
    ensures Match(p[k].txs, ReceiptsAt(past, p, k))
  {
    assert Match(p[k].txs, past.rules.execute(p[k], p[k - 1].root, past.DueIn(p[k])).receipts);
  }
}
