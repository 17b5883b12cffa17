/** Fork choice, reorganisation and finality, stated on what a node decides from: the blocks it
    stores, its head, its finalized point and its column of pending undelegations. Everything else the
    node keeps (the number and hash indexes, the transaction rows) is a function of the head's path and
    of what was executed; module `ChainNode` proves that. */
module ForkChoice {
  import opened BlockTree
  import opened Common
  import opened TicketColumn

  datatype Receipt = Receipt(txHash: Hash, body: nat)

  /** What executing a block body on its parent's state yields: the state root, the receipts, the gas,
      and the undelegations it stores. */
  datatype Outcome = Outcome(root: Hash, receipts: seq<Receipt>, gas: nat, created: Tickets)

  /** The parts of validation and execution that fork choice takes as given: the schedule, VRF and
      proof checks as a predicate of block and parent, and the state transition as a function of the
      block, the parent's root and the undelegations that fall due. */
  datatype Rules = Rules(scheduled: (Block, Block) -> bool, execute: (Block, Hash, Tickets) -> Outcome)

  /** Every execution takes from the column what falls due at the block's time. */
  function DueAt(column: Tickets, b: Block): Tickets {
    Due(column, b.timestamp / 1000)
  }

  function ExecuteOn(rules: Rules, column: Tickets, b: Block, root: Hash): Outcome {
    rules.execute(b, root, DueAt(column, b))
  }

  /** What an execution leaves in the column, whatever becomes of the block. */
  function ColumnAfter(rules: Rules, column: Tickets, b: Block, root: Hash): Tickets {
    NotDue(column, b.timestamp / 1000) + ExecuteOn(rules, column, b, root).created
  }

  /** What `import_block` and `store_produced_block` check before executing. */
  predicate Checked(rules: Rules, parent: Block, b: Block) {
    && b.number == parent.number + 1
    && b.parent == parent.hash
    && rules.scheduled(b, parent)
  }

  /** Executing the block with these undelegations yields the root it claims. */
  predicate Reproduces(rules: Rules, parent: Block, b: Block, due: Tickets) {
    rules.execute(b, parent.root, due).root == b.root
  }

  /** Everything `import_block` and `store_produced_block` check of a block against its parent. */
  predicate Accepts(rules: Rules, parent: Block, b: Block, due: Tickets) {
    && Checked(rules, parent, b)
    && Reproduces(rules, parent, b, due)
    && rules.execute(b, parent.root, due).gas == b.gasUsed
  }

  datatype Point = Point(height: nat, hash: Hash)

  /** `engineFin` is the consensus engine's own finalized height, which the reorg guard also reads.
      `matured` records, for each stored block, the undelegations that fell due in the execution its
      rows come from: its import, or the last reorganisation onto it. */
  datatype Node = Node(genesis: Block, store: Store, head: Block, fin: Point, engineFin: nat, column: Tickets,
                       matured: map<Hash, Tickets>)

  /** A producer drafts a block by executing it, before sealing and storing it. */
  datatype Step =
    | Import(block: Block)
    | Produce(block: Block)
    | Draft(block: Block)
    | Finalize(height: nat, hash: Hash)

  datatype Verdict =
    | AlreadyKnown | UnknownParent | Rejected    // nothing changes
    | Mismatched                                 // executed to another root or gas: not stored
    | Extended                                   // the head's child: the new head
    | SideBranch                                 // stored, not better than the head
    | Refused                                    // stored, better, but it abandons the finalized block
    | Diverged                                   // stored, better, but its branch re-executes to another root
    | Adopted                                    // stored, and the chain reorganised onto it

  /** Fork choice: the greater number wins, and at equal numbers the lower hash. */
  predicate Better(a: Block, b: Block) {
    a.number > b.number || (a.number == b.number && a.hash < b.hash)
  }

  /** Some execution accepted the block, and the recorded one yields its root. */
  ghost predicate Accepted(rules: Rules, parent: Block, b: Block, due: Tickets) {
    Reproduces(rules, parent, b, due) && exists at :: Accepts(rules, parent, b, at)
  }

  /** Every stored block was accepted on top of its stored parent. */
  ghost predicate AllAccepted(rules: Rules, store: Store, genesis: Block, matured: map<Hash, Tickets>)
    requires Tree(store, genesis)
  {
    && matured.Keys == store.Keys - {genesis.hash}
    && forall h {:trigger Linked(store, genesis, store[h])} | h in store && h != genesis.hash ::
         Linked(store, genesis, store[h]) && Accepted(rules, store[store[h].parent], store[h], matured[h])
  }

  ghost predicate HeadIsLeaf(n: Node) {
    && n.head.hash in n.store && n.store[n.head.hash] == n.head
    && forall h | h in n.store && h != n.genesis.hash :: n.store[h].parent != n.head.hash
  }

  /** Both finalized heights agree and name a canonical block. */
  ghost predicate FinalIsCanonical(n: Node)
    requires Tree(n.store, n.genesis) && n.head.hash in n.store
  {
    n.engineFin == n.fin.height && IsCanonical(n, n.fin.height, n.fin.hash)
  }

  ghost predicate Valid(rules: Rules, n: Node) {
    && Tree(n.store, n.genesis) && AllAccepted(rules, n.store, n.genesis, n.matured) && HeadIsLeaf(n)
    && FinalIsCanonical(n)
  }

  /** The canonical chain: the head's ancestors. */
  ghost function Canonical(n: Node): (p: seq<Block>)
    requires Tree(n.store, n.genesis) && n.head.hash in n.store
  {
    Path(n.store, n.genesis, n.head.hash)
  }

  ghost predicate IsCanonical(n: Node, height: nat, hash: Hash)
    requires Tree(n.store, n.genesis) && n.head.hash in n.store
  {
    height < |Canonical(n)| && Canonical(n)[height].hash == hash
  }

  ghost function Start(genesis: Block, column: Tickets): Node
  {
    Node(genesis, map[genesis.hash := genesis], genesis, Point(0, genesis.hash), 0, column, map[])
  }

  // ---------- Re-executing a branch ----------

  datatype Replayed = Replayed(ok: bool, column: Tickets, matured: map<Hash, Tickets>)

  function ParentRoot(q: seq<Block>, i: nat): Hash {
    if 0 < i <= |q| then q[i - 1].root else 0
  }

  /** Execute the blocks of `q` from `i` on, oldest first, up to the first that misses its root. */
  ghost function Replay(rules: Rules, column: Tickets, q: seq<Block>, i: nat): Replayed
    requires i <= |q|
    decreases |q| - i
  {
    if i == |q| then Replayed(true, column, map[])
    else
      var root := ParentRoot(q, i);
      var after := ColumnAfter(rules, column, q[i], root);
      if ExecuteOn(rules, column, q[i], root).root != q[i].root then Replayed(false, after, map[])
      else
        var rest := Replay(rules, after, q, i + 1);
        rest.(matured := rest.matured[q[i].hash := DueAt(column, q[i])])
  }

  /** How many blocks two chains share. */
  ghost function Fork(p: seq<Block>, q: seq<Block>): (at: nat)
    ensures at <= |p| && at <= |q|
  {
    if p == [] || q == [] || p[0] != q[0] then 0 else 1 + Fork(p[1..], q[1..])
  }

  lemma {:induction false} ForkIs(p: seq<Block>, q: seq<Block>, at: nat)
    requires at <= |p| && at <= |q| && p[..at] == q[..at]
    requires at == |p| || at == |q| || p[at] != q[at]
    ensures Fork(p, q) == at
    decreases at
  {
    if at > 0 {
      assert p[0] == p[..at][0] && q[0] == q[..at][0];
      assert p[1..][..at - 1] == p[..at][1..] && q[1..][..at - 1] == q[..at][1..];
      ForkIs(p[1..], q[1..], at - 1);
    }
  }

  /** The chain that would end at `tip`. */
  ghost function ChainTo(n: Node, tip: Block): seq<Block>
    requires Tree(n.store, n.genesis) && tip.parent in n.store
  {
    Path(n.store, n.genesis, tip.parent) + [tip]
  }

  /** Would the chain ending at `tip` still contain the finalized block? */
  ghost predicate RetainsFinal(n: Node, tip: Block)
    requires Tree(n.store, n.genesis) && tip.parent in n.store
  {
    var p := ChainTo(n, tip);
    n.fin.height < |p| && p[n.fin.height].hash == n.fin.hash
  }

  /** A reorganisation onto `b` re-executes the whole branch, `b` included, after `b` was executed once. */
  ghost function ReplayTo(rules: Rules, n: Node, b: Block): Replayed
    requires Tree(n.store, n.genesis) && n.head.hash in n.store && b.parent in n.store
  {
    var q := ChainTo(n, b);
    Replay(rules, ColumnAfter(rules, n.column, b, n.store[b.parent].root), q, Fork(Canonical(n), q))
  }

  ghost function Judge(rules: Rules, n: Node, b: Block): Verdict
    requires Tree(n.store, n.genesis) && n.head.hash in n.store
  {
    if b.hash in n.store then AlreadyKnown
    else if b.parent !in n.store then UnknownParent
    else if !Checked(rules, n.store[b.parent], b) then Rejected
    else if !Accepts(rules, n.store[b.parent], b, DueAt(n.column, b)) then Mismatched
    else if b.parent == n.head.hash then Extended
    else if !Better(b, n.head) then SideBranch
    else if !RetainsFinal(n, b) then Refused
    else if !ReplayTo(rules, n, b).ok then Diverged
    else Adopted
  }

  /** A produced block must extend the head, and is checked like any import. */
  ghost function JudgeProduced(rules: Rules, n: Node, b: Block): Verdict {
    if b.parent != n.head.hash then UnknownParent
    else if !Checked(rules, n.head, b) then Rejected
    else if !Accepts(rules, n.head, b, DueAt(n.column, b)) then Mismatched
    else Extended
  }

  /** The node after executing `b` on the root of its parent. */
  ghost function Ran(rules: Rules, n: Node, b: Block, root: Hash): Node {
    n.(column := ColumnAfter(rules, n.column, b, root))
  }

  /** The node after executing and storing `b`. */
  ghost function Kept(rules: Rules, n: Node, b: Block, root: Hash): Node {
    Ran(rules, n, b, root).(store := n.store[b.hash := b], matured := n.matured[b.hash := DueAt(n.column, b)])
  }

  ghost function Moved(rules: Rules, n: Node, b: Block, root: Hash): Node {
    Kept(rules, n, b, root).(head := b)
  }

  ghost function Imported(rules: Rules, n: Node, b: Block): Node
    requires Tree(n.store, n.genesis) && n.head.hash in n.store
  {
    var root := if b.parent in n.store then n.store[b.parent].root else 0;
    match Judge(rules, n, b)
    case AlreadyKnown | UnknownParent | Rejected => n
    case Mismatched => Ran(rules, n, b, root)
    case Extended => Moved(rules, n, b, root)
    case SideBranch | Refused => Kept(rules, n, b, root)
    case Diverged => Kept(rules, n, b, root).(column := ReplayTo(rules, n, b).column)
    case Adopted =>
      var kept, replay := Kept(rules, n, b, root), ReplayTo(rules, n, b);
      kept.(head := b, column := replay.column, matured := kept.matured + replay.matured)
  }

  ghost function Produced(rules: Rules, n: Node, b: Block): Node {
    match JudgeProduced(rules, n, b)
    case Extended => Moved(rules, n, b, n.head.root)
    case Mismatched => Ran(rules, n, b, n.head.root)
    case _ => n
  }

  /** The hash hypothesis: no two different blocks, stored or offered, share a hash. */
  ghost predicate NoCollisions(n: Node, steps: seq<Step>) {
    forall a, b | a in Seen(n, steps) && b in Seen(n, steps) && a.hash == b.hash :: a == b
  }

  ghost function Seen(n: Node, steps: seq<Step>): set<Block> {
    n.store.Values + (set s | s in steps && (s.Import? || s.Produce?) :: s.block)
  }

  ghost function Next(rules: Rules, n: Node, step: Step): Node
    requires Valid(rules, n)
  {
    match step
    case Import(b) => Imported(rules, n, b)
    case Produce(b) => Produced(rules, n, b)
    case Draft(b) => if b.parent in n.store then Ran(rules, n, b, n.store[b.parent].root) else n
    case Finalize(height, hash) =>
      if !IsCanonical(n, height, hash) then n
      else n.(fin := if height > n.fin.height then Point(height, hash) else n.fin,
              engineFin := if height > n.engineFin then height else n.engineFin)
  }

  /** What every step keeps: the store only grows, the head only improves, finality only advances,
      and no height up to the finalized one changes. */
  ghost predicate Advances(n: Node, n': Node)
    requires Tree(n.store, n.genesis) && n.head.hash in n.store
    requires Tree(n'.store, n'.genesis) && n'.head.hash in n'.store
  {
    && n'.genesis == n.genesis
    && (forall h | h in n.store :: h in n'.store && n'.store[h] == n.store[h])
    && n'.fin.height >= n.fin.height
    && (n'.head == n.head || Better(n'.head, n.head))
    && n.fin.height < |Canonical(n)| && n.fin.height < |Canonical(n')|
    && Canonical(n')[..n.fin.height + 1] == Canonical(n)[..n.fin.height + 1]
  }

  /** Storing an accepted block. */
  lemma StoringIsSound(rules: Rules, n: Node, b: Block)
    requires Valid(rules, n) && b.hash !in n.store && b.parent in n.store
    requires Accepts(rules, n.store[b.parent], b, DueAt(n.column, b))
    ensures var n' := Kept(rules, n, b, n.store[b.parent].root);
            && Tree(n'.store, n'.genesis) && AllAccepted(rules, n'.store, n'.genesis, n'.matured)
            && Canonical(n') == Canonical(n)
  {
    hide Accepts, Accepted, ColumnAfter, DueAt, Path, FinalIsCanonical, Tree, Linked, AllAccepted;
    AcceptsMeans(rules, n.store[b.parent], b, DueAt(n.column, b));
    StoreBlock(n.store, n.genesis, b);
    StoringAccepts(rules, n.store, n.genesis, n.matured, b, DueAt(n.column, b));
  }

  lemma StoringAccepts(rules: Rules, store: Store, genesis: Block, matured: map<Hash, Tickets>, b: Block, due: Tickets)
    requires Tree(store, genesis) && AllAccepted(rules, store, genesis, matured) && b.hash !in store
    requires b.parent in store && Accepted(rules, store[b.parent], b, due)
    requires Tree(store[b.hash := b], genesis)
    ensures AllAccepted(rules, store[b.hash := b], genesis, matured[b.hash := due])
  {
    hide Accepted;
    var store' := store[b.hash := b];
    forall h | h in store' && h != genesis.hash
      ensures Linked(store', genesis, store'[h])
      ensures Accepted(rules, store'[store'[h].parent], store'[h], matured[b.hash := due][h])
    {
      assert h != b.hash ==> Linked(store, genesis, store[h]);
    }
  }

  lemma AcceptsMeans(rules: Rules, parent: Block, b: Block, due: Tickets)
    requires Accepts(rules, parent, b, due)
    ensures Accepted(rules, parent, b, due) && b.number == parent.number + 1 && b.parent == parent.hash
  {
  }

  /** Keeping the head while storing a block that is not its child. */
  lemma KeptIsSafe(rules: Rules, n: Node, b: Block)
    requires Valid(rules, n) && b.hash !in n.store && b.parent in n.store
    requires Accepts(rules, n.store[b.parent], b, DueAt(n.column, b)) && b.parent != n.head.hash
    ensures var n' := Kept(rules, n, b, n.store[b.parent].root); Valid(rules, n') && Advances(n, n')
  {
    hide AllAccepted, Accepts, ColumnAfter;
    StoringIsSound(rules, n, b);
  }

  /** Moving the head to a stored, better block that retains the finalized one. */
  lemma MovedIsSafe(rules: Rules, n: Node, b: Block)
    requires Valid(rules, n) && b.hash !in n.store && b.parent in n.store
    requires Accepts(rules, n.store[b.parent], b, DueAt(n.column, b))
    requires Better(b, n.head) && RetainsFinal(n, b)
    ensures var n' := Moved(rules, n, b, n.store[b.parent].root); Valid(rules, n') && Advances(n, n')
  {
    hide AllAccepted, ColumnAfter, Accepts, Accepted, DueAt, Tree, Path;
    AcceptsMeans(rules, n.store[b.parent], b, DueAt(n.column, b));
    StoringIsSound(rules, n, b);
    StoreBlock(n.store, n.genesis, b);
    var n' := Moved(rules, n, b, n.store[b.parent].root);
    assert Canonical(n') == ChainTo(n, b);
    NoChildYet(n, b);
    PathsAgreeBelow(n'.store, n.genesis, n.head.hash, b.hash, n.fin.height);
  }

  /** What the column holds, and which matching execution is recorded, decides nothing else. */
  lemma OtherColumn(rules: Rules, n: Node, m: Node, column: Tickets, matured: map<Hash, Tickets>)
    requires Valid(rules, n) && Tree(m.store, m.genesis) && m.head.hash in m.store && Advances(m, n)
    requires AllAccepted(rules, n.store, n.genesis, matured)
    ensures var n' := n.(column := column, matured := matured); Valid(rules, n') && Advances(m, n')
  {
    hide AllAccepted, Better;
    assert Canonical(n.(column := column, matured := matured)) == Canonical(n);
  }

  /** Every recorded execution of a replay yields the root of one of the blocks replayed. */
  ghost predicate Replays(rules: Rules, q: seq<Block>, i: nat, matured: map<Hash, Tickets>) {
    forall h | h in matured :: exists k :: ReplaysAt(rules, q, i, matured, h, k)
  }

  ghost predicate ReplaysAt(rules: Rules, q: seq<Block>, i: nat, matured: map<Hash, Tickets>, h: Hash, k: nat) {
    && i <= k < |q| && 0 < k && h in matured && q[k].hash == h
    && Reproduces(rules, q[k - 1], q[k], matured[h])
  }

  lemma {:induction false} ReplayReproduces(rules: Rules, column: Tickets, q: seq<Block>, i: nat)
    requires 0 < i <= |q|
    ensures Replays(rules, q, i, Replay(rules, column, q, i).matured)
    decreases |q| - i
  {
    hide ColumnAfter, DueAt;
    var r := Replay(rules, column, q, i);
    if i < |q| && r.matured != map[] {
      var after := ColumnAfter(rules, column, q[i], q[i - 1].root);
      var rest := Replay(rules, after, q, i + 1).matured;
      ReplayReproduces(rules, after, q, i + 1);
      forall h | h in r.matured ensures exists k :: ReplaysAt(rules, q, i, r.matured, h, k) {
        if h == q[i].hash {
          assert ReplaysAt(rules, q, i, r.matured, h, i);
        } else {
          var k :| ReplaysAt(rules, q, i + 1, rest, h, k);
          assert ReplaysAt(rules, q, i, r.matured, h, k);
        }
      }
    }
  }

  lemma ReplayedAt(rules: Rules, store: Store, genesis: Block, h: Hash, i: nat, more: map<Hash, Tickets>, g: Hash)
    requires Tree(store, genesis) && h in store && g in more && Replays(rules, Path(store, genesis, h), i, more)
    ensures g in store && g != genesis.hash && store[g].parent in store
    ensures Reproduces(rules, store[store[g].parent], store[g], more[g])
  {
    hide Reproduces, Linked;
    var q := Path(store, genesis, h);
    var k :| ReplaysAt(rules, q, i, more, g, k);
    ChainAt(store, genesis, h, k);
  }

  lemma ChainAt(store: Store, genesis: Block, h: Hash, k: nat)
    requires Tree(store, genesis) && h in store && 0 < k <= store[h].number
    ensures var q := Path(store, genesis, h);
            && q[k].hash in store && store[q[k].hash] == q[k] && q[k].hash != genesis.hash
            && q[k].parent in store && store[q[k].parent] == q[k - 1] && q[k].parent == q[k - 1].hash
  {
    var q := Path(store, genesis, h);
    PathIsChain(store, genesis, h);
    assert q[k].number == k && q[k].parent == q[k - 1].hash && q[k - 1].hash in store;
  }

  lemma ReplayedIsSound(rules: Rules, store: Store, genesis: Block, matured: map<Hash, Tickets>, h: Hash, i: nat,
                        more: map<Hash, Tickets>)
    requires Tree(store, genesis) && AllAccepted(rules, store, genesis, matured) && h in store
    requires Replays(rules, Path(store, genesis, h), i, more)
    ensures AllAccepted(rules, store, genesis, matured + more)
  {
    hide Accepts, Reproduces, Tree, Path, Replays, Linked;
    forall g | g in more
      ensures g in store && g != genesis.hash && store[g].parent in store
      ensures Reproduces(rules, store[store[g].parent], store[g], more[g])
    {
      ReplayedAt(rules, store, genesis, h, i, more, g);
    }
    forall g | g in store && g != genesis.hash
      ensures Linked(store, genesis, store[g]) && store[g].parent in store
      ensures Accepted(rules, store[store[g].parent], store[g], (matured + more)[g])
    {
      StoredIsLinked(store, genesis, g);
      assert Accepted(rules, store[store[g].parent], store[g], matured[g]);
    }
  }

  lemma StoredIsLinked(store: Store, genesis: Block, g: Hash)
    requires Tree(store, genesis) && g in store && g != genesis.hash
    ensures Linked(store, genesis, store[g]) && store[g].parent in store
  {
    assert Linked(store, genesis, store[g]);
  }

  lemma NoChildYet(n: Node, b: Block)
    requires Tree(n.store, n.genesis) && b.hash !in n.store && b.parent in n.store
    requires b.number == n.store[b.parent].number + 1
    ensures HeadIsLeaf(n.(store := n.store[b.hash := b], head := b))
  {
    var store' := n.store[b.hash := b];
    forall h | h in store' && h != n.genesis.hash ensures store'[h].parent != b.hash {
      assert h in n.store ==> Linked(n.store, n.genesis, n.store[h]);
    }
  }

  /** Two chains with the same block at a height agree on every height below it. */
  lemma PathsAgreeBelow(store: Store, genesis: Block, g: Hash, h: Hash, i: nat)
    requires Tree(store, genesis) && g in store && h in store
    requires i < |Path(store, genesis, g)| && i < |Path(store, genesis, h)|
    requires Path(store, genesis, g)[i].hash == Path(store, genesis, h)[i].hash
    ensures Path(store, genesis, g)[..i + 1] == Path(store, genesis, h)[..i + 1]
  {
    PathPrefix(store, genesis, g, i);
    PathPrefix(store, genesis, h, i);
  }

  /** A child of the head is better than it and retains whatever is finalized. */
  lemma ChildRetainsFinal(rules: Rules, n: Node, b: Block)
    requires Valid(rules, n) && b.parent == n.head.hash && b.number == n.head.number + 1
    ensures Better(b, n.head) && RetainsFinal(n, b)
  {
    assert (Canonical(n) + [b])[n.fin.height] == Canonical(n)[n.fin.height];
  }

  /** Two chains of one tree share at least genesis. */
  lemma ForkIsLate(n: Node, b: Block)
    requires Tree(n.store, n.genesis) && n.head.hash in n.store && b.parent in n.store
    ensures 0 < Fork(Canonical(n), ChainTo(n, b)) <= |ChainTo(n, b)|
  {
    PathIsChain(n.store, n.genesis, n.head.hash);
    PathIsChain(n.store, n.genesis, b.parent);
  }

  lemma AdoptedIsSafe(rules: Rules, n: Node, b: Block)
    requires Valid(rules, n) && Judge(rules, n, b).Adopted?
    ensures Valid(rules, Imported(rules, n, b)) && Advances(n, Imported(rules, n, b))
  {
    hide AllAccepted, Accepts, ColumnAfter, Replay, Fork, Replays;
    var moved := Moved(rules, n, b, n.store[b.parent].root);
    MovedIsSafe(rules, n, b);
    StoreBlock(n.store, n.genesis, b);
    var q := ChainTo(n, b);
    var replay := ReplayTo(rules, n, b);
    ForkIsLate(n, b);
    ReplayReproduces(rules, moved.column, q, Fork(Canonical(n), q));
    ReplayedIsSound(rules, moved.store, n.genesis, moved.matured, b.hash, Fork(Canonical(n), q), replay.matured);
    OtherColumn(rules, moved, n, replay.column, moved.matured + replay.matured);
  }

  lemma ImportIsSafe(rules: Rules, n: Node, b: Block)
    requires Valid(rules, n)
    ensures Valid(rules, Imported(rules, n, b)) && Advances(n, Imported(rules, n, b))
  {
    hide AllAccepted, ColumnAfter, Replay, Reproduces, ReplayTo, Tree, FinalIsCanonical, Advances;
    match Judge(rules, n, b)
    case AlreadyKnown | UnknownParent | Rejected => StillAdvances(rules, n, n.column);
    case Mismatched => StillAdvances(rules, n, Imported(rules, n, b).column);
    case Extended =>
      ChildRetainsFinal(rules, n, b);
      MovedIsSafe(rules, n, b);
    case SideBranch | Refused => KeptIsSafe(rules, n, b);
    case Diverged =>
      KeptIsSafe(rules, n, b);
      var kept := Kept(rules, n, b, n.store[b.parent].root);
      OtherColumn(rules, kept, n, ReplayTo(rules, n, b).column, kept.matured);
    case Adopted => AdoptedIsSafe(rules, n, b);
  }

  lemma StillAdvances(rules: Rules, n: Node, column: Tickets)
    requires Valid(rules, n)
    ensures Valid(rules, n.(column := column)) && Advances(n, n.(column := column))
  {
    hide AllAccepted;
    assert Canonical(n.(column := column)) == Canonical(n);
  }

  /** A block the producer path accepts is never already stored: `store_produced_block` needs no
      duplicate check because the head has no stored child. */
  lemma ProducedIsNew(rules: Rules, n: Node, b: Block)
    requires Valid(rules, n) && NoCollisions(n, [Produce(b)])
    requires JudgeProduced(rules, n, b).Extended?
    ensures Judge(rules, n, b).Extended? && Imported(rules, n, b) == Produced(rules, n, b) && b.hash !in n.store
  {
    assert b in Seen(n, [Produce(b)]) by {
      assert Produce(b) in [Produce(b)];
    }
    assert forall h | h in n.store :: n.store[h] in Seen(n, [Produce(b)]);
  }

  lemma FinalizeIsSafe(rules: Rules, n: Node, height: nat, hash: Hash)
    requires Valid(rules, n)
    ensures var n' := Next(rules, n, Finalize(height, hash)); Valid(rules, n') && Advances(n, n')
  {
    var n' := Next(rules, n, Finalize(height, hash));
    assert Canonical(n') == Canonical(n);
  }

  lemma NextIsSafe(rules: Rules, n: Node, step: Step)
    requires Valid(rules, n) && NoCollisions(n, [step])
    ensures Valid(rules, Next(rules, n, step)) && Advances(n, Next(rules, n, step))
  {
    hide AllAccepted, ColumnAfter, Accepts, Imported, Tree, FinalIsCanonical, Advances, NoCollisions, Judge;
    match step
    case Import(b) => ImportIsSafe(rules, n, b);
    case Produce(b) =>
      if JudgeProduced(rules, n, b).Extended? {
        ProducedIsNew(rules, n, b);
        ImportIsSafe(rules, n, b);
      } else {
        StillAdvances(rules, n, Produced(rules, n, b).column);
      }
    case Draft(b) => StillAdvances(rules, n, Next(rules, n, Draft(b)).column);
    case Finalize(height, hash) => FinalizeIsSafe(rules, n, height, hash);
  }

  /** A block that an import makes the head lies above the height finalized before the import. Votes are not
      bound to that: they are also cast for canonical blocks at any height when another vote arrives. */
  lemma NewHeadIsAboveFinal(rules: Rules, n: Node, b: Block)
    requires Valid(rules, n) && Judge(rules, n, b) in {Extended, Adopted}
    ensures Imported(rules, n, b).head == b && n.fin.height < b.number
  {
    hide AllAccepted, ReplayTo, ColumnAfter, DueAt, Reproduces;
    PathIsChain(n.store, n.genesis, n.head.hash);
  }

  /** Which head an import leaves, in numbers and hashes: an acceptable new block becomes the head if it is
      the head's child, or if it has a greater number, or the same number and a lower hash, and its branch
      keeps the finalized block and re-executes. In every other case the head stays. */
  lemma HeadAfterImport(rules: Rules, n: Node, b: Block)
    requires Valid(rules, n)
    ensures b.number < n.head.number ==> Imported(rules, n, b).head == n.head
    ensures b.number == n.head.number && b.hash >= n.head.hash ==> Imported(rules, n, b).head == n.head
    ensures b.hash !in n.store && b.parent in n.store && Accepts(rules, n.store[b.parent], b, DueAt(n.column, b))
            && (b.number > n.head.number || (b.number == n.head.number && b.hash < n.head.hash))
            ==> (Imported(rules, n, b).head == b
                 <==> b.parent == n.head.hash || (RetainsFinal(n, b) && ReplayTo(rules, n, b).ok))
    ensures Imported(rules, n, b).head in {n.head, b}
  {
    hide AllAccepted, ReplayTo, ColumnAfter, DueAt, Reproduces, RetainsFinal, FinalIsCanonical, Linked;
  }

  /** Which blocks an import stores: exactly those that name a stored parent one height below, pass the schedule,
      and execute on that parent's root, with what falls due, to the root and the gas they claim. */
  lemma StoredIff(rules: Rules, n: Node, b: Block)
    requires Valid(rules, n) && b.hash !in n.store
    ensures b.hash in Imported(rules, n, b).store
       <==> && b.parent in n.store
            && var parent := n.store[b.parent];
               var run := rules.execute(b, parent.root, Due(n.column, b.timestamp / 1000));
               && b.number == parent.number + 1 && rules.scheduled(b, parent)
               && run.root == b.root && run.gas == b.gasUsed
  {
    hide AllAccepted, ReplayTo, ColumnAfter, RetainsFinal, FinalIsCanonical, Linked, Better;
  }

  /** So with a produced block, whose parent must be the head. */
  lemma ProducedIff(rules: Rules, n: Node, b: Block)
    requires Valid(rules, n) && b.hash !in n.store
    ensures b.hash in Produced(rules, n, b).store
       <==> && b.parent == n.head.hash && b.number == n.head.number + 1 && rules.scheduled(b, n.head)
            && var run := rules.execute(b, n.head.root, Due(n.column, b.timestamp / 1000));
               run.root == b.root && run.gas == b.gasUsed
    ensures b.hash in Produced(rules, n, b).store <==> Produced(rules, n, b).head == b
  {
    hide AllAccepted, ColumnAfter, FinalIsCanonical, Linked;
  }

  lemma StartIsValid(rules: Rules, genesis: Block, column: Tickets)
    requires genesis.number == 0
    ensures Valid(rules, Start(genesis, column))
  {
  }

  // ---------- Whole runs ----------

  ghost function Run(rules: Rules, n: Node, steps: seq<Step>): (m: Node)
    requires Valid(rules, n) && NoCollisions(n, steps)
    ensures Valid(rules, m)
    decreases |steps|
  {
    if steps == [] then n
    else
      NextSeesLess(rules, n, steps);
      Run(rules, Next(rules, n, steps[0]), steps[1..])
  }

  lemma NextSeesLess(rules: Rules, n: Node, steps: seq<Step>)
    requires Valid(rules, n) && NoCollisions(n, steps) && steps != []
    ensures NoCollisions(n, [steps[0]])
    ensures Valid(rules, Next(rules, n, steps[0])) && Advances(n, Next(rules, n, steps[0]))
    ensures NoCollisions(Next(rules, n, steps[0]), steps[1..])
  {
    assert steps[0] in steps && Seen(n, [steps[0]]) <= Seen(n, steps);
    NextIsSafe(rules, n, steps[0]);
    StoredWasSeen(rules, n, steps[0]);
    assert Seen(Next(rules, n, steps[0]), steps[1..]) <= Seen(n, steps);
  }

  lemma StoredWasSeen(rules: Rules, n: Node, step: Step)
    requires Valid(rules, n)
    ensures Next(rules, n, step).store.Values <= Seen(n, [step])
  {
    var n' := Next(rules, n, step);
    assert step in [step];
    forall x | x in n'.store.Values ensures x in Seen(n, [step]) {
      var h :| h in n'.store && n'.store[h] == x;
      assert h in n.store && n.store[h] == x ==> x in n.store.Values;
    }
  }

  /** What one step keeps, every run keeps. */
  lemma {:induction false} RunAdvances(rules: Rules, n: Node, steps: seq<Step>)
    requires Valid(rules, n) && NoCollisions(n, steps)
    ensures Advances(n, Run(rules, n, steps))
    decreases |steps|
  {
    if steps != [] {
      NextSeesLess(rules, n, steps);
      var n' := Next(rules, n, steps[0]);
      RunAdvances(rules, n', steps[1..]);
      AdvancesTransitive(n, n', Run(rules, n', steps[1..]));
    }
  }

  lemma AdvancesTransitive(a: Node, b: Node, c: Node)
    requires Tree(a.store, a.genesis) && a.head.hash in a.store
    requires Tree(b.store, b.genesis) && b.head.hash in b.store
    requires Tree(c.store, c.genesis) && c.head.hash in c.store
    requires Advances(a, b) && Advances(b, c)
    ensures Advances(a, c)
  {
    var k := a.fin.height + 1;
    assert Canonical(c)[..k] == Canonical(c)[..b.fin.height + 1][..k];
    assert Canonical(b)[..k] == Canonical(b)[..b.fin.height + 1][..k];
  }

  lemma PinnedBelowFinal(n: Node, m: Node, height: nat, hash: Hash)
    requires Tree(n.store, n.genesis) && n.head.hash in n.store
    requires Tree(m.store, m.genesis) && m.head.hash in m.store
    requires Advances(n, m) && height <= n.fin.height && IsCanonical(n, height, hash)
    ensures IsCanonical(m, height, hash)
  {
    assert Canonical(m)[height] == Canonical(m)[..n.fin.height + 1][height];
    assert Canonical(n)[height] == Canonical(n)[..n.fin.height + 1][height];
  }

  /** Finality safety: once `record_finalized` accepts a block as canonical, that block is canonical
      at its height after every later run of imports, reorganisations, productions and finalizations. */
  lemma FinalityIsPermanent(rules: Rules, n: Node, height: nat, hash: Hash, later: seq<Step>)
    requires Valid(rules, n) && IsCanonical(n, height, hash)
    requires NoCollisions(Next(rules, n, Finalize(height, hash)), later)
    ensures Valid(rules, Next(rules, n, Finalize(height, hash)))
    ensures IsCanonical(Run(rules, Next(rules, n, Finalize(height, hash)), later), height, hash)
  {
    FinalizeIsSafe(rules, n, height, hash);
    var n' := Next(rules, n, Finalize(height, hash));
    RunAdvances(rules, n', later);
    assert Canonical(n') == Canonical(n);
    PinnedBelowFinal(n', Run(rules, n', later), height, hash);
  }
}
