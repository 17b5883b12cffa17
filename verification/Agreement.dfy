/** When re-execution reproduces what import accepted, and when nodes that see the same blocks agree. */
module Agreement {
  import opened BlockTree
  import opened Common
  import opened ForkChoice
  import opened TicketColumn

  // ---------- Re-execution ----------

  /** At every block re-executed, the undelegations that fall due are those of the recorded execution. */
  ghost predicate SameDue(rules: Rules, column: Tickets, q: seq<Block>, i: nat, matured: map<Hash, Tickets>)
    requires i <= |q|
    decreases |q| - i
  {
    i == |q| ||
    (&& q[i].hash in matured && DueAt(column, q[i]) == matured[q[i].hash]
     && SameDue(rules, ColumnAfter(rules, column, q[i], ParentRoot(q, i)), q, i + 1, matured))
  }

  /** Re-execution that finds the same undelegations due reproduces every root, and changes no record. */
  lemma {:induction false} ReplaySucceeds(rules: Rules, store: Store, genesis: Block, matured: map<Hash, Tickets>,
                                          h: Hash, column: Tickets, i: nat)
    requires Tree(store, genesis) && AllAccepted(rules, store, genesis, matured) && h in store
    requires 0 < i <= |Path(store, genesis, h)| && SameDue(rules, column, Path(store, genesis, h), i, matured)
    ensures var r := Replay(rules, column, Path(store, genesis, h), i);
            r.ok && forall g | g in r.matured :: g in matured && r.matured[g] == matured[g]
    decreases |Path(store, genesis, h)| - i
  {
    hide Tree, Path, ColumnAfter, DueAt, Reproduces, Linked;
    var q := Path(store, genesis, h);
    if i < |q| {
      RecordedReproduces(rules, store, genesis, matured, h, i);
      ReplaySucceeds(rules, store, genesis, matured, h, ColumnAfter(rules, column, q[i], q[i - 1].root), i + 1);
      ReplayStep(rules, column, q, i);
    }
  }

  lemma RecordedReproduces(rules: Rules, store: Store, genesis: Block, matured: map<Hash, Tickets>, h: Hash, i: nat)
    requires Tree(store, genesis) && AllAccepted(rules, store, genesis, matured) && h in store
    requires 0 < i < |Path(store, genesis, h)|
    ensures var q := Path(store, genesis, h);
            q[i].hash in matured && Reproduces(rules, q[i - 1], q[i], matured[q[i].hash])
  {
    hide Reproduces, Accepts;
    ChainAt(store, genesis, h, i);
    var g := Path(store, genesis, h)[i].hash;
    assert Linked(store, genesis, store[g]);
  }

  lemma ReplayStep(rules: Rules, column: Tickets, q: seq<Block>, i: nat)
    requires 0 < i < |q|
    ensures var rest := Replay(rules, ColumnAfter(rules, column, q[i], q[i - 1].root), q, i + 1);
            Replay(rules, column, q, i)
            == if Reproduces(rules, q[i - 1], q[i], DueAt(column, q[i]))
               then rest.(matured := rest.matured[q[i].hash := DueAt(column, q[i])])
               else Replayed(false, ColumnAfter(rules, column, q[i], q[i - 1].root), map[])
  {
    hide ColumnAfter, DueAt;
  }

  // ---------- Columns in which nothing falls due ----------

  /** No ticket of the column is due at the time of any of the blocks. */
  predicate Quiet(column: Tickets, blocks: set<Block>) {
    forall t, b | t in column && b in blocks :: b.timestamp / 1000 < t.unlockAt
  }

  /** No undelegation that one of the blocks stores, executed on its parent with nothing due, falls due at
      any of the blocks. */
  ghost predicate Lasting(rules: Rules, genesis: Block, blocks: set<Block>) {
    forall a, b, parent, t | a in blocks && b in blocks && ParentIn(genesis, blocks, parent, a)
                             && t in rules.execute(a, parent.root, map[]).created ::
      b.timestamp / 1000 < t.unlockAt
  }

  predicate ParentIn(genesis: Block, blocks: set<Block>, parent: Block, b: Block) {
    parent.hash == b.parent && (parent == genesis || parent in blocks)
  }

  /** The times of the blocks span less than the delay of an undelegation. */
  predicate Brief(blocks: set<Block>) {
    forall a, b | a in blocks && b in blocks :: b.timestamp / 1000 < a.timestamp / 1000 + UNSTAKE_DELAY_SECS
  }

  /** What an execution stores falls due one delay after its block. */
  ghost predicate Delays(rules: Rules) {
    forall b, root, due, t | t in rules.execute(b, root, due).created ::
      t.unlockAt == b.timestamp / 1000 + UNSTAKE_DELAY_SECS
  }

  /** Blocks that span less than the delay outlast nothing they store. */
  lemma BriefIsLasting(rules: Rules, genesis: Block, blocks: set<Block>)
    requires Brief(blocks) && Delays(rules)
    ensures Lasting(rules, genesis, blocks)
  {
    forall a, b, parent, t | a in blocks && b in blocks && ParentIn(genesis, blocks, parent, a)
                             && t in rules.execute(a, parent.root, map[]).created
      ensures b.timestamp / 1000 < t.unlockAt
    {
      assert t.unlockAt == a.timestamp / 1000 + UNSTAKE_DELAY_SECS;
    }
  }

  lemma NothingDue(column: Tickets, blocks: set<Block>, b: Block)
    requires Quiet(column, blocks) && b in blocks
    ensures DueAt(column, b) == map[]
  {
    var due := DueAt(column, b);
    assert forall t :: t !in due;
  }

  lemma QuietStays(rules: Rules, column: Tickets, genesis: Block, blocks: set<Block>, b: Block, parent: Block)
    requires Quiet(column, blocks) && Lasting(rules, genesis, blocks)
    requires b in blocks && ParentIn(genesis, blocks, parent, b)
    ensures Quiet(ColumnAfter(rules, column, b, parent.root), blocks)
  {
    NothingDue(column, blocks, b);
    var created := rules.execute(b, parent.root, map[]).created;
    forall t, c | t in ColumnAfter(rules, column, b, parent.root) && c in blocks
      ensures c.timestamp / 1000 < t.unlockAt
    {
      if t !in created {
        assert t in column;
      }
    }
  }

  /** The blocks of `q` from `i` on are among `blocks`, each after its parent, and nothing fell due in any. */
  ghost predicate QuietFrom(q: seq<Block>, i: nat, matured: map<Hash, Tickets>, genesis: Block, blocks: set<Block>) {
    0 < i && forall k | i <= k < |q| :: QuietAt(q, k, matured, genesis, blocks)
  }

  ghost predicate QuietAt(q: seq<Block>, k: nat, matured: map<Hash, Tickets>, genesis: Block, blocks: set<Block>)
    requires 0 < k < |q|
  {
    q[k] in blocks && ParentIn(genesis, blocks, q[k - 1], q[k]) && q[k].hash in matured && matured[q[k].hash] == map[]
  }

  lemma {:induction false} QuietReplay(rules: Rules, column: Tickets, q: seq<Block>, i: nat,
                                       matured: map<Hash, Tickets>, genesis: Block, blocks: set<Block>)
    requires i <= |q| && Quiet(column, blocks) && Lasting(rules, genesis, blocks)
    requires QuietFrom(q, i, matured, genesis, blocks)
    ensures SameDue(rules, column, q, i, matured) && Quiet(Replay(rules, column, q, i).column, blocks)
    decreases |q| - i
  {
    hide Quiet, Lasting, ColumnAfter, DueAt, ParentIn;
    if i < |q| {
      assert QuietAt(q, i, matured, genesis, blocks);
      var after := ColumnAfter(rules, column, q[i], q[i - 1].root);
      NothingDue(column, blocks, q[i]);
      QuietStays(rules, column, genesis, blocks, q[i], q[i - 1]);
      QuietReplay(rules, after, q, i + 1, matured, genesis, blocks);
    }
  }

  /** Every block stored above genesis is among `blocks`; nothing fell due in any, and nothing is due. */
  ghost predicate Calm(n: Node, blocks: set<Block>) {
    && Quiet(n.column, blocks)
    && (forall h | h in n.store && h != n.genesis.hash :: n.store[h] in blocks)
    && (forall h | h in n.matured :: n.matured[h] == map[])
  }

  lemma KeptIsCalm(rules: Rules, n: Node, blocks: set<Block>, b: Block)
    requires Tree(n.store, n.genesis) && Calm(n, blocks) && Lasting(rules, n.genesis, blocks)
    requires b in blocks && b.parent in n.store
    ensures var root := n.store[b.parent].root;
            Calm(Kept(rules, n, b, root), blocks) && Calm(Ran(rules, n, b, root), blocks)
    ensures DueAt(n.column, b) == map[]
  {
    hide Quiet, Lasting, ColumnAfter, DueAt;
    var parent := n.store[b.parent];
    assert ParentIn(n.genesis, blocks, parent, b);
    NothingDue(n.column, blocks, b);
    QuietStays(rules, n.column, n.genesis, blocks, b, parent);
  }

  lemma ReplayIsCalm(rules: Rules, n: Node, blocks: set<Block>, b: Block)
    requires Valid(rules, n) && Calm(n, blocks) && Lasting(rules, n.genesis, blocks) && b in blocks
    requires b.hash !in n.store && b.parent in n.store && Accepts(rules, n.store[b.parent], b, DueAt(n.column, b))
    ensures var r, kept := ReplayTo(rules, n, b), Kept(rules, n, b, n.store[b.parent].root);
            && r.ok && Quiet(r.column, blocks)
            && forall g | g in r.matured :: g in kept.matured && r.matured[g] == kept.matured[g]
  {
    hide AllAccepted, Replay, Quiet, Lasting, ColumnAfter, DueAt, Tree, Path, FinalIsCanonical;
    hide SameDue, Fork;
    var root := n.store[b.parent].root;
    var kept := Kept(rules, n, b, root);
    KeptIsCalm(rules, n, blocks, b);
    StoringIsSound(rules, n, b);
    StoreBlock(n.store, n.genesis, b);
    ForkIsLate(n, b);
    var q, i := ChainTo(n, b), Fork(Canonical(n), ChainTo(n, b));
    assert q == Path(kept.store, n.genesis, b.hash);
    CalmPath(rules, kept, blocks, b.hash, i);
    QuietReplay(rules, kept.column, q, i, kept.matured, n.genesis, blocks);
    ReplaySucceeds(rules, kept.store, n.genesis, kept.matured, b.hash, kept.column, i);
  }

  lemma CalmPath(rules: Rules, n: Node, blocks: set<Block>, h: Hash, i: nat)
    requires Tree(n.store, n.genesis) && AllAccepted(rules, n.store, n.genesis, n.matured)
    requires Calm(n, blocks) && h in n.store && 0 < i
    ensures QuietFrom(Path(n.store, n.genesis, h), i, n.matured, n.genesis, blocks)
  {
    hide Quiet, Path, Linked;
    forall k | i <= k < |Path(n.store, n.genesis, h)|
      ensures QuietAt(Path(n.store, n.genesis, h), k, n.matured, n.genesis, blocks)
    {
      ChainAt(n.store, n.genesis, h, k);
      assert n.store[n.genesis.hash] == n.genesis;
    }
  }

  /** With nothing falling due, an import is never turned away because of what was executed before, and
      the node stays calm. */
  lemma ImportStaysCalm(rules: Rules, n: Node, blocks: set<Block>, b: Block)
    requires Valid(rules, n) && Calm(n, blocks) && Lasting(rules, n.genesis, blocks) && b in blocks
    ensures Calm(Imported(rules, n, b), blocks) && !Judge(rules, n, b).Diverged?
    ensures Judge(rules, n, b).Mismatched? ==> !Accepts(rules, n.store[b.parent], b, map[])
  {
    hide AllAccepted, ReplayTo, Quiet, Lasting, ColumnAfter, DueAt, Tree, FinalIsCanonical, Accepts, RetainsFinal;
    NothingDue(n.column, blocks, b);
    if b.parent in n.store {
      KeptIsCalm(rules, n, blocks, b);
      if b.hash !in n.store && Accepts(rules, n.store[b.parent], b, DueAt(n.column, b)) {
        ReplayIsCalm(rules, n, blocks, b);
      }
    }
  }

  /** Every block of the steps is among `blocks`. */
  ghost predicate Among(steps: seq<Step>, blocks: set<Block>) {
    forall s | s in steps && !s.Finalize? :: s.block in blocks
  }

  lemma NextStaysCalm(rules: Rules, n: Node, blocks: set<Block>, step: Step)
    requires Valid(rules, n) && Calm(n, blocks) && Lasting(rules, n.genesis, blocks) && Among([step], blocks)
    ensures Calm(Next(rules, n, step), blocks)
  {
    hide AllAccepted, Quiet, Lasting, ColumnAfter, DueAt, Tree, FinalIsCanonical, Imported, Accepts;
    assert step in [step];
    match step
    case Import(b) => ImportStaysCalm(rules, n, blocks, b);
    case Produce(b) => if b.parent == n.head.hash { KeptIsCalm(rules, n, blocks, b); }
    case Draft(b) => if b.parent in n.store { KeptIsCalm(rules, n, blocks, b); }
    case Finalize(_, _) =>
  }

  // ---------- The best head ----------

  /** Every stored block has a lower number than the head, or the same number and no lower hash. */
  ghost predicate HeadIsBest(n: Node) {
    forall h | h in n.store ::
      n.store[h].number < n.head.number || (n.store[h].number == n.head.number && n.head.hash <= n.store[h].hash)
  }

  lemma NeverRefused(rules: Rules, n: Node, b: Block)
    requires Valid(rules, n) && n.fin.height == 0
    ensures !Judge(rules, n, b).Refused?
  {
    hide Replay, ColumnAfter, Accepts;
    if b.parent in n.store {
      PathIsChain(n.store, n.genesis, b.parent);
      PathIsChain(n.store, n.genesis, n.head.hash);
    }
  }

  /** While nothing above genesis is finalized, a step keeps the head the best stored block exactly when
      it is not an import whose branch re-executes to another root. */
  lemma KeepsBestUnlessDiverged(rules: Rules, n: Node, step: Step)
    requires Valid(rules, n) && NoCollisions(n, [step]) && HeadIsBest(n) && n.fin.height == 0
    ensures HeadIsBest(Next(rules, n, step)) <==> !(step.Import? && Judge(rules, n, step.block).Diverged?)
  {
    hide Replay, ColumnAfter, Accepts, AllAccepted, Tree, Path, FinalIsCanonical, RetainsFinal, NoCollisions, ReplayTo;
    if step.Import? {
      NeverRefused(rules, n, step.block);
      if Judge(rules, n, step.block).Diverged? {
        assert step.block.hash in Next(rules, n, step).store;
      }
    }
  }

  /** The import stores a block better than the head and not on top of it, so its branch is re-executed. */
  ghost predicate Contested(rules: Rules, n: Node, b: Block) {
    && b.hash !in n.store && b.parent in n.store && Accepts(rules, n.store[b.parent], b, DueAt(n.column, b))
    && b.parent != n.head.hash && Better(b, n.head)
  }

  /** So a step keeps the head the best stored block exactly when it is not a contested import or the branch
      re-executes on the column that executing the block leaves. */
  lemma StepKeepsBestIff(rules: Rules, n: Node, step: Step)
    requires Valid(rules, n) && NoCollisions(n, [step]) && HeadIsBest(n) && n.fin.height == 0
    ensures HeadIsBest(Next(rules, n, step))
       <==> (step.Import? && Contested(rules, n, step.block) ==> ReplayTo(rules, n, step.block).ok)
  {
    hide Replay, ColumnAfter, Accepts, AllAccepted, Tree, Path, FinalIsCanonical, NoCollisions, ReplayTo, HeadIsBest;
    hide RetainsFinal, Next;
    KeepsBestUnlessDiverged(rules, n, step);
    if step.Import? {
      var b := step.block;
      NeverRefused(rules, n, b);
      if b.parent in n.store && Accepts(rules, n.store[b.parent], b, DueAt(n.column, b)) {
        AcceptsChecked(rules, n.store[b.parent], b, DueAt(n.column, b));
      }
    }
  }

  lemma AcceptsChecked(rules: Rules, parent: Block, b: Block, due: Tickets)
    requires Accepts(rules, parent, b, due)
    ensures Checked(rules, parent, b)
  {
  }

  /** The chain of the block, from where it leaves the head's, with what is due as its executions found it. */
  ghost predicate SameDueTo(rules: Rules, n: Node, b: Block)
    requires Tree(n.store, n.genesis) && n.head.hash in n.store && b.parent in n.store
  {
    var kept, q := Kept(rules, n, b, n.store[b.parent].root), ChainTo(n, b);
    SameDue(rules, kept.column, q, Fork(Canonical(n), q), kept.matured)
  }

  /** Whatever the rules: it does when every block of the branch finds due what it found at its import. */
  lemma SameDueKeepsBest(rules: Rules, n: Node, b: Block)
    requires Valid(rules, n) && NoCollisions(n, [Import(b)]) && HeadIsBest(n) && n.fin.height == 0
    requires Contested(rules, n, b) ==> SameDueTo(rules, n, b)
    ensures HeadIsBest(Next(rules, n, Import(b)))
  {
    hide NoCollisions, HeadIsBest, AllAccepted, Replay, ColumnAfter, DueAt, Tree, Path, FinalIsCanonical, SameDue, Fork;
    hide Accepts, Better;
    StepKeepsBestIff(rules, n, Import(b));
    if Contested(rules, n, b) {
      var kept := Kept(rules, n, b, n.store[b.parent].root);
      StoringIsSound(rules, n, b);
      AcceptsMeans(rules, n.store[b.parent], b, DueAt(n.column, b));
      StoreBlock(n.store, n.genesis, b);
      ForkIsLate(n, b);
      var i := Fork(Canonical(n), ChainTo(n, b));
      ReplaySucceeds(rules, kept.store, n.genesis, kept.matured, b.hash, kept.column, i);
    }
  }

  /** With nothing falling due and nothing above genesis finalized, the head is the best stored block. */
  lemma {:induction false} UnfinalizedHeadIsBest(rules: Rules, n: Node, steps: seq<Step>, blocks: set<Block>)
    requires Valid(rules, n) && NoCollisions(n, steps) && HeadIsBest(n)
    requires Calm(n, blocks) && Lasting(rules, n.genesis, blocks) && Among(steps, blocks)
    requires Run(rules, n, steps).fin.height == 0
    ensures HeadIsBest(Run(rules, n, steps)) && Calm(Run(rules, n, steps), blocks)
    decreases |steps|
  {
    hide Valid, Calm, Lasting, NoCollisions, Next, HeadIsBest;
    if steps != [] {
      NextSeesLess(rules, n, steps);
      var n' := Next(rules, n, steps[0]);
      RunAdvances(rules, n', steps[1..]);
      NextStaysCalm(rules, n, blocks, steps[0]);
      FirstKeepsBest(rules, n, steps[0], blocks, Run(rules, n', steps[1..]));
      UnfinalizedHeadIsBest(rules, n', steps[1..], blocks);
    }
  }

  lemma FirstKeepsBest(rules: Rules, n: Node, step: Step, blocks: set<Block>, end: Node)
    requires Valid(rules, n) && NoCollisions(n, [step]) && HeadIsBest(n)
    requires Calm(n, blocks) && Lasting(rules, n.genesis, blocks) && Among([step], blocks)
    requires var n' := Next(rules, n, step);
             && Valid(rules, n') && Advances(n, n')
             && Valid(rules, end) && Advances(n', end) && end.fin.height == 0
    ensures HeadIsBest(Next(rules, n, step))
  {
    hide Calm, Lasting, NoCollisions, Next, HeadIsBest, Tree, Judge, AllAccepted, FinalIsCanonical;
    KeepsBestUnlessDiverged(rules, n, step);
    if step.Import? {
      assert step in [step];
      ImportStaysCalm(rules, n, blocks, step.block);
    }
  }

  // ---------- Convergence ----------

  /** Two histories that stored the same blocks have the same head and the same canonical chain. */
  lemma SameStoreSameHead(a: Node, b: Node)
    requires Tree(a.store, a.genesis) && HeadIsLeaf(a) && HeadIsBest(a)
    requires HeadIsLeaf(b) && HeadIsBest(b)
    requires a.store == b.store && a.genesis == b.genesis
    ensures a.head == b.head && Canonical(a) == Canonical(b)
  {
    assert !Better(a.head, b.head) && !Better(b.head, a.head);
  }

  /** Each block has its parent among the `earlier` ones, and is acceptable on top of it with nothing due. */
  ghost predicate ParentsFirst(rules: Rules, earlier: set<Block>, blocks: seq<Block>)
    decreases |blocks|
  {
    blocks == [] ||
    (HasParent(rules, earlier, blocks[0]) && ParentsFirst(rules, earlier + {blocks[0]}, blocks[1..]))
  }

  ghost predicate HasParent(rules: Rules, earlier: set<Block>, b: Block) {
    exists parent | parent in earlier :: Accepts(rules, parent, b, map[])
  }

  ghost function Imports(blocks: seq<Block>): seq<Step> {
    if blocks == [] then [] else [Import(blocks[0])] + Imports(blocks[1..])
  }

  /** The store holds exactly `blocks`. */
  ghost predicate Holds(store: Store, blocks: set<Block>) {
    && (forall b | b in blocks :: b.hash in store && store[b.hash] == b)
    && (forall h | h in store :: store[h] in blocks)
  }

  ghost function Elements(blocks: seq<Block>): set<Block> {
    set b | b in blocks
  }

  lemma ImportStores(rules: Rules, n: Node, earlier: set<Block>, b: Block, blocks: set<Block>)
    requires Valid(rules, n) && NoCollisions(n, [Import(b)])
    requires Calm(n, blocks) && Lasting(rules, n.genesis, blocks) && b in blocks
    requires Holds(n.store, earlier) && HasParent(rules, earlier, b)
    ensures Holds(Next(rules, n, Import(b)).store, earlier + {b})
    ensures n.fin == Next(rules, n, Import(b)).fin
  {
    hide AllAccepted, FinalIsCanonical, Linked, ReplayTo, Calm, Lasting, ColumnAfter, DueAt, RetainsFinal;
    var parent :| parent in earlier && Accepts(rules, parent, b, map[]);
    ImportStaysCalm(rules, n, blocks, b);
    if b.hash in n.store {
      OfferedMeansStored(n, b);
    }
  }

  lemma OfferedMeansStored(n: Node, b: Block)
    requires NoCollisions(n, [Import(b)]) && b.hash in n.store && n.store[b.hash].hash == b.hash
    ensures n.store[b.hash] == b
  {
    assert b in Seen(n, [Import(b)]) by {
      assert Import(b) in [Import(b)];
    }
    assert n.store[b.hash] in Seen(n, [Import(b)]);
  }

  /** Importing parents before children stores every block, whatever the order. */
  lemma {:induction false} OrderedImportsStoreAll(rules: Rules, n: Node, earlier: set<Block>, xs: seq<Block>,
                                                  blocks: set<Block>)
    requires Valid(rules, n) && NoCollisions(n, Imports(xs))
    requires Calm(n, blocks) && Lasting(rules, n.genesis, blocks) && Elements(xs) <= blocks
    requires Holds(n.store, earlier) && ParentsFirst(rules, earlier, xs)
    ensures Holds(Run(rules, n, Imports(xs)).store, earlier + Elements(xs))
    ensures Run(rules, n, Imports(xs)).fin == n.fin
    decreases |xs|
  {
    hide Valid, Holds, Next, Advances, NoCollisions, HasParent, Calm, Lasting;
    if xs == [] {
      assert earlier + Elements(xs) == earlier;
    } else {
      var steps := Imports(xs);
      NextSeesLess(rules, n, steps);
      assert xs[0] in Elements(xs) && Elements(xs[1..]) <= Elements(xs);
      ImportStores(rules, n, earlier, xs[0], blocks);
      assert Among([Import(xs[0])], blocks);
      NextStaysCalm(rules, n, blocks, steps[0]);
      OrderedImportsStoreAll(rules, Next(rules, n, steps[0]), earlier + {xs[0]}, xs[1..], blocks);
      assert earlier + {xs[0]} + Elements(xs[1..]) == earlier + Elements(xs);
    }
  }

  lemma StartIsBest(genesis: Block, column: Tickets)
    ensures HeadIsBest(Start(genesis, column)) && Holds(Start(genesis, column).store, {genesis})
  {
  }

  lemma SameBlocksSameStore(a: Store, b: Store, genesis: Block, blocks: set<Block>)
    requires Tree(a, genesis) && Tree(b, genesis) && Holds(a, blocks) && Holds(b, blocks)
    ensures a == b
  {
  }

  lemma {:induction false} ImportsAreAmong(xs: seq<Block>, blocks: set<Block>)
    requires Elements(xs) <= blocks
    ensures Among(Imports(xs), blocks)
  {
    if xs != [] {
      assert xs[0] in Elements(xs) && Elements(xs[1..]) <= Elements(xs);
      ImportsAreAmong(xs[1..], blocks);
    }
  }

  lemma OrderedRun(rules: Rules, genesis: Block, column: Tickets, xs: seq<Block>)
    requires genesis.number == 0 && ParentsFirst(rules, {genesis}, xs)
    requires Quiet(column, Elements(xs)) && Lasting(rules, genesis, Elements(xs))
    requires NoCollisions(Start(genesis, column), Imports(xs))
    ensures Valid(rules, Start(genesis, column))
    ensures var m := Run(rules, Start(genesis, column), Imports(xs));
            && Valid(rules, m) && m.genesis == genesis && m.fin == Point(0, genesis.hash)
            && HeadIsBest(m) && Holds(m.store, {genesis} + Elements(xs)) && Calm(m, Elements(xs))
  {
    hide Valid, Holds, NoCollisions, ParentsFirst, HeadIsBest, Quiet, Lasting, Elements;
    var n := Start(genesis, column);
    StartIsValid(rules, genesis, column);
    StartIsBest(genesis, column);
    assert Calm(n, Elements(xs));
    hide Calm;
    OrderedImportsStoreAll(rules, n, {genesis}, xs, Elements(xs));
    ImportsAreAmong(xs, Elements(xs));
    UnfinalizedHeadIsBest(rules, n, Imports(xs), Elements(xs));
    GenesisIsFixed(rules, n, Imports(xs));
  }

  lemma GenesisIsFixed(rules: Rules, n: Node, steps: seq<Step>)
    requires Valid(rules, n) && NoCollisions(n, steps)
    ensures Run(rules, n, steps).genesis == n.genesis
  {
    RunAdvances(rules, n, steps);
  }

  /** The same node, whatever the column of pending undelegations holds. */
  ghost predicate SameChain(a: Node, b: Node) {
    a.(column := map[]) == b.(column := map[])
  }

  /** Convergence: two nodes that import the same valid blocks, in any two orders that put parents
      before children, end with the same store, the same head (greatest number, then lowest hash) and
      therefore the same canonical chain, provided no undelegation that is pending at the start, or that one
      of the blocks stores, falls due at any of the blocks. */
  lemma Convergence(rules: Rules, genesis: Block, column: Tickets, xs: seq<Block>, ys: seq<Block>)
    requires genesis.number == 0 && Elements(xs) == Elements(ys)
    requires ParentsFirst(rules, {genesis}, xs) && ParentsFirst(rules, {genesis}, ys)
    requires Quiet(column, Elements(xs)) && Lasting(rules, genesis, Elements(xs))
    requires NoCollisions(Start(genesis, column), Imports(xs)) && NoCollisions(Start(genesis, column), Imports(ys))
    ensures Valid(rules, Start(genesis, column))
    ensures SameChain(Run(rules, Start(genesis, column), Imports(xs)), Run(rules, Start(genesis, column), Imports(ys)))
    ensures HeadIsBest(Run(rules, Start(genesis, column), Imports(xs)))
    ensures Holds(Run(rules, Start(genesis, column), Imports(xs)).store, {genesis} + Elements(xs))
  {
    hide Run, Holds, NoCollisions, ParentsFirst, HeadIsBest, Elements, HeadIsLeaf, AllAccepted, Tree, IsCanonical;
    hide Calm, Quiet, Lasting;
    OrderedRun(rules, genesis, column, xs);
    OrderedRun(rules, genesis, column, ys);
    var a, b := Run(rules, Start(genesis, column), Imports(xs)), Run(rules, Start(genesis, column), Imports(ys));
    SameBlocksSameStore(a.store, b.store, genesis, {genesis} + Elements(xs));
    SameStoreSameHead(a, b);
    SameRecords(rules, a, b, Elements(xs));
  }

  lemma SameRecords(rules: Rules, a: Node, b: Node, blocks: set<Block>)
    requires Valid(rules, a) && Valid(rules, b) && Calm(a, blocks) && Calm(b, blocks)
    requires a.store == b.store && a.genesis == b.genesis
    ensures a.matured == b.matured
  {
    hide Tree, Quiet, Linked, HeadIsLeaf, FinalIsCanonical;
  }

  /** Blocks that span less than an undelegation's delay are one case. */
  lemma ConvergenceWithinDelay(rules: Rules, genesis: Block, column: Tickets, xs: seq<Block>, ys: seq<Block>)
    requires genesis.number == 0 && Elements(xs) == Elements(ys)
    requires ParentsFirst(rules, {genesis}, xs) && ParentsFirst(rules, {genesis}, ys)
    requires Delays(rules) && Quiet(column, Elements(xs)) && Brief(Elements(xs))
    requires NoCollisions(Start(genesis, column), Imports(xs)) && NoCollisions(Start(genesis, column), Imports(ys))
    ensures Valid(rules, Start(genesis, column))
    ensures SameChain(Run(rules, Start(genesis, column), Imports(xs)), Run(rules, Start(genesis, column), Imports(ys)))
  {
    hide Valid, Run, NoCollisions, ParentsFirst, SameChain, Quiet, Elements, Brief, Delays, Lasting;
    BriefIsLasting(rules, genesis, Elements(xs));
    Convergence(rules, genesis, column, xs, ys);
  }
}
