/** What sharing one column of pending undelegations between all executions does to a node: a block that
    undelegations fall due in is accepted only by the first execution of it that finds them. */
module SharedColumn {
  import opened Agreement
  import opened BlockTree
  import opened Common
  import opened ForkChoice
  import opened TicketColumn

  /** Executing the block with nothing due misses the root it claims. */
  predicate NeedsDue(rules: Rules, parent: Block, b: Block) {
    !Reproduces(rules, parent, b, map[])
  }

  /** After any execution of `b`, nothing in the column is due at `b`'s own time. */
  lemma ExecutedLeavesNothingDue(rules: Rules, column: Tickets, b: Block, root: Hash)
    requires Delays(rules)
    ensures DueAt(ColumnAfter(rules, column, b, root), b) == map[]
  {
    var due := DueAt(ColumnAfter(rules, column, b, root), b);
    forall t ensures t !in due {
      if t in ExecuteOn(rules, column, b, root).created {
        assert t.unlockAt == b.timestamp / 1000 + UNSTAKE_DELAY_SECS;
      }
    }
  }

  /** A producer that drafts a block by executing it can store it exactly when executing it with nothing
      due yields the same root and gas. */
  lemma DraftedIsStoredIff(rules: Rules, n: Node, b: Block)
    requires Valid(rules, n) && Delays(rules) && b.parent == n.head.hash && Checked(rules, n.head, b)
    ensures JudgeProduced(rules, Next(rules, n, Draft(b)), b).Extended? <==> Accepts(rules, n.head, b, map[])
    ensures JudgeProduced(rules, Next(rules, n, Draft(b)), b) in {Extended, Mismatched}
  {
    hide ColumnAfter, DueAt, Delays, AllAccepted, Reproduces, Tree, FinalIsCanonical;
    ExecutedLeavesNothingDue(rules, n.column, b, n.head.root);
  }

  /** So where undelegations fall due in it, a block its own producer has just drafted is turned away. */
  lemma DraftedIsTurnedAway(rules: Rules, n: Node, b: Block)
    requires Valid(rules, n) && Delays(rules) && b.parent == n.head.hash
    requires Accepts(rules, n.head, b, DueAt(n.column, b)) && NeedsDue(rules, n.head, b)
    ensures JudgeProduced(rules, n, b).Extended?
    ensures JudgeProduced(rules, Next(rules, n, Draft(b)), b).Mismatched?
  {
    hide ColumnAfter, DueAt, Delays, AllAccepted, Reproduces, Tree, FinalIsCanonical;
    DraftedIsStoredIff(rules, n, b);
  }

  // ---------- Siblings ----------

  /** All of the column falls due in the block, which the block needs to reach its root. */
  ghost predicate Consumes(rules: Rules, parent: Block, b: Block, column: Tickets) {
    DueAt(column, b) == column && Accepts(rules, parent, b, column) && NeedsDue(rules, parent, b)
  }

  lemma Consumed(rules: Rules, column: Tickets, b: Block, c: Block, root: Hash)
    requires Delays(rules) && DueAt(column, b) == column && Brief({b, c})
    ensures DueAt(ColumnAfter(rules, column, b, root), c) == map[]
  {
    var due := DueAt(ColumnAfter(rules, column, b, root), c);
    assert NotDue(column, b.timestamp / 1000) == map[] by {
      forall t | t in column ensures t.unlockAt <= b.timestamp / 1000 {
        assert t in DueAt(column, b);
      }
    }
    forall t ensures t !in due {
      if t in ExecuteOn(rules, column, b, root).created {
        assert t.unlockAt == b.timestamp / 1000 + UNSTAKE_DELAY_SECS;
        assert c.timestamp / 1000 < b.timestamp / 1000 + UNSTAKE_DELAY_SECS;
      }
    }
  }

  lemma FirstWins(rules: Rules, genesis: Block, column: Tickets, x: Block, y: Block)
    requires genesis.number == 0 && Delays(rules) && Brief({x, y}) && x.hash != y.hash
    requires x.hash != genesis.hash && y.hash != genesis.hash
    requires Consumes(rules, genesis, x, column) && Consumes(rules, genesis, y, column)
    ensures Valid(rules, Start(genesis, column))
    ensures var n := Imported(rules, Start(genesis, column), x);
            && Valid(rules, n) && n.head == x
            && Judge(rules, n, y).Mismatched? && Imported(rules, n, y).store == n.store
            && Imported(rules, n, y).head == x && y.hash !in n.store
  {
    var start := Start(genesis, column);
    StartIsValid(rules, genesis, column);
    ImportIsSafe(rules, start, x);
    hide ColumnAfter, DueAt, Delays, AllAccepted, FinalIsCanonical, Brief;
    Consumed(rules, column, x, y, genesis.root);
    assert Judge(rules, start, x).Extended?;
    var n := Imported(rules, start, x);
    assert n.store == map[genesis.hash := genesis][x.hash := x];
  }

  /** Two siblings in which the same undelegations fall due: a node keeps whichever it imports first and
      never stores the other, so the order of import decides the chain. */
  lemma ImportOrderDecides(rules: Rules, genesis: Block, column: Tickets, x: Block, y: Block)
    requires genesis.number == 0 && Delays(rules) && Brief({x, y}) && x.hash != y.hash
    requires x.hash != genesis.hash && y.hash != genesis.hash
    requires Consumes(rules, genesis, x, column) && Consumes(rules, genesis, y, column)
    ensures var start := Start(genesis, column);
            && Valid(rules, start) && NoCollisions(start, [Import(x), Import(y)])
            && NoCollisions(start, [Import(y), Import(x)])
            && var a, b := Run(rules, start, [Import(x), Import(y)]), Run(rules, start, [Import(y), Import(x)]);
               a.head == x && b.head == y && y.hash !in a.store && x.hash !in b.store
  {
    hide ColumnAfter, DueAt, Delays, AllAccepted, FinalIsCanonical, Brief, Consumes, Imported, HeadIsLeaf;
    assert {x, y} == {y, x};
    FirstWins(rules, genesis, column, x, y);
    FirstWins(rules, genesis, column, y, x);
    NoneCollide(genesis, column, x, y);
    NoneCollide(genesis, column, y, x);
    TwoImports(rules, Start(genesis, column), x, y);
    TwoImports(rules, Start(genesis, column), y, x);
  }

  lemma NoneCollide(genesis: Block, column: Tickets, x: Block, y: Block)
    requires x.hash != y.hash && x.hash != genesis.hash && y.hash != genesis.hash
    ensures NoCollisions(Start(genesis, column), [Import(x), Import(y)])
  {
    assert Seen(Start(genesis, column), [Import(x), Import(y)]) <= {genesis, x, y};
  }

  lemma TwoImports(rules: Rules, n: Node, x: Block, y: Block)
    requires Valid(rules, n) && NoCollisions(n, [Import(x), Import(y)]) && Valid(rules, Imported(rules, n, x))
    ensures Run(rules, n, [Import(x), Import(y)]) == Imported(rules, Imported(rules, n, x), y)
  {
    hide Valid, NoCollisions, Imported;
    var steps := [Import(x), Import(y)];
    NextSeesLess(rules, n, steps);
    var m := Next(rules, n, steps[0]);
    assert steps[1..] == [Import(y)];
    NextSeesLess(rules, m, [Import(y)]);
    assert [Import(y)][1..] == [];
    assert Run(rules, m, [Import(y)]) == Next(rules, m, Import(y));
  }

  // ---------- Reorganisation ----------

  lemma QuietLeavesDue(rules: Rules, column: Tickets, k: Block, x: Block, root: Hash)
    requires Delays(rules) && Brief({k, x}) && DueAt(column, k) == map[] && DueAt(column, x) == column
    ensures DueAt(ColumnAfter(rules, column, k, root), x) == column
  {
    var after := ColumnAfter(rules, column, k, root);
    var created := ExecuteOn(rules, column, k, root).created;
    forall t | t in created ensures t.unlockAt > x.timestamp / 1000 {
      assert t.unlockAt == k.timestamp / 1000 + UNSTAKE_DELAY_SECS;
      assert x.timestamp / 1000 < k.timestamp / 1000 + UNSTAKE_DELAY_SECS;
    }
    forall t | t in column ensures t.unlockAt > k.timestamp / 1000 && t.unlockAt <= x.timestamp / 1000 {
      assert t !in DueAt(column, k);
      assert t in DueAt(column, x);
    }
    assert DueAt(after, x) == column;
  }

  /** Once a block that consumed everything due has executed, the column is quiet for all the blocks. */
  lemma QuietOnceConsumed(rules: Rules, column: Tickets, blocks: set<Block>, x: Block, root: Hash, rest: Tickets)
    requires Delays(rules) && Brief(blocks) && x in blocks
    requires NotDue(column, x.timestamp / 1000) == rest && Quiet(rest, blocks)
    ensures Quiet(ColumnAfter(rules, column, x, root), blocks)
  {
    var created := ExecuteOn(rules, column, x, root).created;
    forall t, b | t in ColumnAfter(rules, column, x, root) && b in blocks ensures b.timestamp / 1000 < t.unlockAt {
      if t in created {
        assert t.unlockAt == x.timestamp / 1000 + UNSTAKE_DELAY_SECS;
      } else {
        assert t in rest;
      }
    }
  }

  lemma CreatedIsQuiet(rules: Rules, column: Tickets, blocks: set<Block>, k: Block, x: Block, root: Hash)
    requires Delays(rules) && Brief(blocks) && k in blocks && x in blocks
    requires DueAt(column, k) == map[] && DueAt(column, x) == column
    ensures Quiet(NotDue(ColumnAfter(rules, column, k, root), x.timestamp / 1000), blocks)
  {
    var rest := NotDue(ColumnAfter(rules, column, k, root), x.timestamp / 1000);
    forall t, b | t in rest && b in blocks ensures b.timestamp / 1000 < t.unlockAt {
      assert t in column ==> t in DueAt(column, x);
      assert t in ExecuteOn(rules, column, k, root).created;
      assert t.unlockAt == k.timestamp / 1000 + UNSTAKE_DELAY_SECS;
    }
  }

  lemma HeadFirst(rules: Rules, genesis: Block, column: Tickets, k: Block) returns (m: Node)
    requires genesis.number == 0 && k.hash != genesis.hash
    requires Accepts(rules, genesis, k, map[]) && DueAt(column, k) == map[]
    ensures Valid(rules, Start(genesis, column)) && m == Imported(rules, Start(genesis, column), k) && Valid(rules, m)
    ensures m.genesis == genesis && m.head == k && m.store == map[genesis.hash := genesis, k.hash := k]
    ensures m.fin == Point(0, genesis.hash) && m.column == ColumnAfter(rules, column, k, genesis.root)
  {
    var start := Start(genesis, column);
    StartIsValid(rules, genesis, column);
    ImportIsSafe(rules, start, k);
    hide ColumnAfter, DueAt, AllAccepted, FinalIsCanonical;
    assert Judge(rules, start, k).Extended?;
    m := Imported(rules, start, k);
  }

  /** Where the two branches stand once `k` is the head and `x` is stored beside it. */
  lemma Forked(rules: Rules, genesis: Block, column: Tickets, k: Block, x: Block, blocks: set<Block>) returns (n: Node)
    requires genesis.number == 0 && Delays(rules) && Brief(blocks) && k in blocks && x in blocks
    requires k.hash != x.hash && k.hash != genesis.hash && x.hash != genesis.hash && !Better(x, k)
    requires Accepts(rules, genesis, k, map[]) && DueAt(column, k) == map[] && Consumes(rules, genesis, x, column)
    ensures Valid(rules, Start(genesis, column)) && Valid(rules, Imported(rules, Start(genesis, column), k))
    ensures n == Imported(rules, Imported(rules, Start(genesis, column), k), x) && Valid(rules, n)
    ensures n.genesis == genesis && n.head == k && n.store == map[genesis.hash := genesis, k.hash := k, x.hash := x]
    ensures n.fin == Point(0, genesis.hash) && Quiet(n.column, blocks)
  {
    hide ColumnAfter, DueAt, Delays, AllAccepted, FinalIsCanonical, Brief, Quiet, ReplayTo, RetainsFinal, NeedsDue;
    hide Path, Reproduces, Start;
    var m := HeadFirst(rules, genesis, column, k);
    ImportIsSafe(rules, m, x);
    BriefSubset({k, x}, blocks);
    QuietLeavesDue(rules, column, k, x, genesis.root);
    assert Judge(rules, m, x).SideBranch?;
    n := Imported(rules, m, x);
    CreatedIsQuiet(rules, column, blocks, k, x, genesis.root);
    QuietOnceConsumed(rules, m.column, blocks, x, genesis.root, NotDue(m.column, x.timestamp / 1000));
  }

  lemma BriefSubset(a: set<Block>, b: set<Block>)
    requires a <= b && Brief(b)
    ensures Brief(a)
  {
  }

  /** Undelegations that fell due in a side block are gone when a better child of it arrives: the branch
      no longer re-executes, and the head stays where it is although the branch is better and retains the
      finalized block. */
  lemma BetterBranchDiverges(rules: Rules, genesis: Block, column: Tickets, k: Block, x: Block, y: Block)
    requires genesis.number == 0 && Delays(rules) && Brief({k, x, y})
    requires k.hash != x.hash && k.hash != genesis.hash && x.hash != genesis.hash
    requires y.hash !in {k.hash, x.hash, genesis.hash}
    requires Accepts(rules, genesis, k, map[]) && DueAt(column, k) == map[] && !Better(x, k)
    requires Consumes(rules, genesis, x, column) && Accepts(rules, x, y, map[])
    ensures Valid(rules, Start(genesis, column)) && Valid(rules, Imported(rules, Start(genesis, column), k))
    ensures var n := Imported(rules, Imported(rules, Start(genesis, column), k), x);
            && Valid(rules, n) && Judge(rules, n, y).Diverged?
            && Better(y, n.head) && RetainsFinal(n, y) && Imported(rules, n, y).head == n.head == k
  {
    hide ColumnAfter, DueAt, Delays, AllAccepted, FinalIsCanonical, Brief, Quiet, Imported, Judge, Replay;
    var blocks := {k, x, y};
    var n := Forked(rules, genesis, column, k, x, blocks);
    NothingDue(n.column, blocks, y);
    BriefIsLasting(rules, genesis, blocks);
    QuietStays(rules, n.column, genesis, blocks, y, x);
    ChainsOf(n, genesis, k, x, y);
    ReplayMisses(rules, ColumnAfter(rules, n.column, y, x.root), blocks, genesis, x, y);
    Turned(rules, n, x, y);
  }

  lemma ChainsOf(n: Node, genesis: Block, k: Block, x: Block, y: Block)
    requires Tree(n.store, n.genesis) && n.genesis == genesis && n.head == k
    requires n.store == map[genesis.hash := genesis, k.hash := k, x.hash := x]
    requires k.hash != x.hash && k.hash != genesis.hash && x.hash != genesis.hash
    requires k.parent == genesis.hash && x.parent == genesis.hash && y.parent == x.hash
    ensures Canonical(n) == [genesis, k] && ChainTo(n, y) == [genesis, x, y]
    ensures Fork(Canonical(n), ChainTo(n, y)) == 1
  {
    assert Path(n.store, genesis, genesis.hash) == [genesis];
    assert Path(n.store, genesis, k.hash) == [genesis] + [k];
    assert Path(n.store, genesis, x.hash) == [genesis] + [x];
    ForkIs([genesis, k], [genesis, x, y], 1);
  }

  lemma ReplayMisses(rules: Rules, column: Tickets, blocks: set<Block>, genesis: Block, x: Block, y: Block)
    requires Quiet(column, blocks) && x in blocks && NeedsDue(rules, genesis, x)
    ensures !Replay(rules, column, [genesis, x, y], 1).ok
  {
    hide Quiet;
    NothingDue(column, blocks, x);
    ReplayStep(rules, column, [genesis, x, y], 1);
  }

  lemma Turned(rules: Rules, n: Node, x: Block, y: Block)
    requires Valid(rules, n) && y.hash !in n.store && y.parent == x.hash && x.hash in n.store && n.store[x.hash] == x
    requires Accepts(rules, x, y, DueAt(n.column, y)) && !ReplayTo(rules, n, y).ok
    requires n.fin == Point(0, n.genesis.hash) && n.head.hash != x.hash && n.head.number <= x.number
    ensures Judge(rules, n, y).Diverged? && Imported(rules, n, y).head == n.head
    ensures Better(y, n.head) && RetainsFinal(n, y)
  {
    hide ReplayTo, AllAccepted, ColumnAfter, DueAt;
    PathIsChain(n.store, n.genesis, x.hash);
    assert ChainTo(n, y)[0] == n.genesis;
  }
}
