/** The rules of fork choice as the executor gives them: every execution of a block runs on the one column
    of pending undelegations, so re-execution finds due only what no earlier execution has taken. */
module ExecutorRules {
  import opened Agreement
  import opened BlockTree
  import opened ChainDb
  import opened Common
  import opened ForkChoice
  import opened SharedColumn
  import opened TicketColumn
  import B = Blocks
  import D = DueTickets
  import E = Execution
  import F = FailedTransactions
  import L = Ledger
  import S = Sums

  /** How the executor reads a block: the accounts a root commits to, the transactions of the body, and
      the context the header gives. */
  datatype Reader = Reader(chainId: nat, root: L.Accounts -> Hash, accounts: Hash -> L.Accounts, tx: Tx -> L.Tx,
                           producer: Block -> Address, evm: Block -> ((L.Tx, Address, L.Accounts) -> L.Evm),
                           receipt: E.Executed -> nat)

  /** The hash hypothesis for state: a root commits to one set of accounts. */
  ghost predicate Faithful(r: Reader) {
    forall m :: r.accounts(r.root(m)) == m
  }

  function ContextOf(r: Reader, b: Block): L.Context {
    L.Context(r.chainId, b.timestamp, r.producer(b), r.evm(b))
  }

  function BodyOf(r: Reader, b: Block): (txs: seq<L.Tx>)
    ensures |txs| == |b.txs|
  {
    seq(|b.txs|, i requires 0 <= i < |b.txs| => r.tx(b.txs[i]))
  }

  /** What applying each transaction in turn yields. */
  function Results(ctx: L.Context, txs: seq<L.Tx>, l: L.Ledger, caps: seq<bool>): (results: seq<E.Executed>)
    requires |caps| == |txs|
    ensures |results| == |txs|
  {
    if txs == [] then [] else
      var n := |txs| - 1;
      Results(ctx, txs[..n], l, caps[..n]) + [E.Apply(ctx, txs[n], E.RunAll(ctx, txs[..n], l, caps[..n]), caps[n])]
  }

  function GasOf(): E.Executed -> nat { (e: E.Executed) => e.gas }

  ghost function ResultsOf(r: Reader, b: Block, root: Hash, due: Tickets): (results: seq<E.Executed>)
    ensures |results| == |b.txs|
  {
    var ctx, txs, parent := ContextOf(r, b), BodyOf(r, b), r.accounts(root);
    Results(ctx, txs, B.Opened(ctx, parent, due).ledger, B.BlockCaps(ctx, txs, parent, due))
  }

  ghost function OutcomeOf(r: Reader, b: Block, root: Hash, column: Tickets): Outcome {
    var ctx, txs, parent, due := ContextOf(r, b), BodyOf(r, b), r.accounts(root), DueAt(column, b);
    var results := ResultsOf(r, b, root, due);
    Outcome(r.root(B.Committed(ctx, b.number, txs, parent, due)),
            seq(|b.txs|, i requires 0 <= i < |b.txs| => Receipt(b.txs[i].hash, r.receipt(results[i]))),
            S.Sum(results, GasOf()),
            B.BlockWork(ctx, b.number, txs, parent, due).ledger.pending)
  }

  ghost function RulesOf(r: Reader, scheduled: (Block, Block) -> bool): Rules {
    Rules(scheduled, (b, root, due) => OutcomeOf(r, b, root, due))
  }

  lemma DueOnce(column: Tickets, b: Block)
    ensures DueAt(DueAt(column, b), b) == DueAt(column, b)
  {
  }

  /** Executing on the shared column commits what the executor commits, and leaves the column as the
      executor leaves it. */
  lemma ExecutesTheBlock(r: Reader, scheduled: (Block, Block) -> bool, column: Tickets, b: Block, root: Hash)
    ensures var rules, ctx, txs, parent := RulesOf(r, scheduled), ContextOf(r, b), BodyOf(r, b), r.accounts(root);
            && ExecuteOn(rules, column, b, root).root == r.root(B.Committed(ctx, b.number, txs, parent, column))
            && ColumnAfter(rules, column, b, root) == B.BlockWork(ctx, b.number, txs, parent, column).ledger.pending
  {
    hide B.Committed, B.BlockWork, Due, NotDue;
    DueOnce(column, b);
    D.OnlyDueMatters(ContextOf(r, b), b.number, BodyOf(r, b), r.accounts(root), column);
  }

  lemma RulesDelay(r: Reader, scheduled: (Block, Block) -> bool)
    ensures Delays(RulesOf(r, scheduled))
  {
    var rules := RulesOf(r, scheduled);
    forall b, root, due, t | t in rules.execute(b, root, due).created
      ensures t.unlockAt == b.timestamp / 1000 + UNSTAKE_DELAY_SECS
    {
      assert rules.execute(b, root, due) == OutcomeOf(r, b, root, due);
      CreatedLater(r, b, root, due, t);
    }
  }

  lemma CreatedLater(r: Reader, b: Block, root: Hash, due: Tickets, t: Ticket)
    requires t in OutcomeOf(r, b, root, due).created
    ensures t.unlockAt == b.timestamp / 1000 + UNSTAKE_DELAY_SECS
  {
    hide B.BlockWork, B.Committed;
    D.BlockCreates(ContextOf(r, b), b.number, BodyOf(r, b), r.accounts(root), DueAt(due, b));
  }

  /** No transaction of the block undelegates. */
  predicate UndelegatesNothing(r: Reader, b: Block) {
    forall tx | tx in BodyOf(r, b) :: !E.Undelegates(tx)
  }

  /** Blocks that undelegate nothing outlast nothing they store, whatever their times. */
  lemma NothingToOutlast(r: Reader, scheduled: (Block, Block) -> bool, genesis: Block, blocks: set<Block>)
    requires forall b | b in blocks :: UndelegatesNothing(r, b)
    ensures Lasting(RulesOf(r, scheduled), genesis, blocks)
  {
    var rules := RulesOf(r, scheduled);
    hide UndelegatesNothing;
    forall b: Block, root: Hash | b in blocks ensures rules.execute(b, root, map[]).created == map[] {
      assert rules.execute(b, root, map[]) == OutcomeOf(r, b, root, map[]);
      NothingCreated(r, b, root);
    }
  }

  lemma NothingCreated(r: Reader, b: Block, root: Hash)
    requires UndelegatesNothing(r, b)
    ensures OutcomeOf(r, b, root, map[]).created == map[]
  {
    hide B.BlockWork, B.Committed;
    D.NothingStored(ContextOf(r, b), b.number, BodyOf(r, b), r.accounts(root), DueAt(map[], b));
  }

  /** So under the executor's rules nodes converge on any blocks that undelegate nothing, however long the
      time they span, when nothing pending at the start falls due at any of them. */
  lemma ConvergesWithoutUndelegations(r: Reader, scheduled: (Block, Block) -> bool, genesis: Block, column: Tickets,
                                      xs: seq<Block>, ys: seq<Block>)
    requires genesis.number == 0 && Elements(xs) == Elements(ys) && Quiet(column, Elements(xs))
    requires forall b | b in Elements(xs) :: UndelegatesNothing(r, b)
    requires var rules := RulesOf(r, scheduled);
             ParentsFirst(rules, {genesis}, xs) && ParentsFirst(rules, {genesis}, ys)
    requires NoCollisions(Start(genesis, column), Imports(xs)) && NoCollisions(Start(genesis, column), Imports(ys))
    ensures var rules, start := RulesOf(r, scheduled), Start(genesis, column);
            Valid(rules, start) && SameChain(Run(rules, start, Imports(xs)), Run(rules, start, Imports(ys)))
  {
    hide RulesOf, Valid, Run, NoCollisions, ParentsFirst, SameChain, Quiet, Elements, Lasting, UndelegatesNothing;
    NothingToOutlast(r, scheduled, genesis, Elements(xs));
    Convergence(RulesOf(r, scheduled), genesis, column, xs, ys);
  }

  lemma RulesMatch(r: Reader, scheduled: (Block, Block) -> bool)
    ensures ReceiptsMatch(RulesOf(r, scheduled))
  {
    var rules := RulesOf(r, scheduled);
    forall b: Block, root: Hash, due: Tickets ensures Match(b.txs, rules.execute(b, root, due).receipts) {
      assert rules.execute(b, root, due) == OutcomeOf(r, b, root, due);
    }
  }

  // ---------- Same returns, same outcome ----------

  /** Every delegator is owed the same, and outside `known` the same delegators are owed anything. */
  ghost predicate SameReturns(known: set<Address>, due: Tickets, due': Tickets, now: nat) {
    && known + E.Owners(due, now) == known + E.Owners(due', now)
    && forall a :: E.Owed(due, now, a) == E.Owed(due', now, a)
  }

  /** Whatever the transactions, a block executes to the same root, receipts, gas and undelegations when
      the undelegations that fall due return the same to each delegator. */
  lemma SameReturnsSameOutcome(r: Reader, b: Block, root: Hash, column: Tickets, column': Tickets)
    requires SameReturns(r.accounts(root).Keys, DueAt(column, b), DueAt(column', b), b.timestamp / 1000)
    ensures OutcomeOf(r, b, root, column) == OutcomeOf(r, b, root, column')
  {
    var ctx, parent, due, due' := ContextOf(r, b), r.accounts(root), DueAt(column, b), DueAt(column', b);
    var now := b.timestamp / 1000;
    assert E.Matured(L.Ledger(parent, due), now) == E.Matured(L.Ledger(parent, due'), now) by {
      SameMatured(parent, due, due', now);
    }
    hide E.Matured, B.RunWork, B.Caps, Results, B.Work.Trie, E.Rewarded, E.Fees;
    assert B.Opened(ctx, parent, due) == B.Opened(ctx, parent, due');
  }

  lemma SameMatured(parent: L.Accounts, due: Tickets, due': Tickets, now: nat)
    requires SameReturns(parent.Keys, due, due', now)
    requires (forall t | t in due :: t.unlockAt <= now) && (forall t | t in due' :: t.unlockAt <= now)
    ensures E.Matured(L.Ledger(parent, due), now) == E.Matured(L.Ledger(parent, due'), now)
  {
    hide E.Owed, E.Owners;
    var l, l' := E.Matured(L.Ledger(parent, due), now), E.Matured(L.Ledger(parent, due'), now);
    assert l.accounts == l'.accounts;
    assert l.pending == map[] && l'.pending == map[];
  }

  // ---------- Blocks without transactions ----------

  /** What a block without transactions commits. */
  ghost function Quietly(parent: L.Accounts, due: Tickets, now: nat, number: nat, producer: Address): L.Accounts {
    E.Rewarded(E.Matured(L.Ledger(parent, due), now), number, producer, 0).accounts
  }

  lemma EmptyCommits(ctx: L.Context, number: nat, parent: L.Accounts, due: Tickets)
    ensures B.Committed(ctx, number, [], parent, due)
         == Quietly(parent, due, ctx.timestamp / 1000, number, ctx.producer)
  {
    hide E.Matured, E.Rewarded, B.Committed, B.BlockLost;
    B.CommitsItsExecutionIff(ctx, number, [], parent, due);
    B.BlockWorkIs(ctx, number, [], parent, due);
    NothingLostWithoutTxs(ctx, parent, due);
  }

  lemma NothingLostWithoutTxs(ctx: L.Context, parent: L.Accounts, due: Tickets)
    ensures B.BlockLost(ctx, [], parent, due) == {}
  {
    hide E.Matured;
  }

  /** The committed account of `a`: what it held, what it was owed, and the reward if it is the producer's. */
  lemma QuietlyAt(parent: L.Accounts, due: Tickets, now: nat, number: nat, producer: Address, a: Address)
    requires L.Total(L.Ledger(parent, due)) + E.BlockReward(number) <= U256_MAX
    ensures a in Quietly(parent, due, now, number, producer)
       <==> a in parent || a == producer || a in E.Owners(due, now)
    ensures var acc := L.Get(parent, a);
            L.Get(Quietly(parent, due, now, number, producer), a)
            == acc.(balance := acc.balance + E.Owed(due, now, a)
                               + if a == producer then E.BlockReward(number) else 0)
  {
    hide E.Owed, L.Total, E.BlockReward, Cap256;
    var l := E.Matured(L.Ledger(parent, due), now);
    if a !in E.Owners(due, now) {
      E.NothingOwed(due, now, a);
    }
    assert L.At(l, a) == E.MaturedAccount(L.Ledger(parent, due), now, a);
    E.MaturingConserves(L.Ledger(parent, due), now);
    L.CreditAdds(l, producer, E.BlockReward(number));
    assert E.ProducerShare(0) == 0 && E.TreasuryShare(0) == 0;
  }

  /** Two executions of a block without transactions commit the same accounts exactly when the same is
      returned to each delegator. */
  lemma QuietlySameIff(parent: L.Accounts, due: Tickets, due': Tickets, now: nat, number: nat, producer: Address)
    requires L.Total(L.Ledger(parent, due)) + E.BlockReward(number) <= U256_MAX
    requires L.Total(L.Ledger(parent, due')) + E.BlockReward(number) <= U256_MAX
    ensures Quietly(parent, due, now, number, producer) == Quietly(parent, due', now, number, producer)
       <==> SameReturns(parent.Keys + {producer}, due, due', now)
  {
    hide L.Total, Quietly, E.BlockReward, E.Owners, E.Owed;
    var m, m' := Quietly(parent, due, now, number, producer), Quietly(parent, due', now, number, producer);
    forall a
      ensures a in m <==> a in parent || a == producer || a in E.Owners(due, now)
      ensures a in m' <==> a in parent || a == producer || a in E.Owners(due', now)
      ensures L.Get(m, a) == L.Get(m', a) <==> E.Owed(due, now, a) == E.Owed(due', now, a)
    {
      QuietlyAt(parent, due, now, number, producer, a);
      QuietlyAt(parent, due', now, number, producer, a);
    }
    if m == m' {
      assert parent.Keys + {producer} + E.Owners(due, now) == parent.Keys + {producer} + E.Owners(due', now);
    }
    if SameReturns(parent.Keys + {producer}, due, due', now) {
      forall a ensures a in m <==> a in m' {
        assert a in parent.Keys + {producer} + E.Owners(due, now)
          <==> a in parent.Keys + {producer} + E.Owners(due', now);
      }
      assert forall a | a in m :: L.Get(m, a) == L.Get(m', a);
    }
  }

  /** The accounts a block starts from, with these undelegations and its reward, stay below the ceiling. */
  ghost predicate Ample(r: Reader, parent: Block, b: Block, due: Tickets) {
    L.Total(L.Ledger(r.accounts(parent.root), due)) + E.BlockReward(b.number) <= U256_MAX
  }

  /** The accounts that exist in the block whatever falls due. */
  function Known(r: Reader, parent: Block, b: Block): set<Address> {
    r.accounts(parent.root).Keys + {r.producer(b)}
  }

  /** A block without transactions that one execution accepted is reproduced by another exactly when the
      undelegations that fall due return the same to each delegator. */
  lemma ReproducesIff(r: Reader, scheduled: (Block, Block) -> bool, parent: Block, b: Block, due: Tickets,
                      due': Tickets)
    requires Faithful(r) && b.txs == [] && Ample(r, parent, b, DueAt(due, b)) && Ample(r, parent, b, DueAt(due', b))
    requires Reproduces(RulesOf(r, scheduled), parent, b, due)
    ensures Reproduces(RulesOf(r, scheduled), parent, b, due')
       <==> SameReturns(Known(r, parent, b), DueAt(due, b), DueAt(due', b), b.timestamp / 1000)
  {
    hide SameReturns, Quietly, L.Total, E.BlockReward, B.Committed, B.BlockWork;
    var ctx, m, now := ContextOf(r, b), r.accounts(parent.root), b.timestamp / 1000;
    assert BodyOf(r, b) == [];
    EmptyCommits(ctx, b.number, m, DueAt(due, b));
    EmptyCommits(ctx, b.number, m, DueAt(due', b));
    QuietlySameIff(m, DueAt(due, b), DueAt(due', b), now, b.number, r.producer(b));
    var one, other := Quietly(m, DueAt(due, b), now, b.number, r.producer(b)),
                      Quietly(m, DueAt(due', b), now, b.number, r.producer(b));
    assert r.accounts(r.root(one)) == one && r.accounts(r.root(other)) == other;
  }

  /** So a block without transactions in which anything is returned needs it to reach its root. */
  lemma ReturnsAreNeeded(r: Reader, scheduled: (Block, Block) -> bool, parent: Block, b: Block, due: Tickets,
                         a: Address)
    requires Faithful(r) && b.txs == [] && Ample(r, parent, b, DueAt(due, b)) && Ample(r, parent, b, map[])
    requires Reproduces(RulesOf(r, scheduled), parent, b, due) && E.Owed(DueAt(due, b), b.timestamp / 1000, a) > 0
    ensures NeedsDue(RulesOf(r, scheduled), parent, b)
  {
    hide RulesOf, Ample, E.Owed;
    assert DueAt(map[], b) == map[];
    ReproducesIff(r, scheduled, parent, b, due, map[]);
    NothingOwing(b.timestamp / 1000, a);
  }

  lemma NothingOwing(now: nat, a: Address)
    ensures E.Owed(map[], now, a) == 0
  {
    E.NothingOwed(map[], now, a);
  }

  /** An accepted block without transactions in which everything pending falls due, some of it owed to `a`. */
  ghost predicate PaysOut(r: Reader, scheduled: (Block, Block) -> bool, parent: Block, b: Block, column: Tickets,
                          a: Address) {
    && b.txs == [] && DueAt(column, b) == column && Accepts(RulesOf(r, scheduled), parent, b, column)
    && E.Owed(column, b.timestamp / 1000, a) > 0
    && Ample(r, parent, b, column) && Ample(r, parent, b, map[])
  }

  lemma PaysOutConsumes(r: Reader, scheduled: (Block, Block) -> bool, parent: Block, b: Block, column: Tickets,
                        a: Address)
    requires Faithful(r) && PaysOut(r, scheduled, parent, b, column, a)
    ensures Consumes(RulesOf(r, scheduled), parent, b, column)
  {
    hide RulesOf, Ample, E.Owed, Faithful;
    ReturnsAreNeeded(r, scheduled, parent, b, column, a);
  }

  /** With the executor's rules: two empty blocks on genesis that both pay out the same undelegations, and
      two nodes that import them in the two orders, which end on different chains for good. */
  lemma EmptySiblingsConflict(r: Reader, scheduled: (Block, Block) -> bool, genesis: Block, column: Tickets, x: Block,
                              y: Block, a: Address)
    requires Faithful(r) && genesis.number == 0 && Brief({x, y}) && x.hash != y.hash
    requires x.hash != genesis.hash && y.hash != genesis.hash
    requires PaysOut(r, scheduled, genesis, x, column, a) && PaysOut(r, scheduled, genesis, y, column, a)
    ensures var rules, start := RulesOf(r, scheduled), Start(genesis, column);
            && Valid(rules, start) && NoCollisions(start, [Import(x), Import(y)])
            && NoCollisions(start, [Import(y), Import(x)])
            && var m, n := Run(rules, start, [Import(x), Import(y)]), Run(rules, start, [Import(y), Import(x)]);
               m.head == x && n.head == y && y.hash !in m.store && x.hash !in n.store
  {
    hide RulesOf, PaysOut, Consumes, Faithful, Brief, Delays, Valid, NoCollisions, Run;
    RulesDelay(r, scheduled);
    PaysOutConsumes(r, scheduled, genesis, x, column, a);
    PaysOutConsumes(r, scheduled, genesis, y, column, a);
    ImportOrderDecides(RulesOf(r, scheduled), genesis, column, x, y);
  }

  // ---------- Branches without transactions ----------

  /** At every block re-executed, what falls due returns the same as in the recorded execution. */
  ghost predicate ReturnsSame(r: Reader, column: Tickets, q: seq<Block>, i: nat, matured: map<Hash, Tickets>)
    requires 0 < i <= |q| && (forall k | i <= k < |q| :: q[k].hash in matured)
    decreases |q| - i
  {
    i == |q| ||
    (&& SameReturns(Known(r, q[i - 1], q[i]), DueAt(matured[q[i].hash], q[i]), DueAt(column, q[i]),
                    q[i].timestamp / 1000)
     && ReturnsSame(r, NotDue(column, q[i].timestamp / 1000), q, i + 1, matured))
  }

  /** Blocks `i` on of `q` carry no transactions, were accepted as recorded, and stay below the ceiling. */
  ghost predicate EmptyFrom(r: Reader, rules: Rules, column: Tickets, q: seq<Block>, i: nat,
                            matured: map<Hash, Tickets>)
  {
    0 < i && forall k | i <= k < |q| :: EmptyAt(r, rules, column, q, k, matured)
  }

  ghost predicate EmptyAt(r: Reader, rules: Rules, column: Tickets, q: seq<Block>, k: nat, matured: map<Hash, Tickets>)
    requires 0 < k < |q|
  {
    && q[k].txs == [] && q[k].hash in matured && Reproduces(rules, q[k - 1], q[k], matured[q[k].hash])
    && Ample(r, q[k - 1], q[k], matured[q[k].hash]) && Ample(r, q[k - 1], q[k], column)
  }

  lemma {:induction false} PartIsLess(whole: Tickets, part: Tickets)
    requires part.Keys <= whole.Keys && forall t | t in part :: part[t] == whole[t]
    ensures S.MapSum(part, L.Id()) <= S.MapSum(whole, L.Id())
    decreases |whole|
  {
    hide L.Id, S.MapSum;
    if t :| t in whole {
      S.MapSumWithout(whole, t, L.Id());
      if t in part {
        S.MapSumWithout(part, t, L.Id());
        PartIsLess(whole - {t}, part - {t});
      } else {
        PartIsLess(whole - {t}, part);
      }
    } else {
      assert part == map[] && whole == map[];
    }
  }

  lemma PartIsAmple(r: Reader, parent: Block, b: Block, column: Tickets, now: nat)
    requires Ample(r, parent, b, column)
    ensures Ample(r, parent, b, Due(column, now)) && Ample(r, parent, b, NotDue(column, now))
  {
    hide S.MapSum, L.Worth, E.BlockReward;
    PartIsLess(column, Due(column, now));
    PartIsLess(column, NotDue(column, now));
  }

  lemma EmptyLeaves(r: Reader, scheduled: (Block, Block) -> bool, column: Tickets, b: Block, root: Hash)
    requires b.txs == []
    ensures ColumnAfter(RulesOf(r, scheduled), column, b, root) == NotDue(column, b.timestamp / 1000)
  {
    hide B.BlockWork, E.MaturedAccount, E.Owners;
    ExecutesTheBlock(r, scheduled, column, b, root);
    assert BodyOf(r, b) == [];
    var ctx, m := ContextOf(r, b), r.accounts(root);
    B.BlockWorkIs(ctx, b.number, [], m, column);
  }

  lemma LessColumn(r: Reader, rules: Rules, column: Tickets, q: seq<Block>, i: nat, matured: map<Hash, Tickets>,
                   now: nat)
    requires EmptyFrom(r, rules, column, q, i, matured)
    ensures EmptyFrom(r, rules, NotDue(column, now), q, i + 1, matured)
  {
    hide Ample, Reproduces;
    forall k | i + 1 <= k < |q| ensures EmptyAt(r, rules, NotDue(column, now), q, k, matured) {
      assert EmptyAt(r, rules, column, q, k, matured);
      PartIsAmple(r, q[k - 1], q[k], column, now);
    }
  }

  /** A branch without transactions re-executes exactly when, at each of its blocks, what falls due returns
      to each delegator what it returned when the block was accepted. */
  lemma {:induction false} ReplayIff(r: Reader, scheduled: (Block, Block) -> bool, column: Tickets, q: seq<Block>,
                                     i: nat, matured: map<Hash, Tickets>)
    requires Faithful(r) && 0 < i <= |q| && EmptyFrom(r, RulesOf(r, scheduled), column, q, i, matured)
    ensures forall k | i <= k < |q| :: q[k].hash in matured
    ensures Replay(RulesOf(r, scheduled), column, q, i).ok <==> ReturnsSame(r, column, q, i, matured)
    decreases |q| - i
  {
    hide RulesOf, Reproduces, ColumnAfter, SameReturns, Ample, Known, Faithful, DueAt;
    var rules := RulesOf(r, scheduled);
    assert forall k | i <= k < |q| :: EmptyAt(r, rules, column, q, k, matured);
    if i < |q| {
      var now := q[i].timestamp / 1000;
      assert EmptyAt(r, rules, column, q, i, matured);
      ReplayStep(rules, column, q, i);
      EmptyLeaves(r, scheduled, column, q[i], q[i - 1].root);
      AmpleDue(r, q[i - 1], q[i], matured[q[i].hash]);
      AmpleDue(r, q[i - 1], q[i], column);
      SameDueReproduces(r, scheduled, q[i - 1], q[i], column);
      ReproducesIff(r, scheduled, q[i - 1], q[i], matured[q[i].hash], column);
      LessColumn(r, rules, column, q, i, matured, now);
      ReplayIff(r, scheduled, NotDue(column, now), q, i + 1, matured);
    }
  }

  lemma AmpleDue(r: Reader, parent: Block, b: Block, column: Tickets)
    requires Ample(r, parent, b, column)
    ensures Ample(r, parent, b, DueAt(column, b))
  {
    PartIsAmple(r, parent, b, column, b.timestamp / 1000);
  }

  /** Execution takes from the column only what is due. */
  lemma SameDueReproduces(r: Reader, scheduled: (Block, Block) -> bool, parent: Block, b: Block, column: Tickets)
    ensures Reproduces(RulesOf(r, scheduled), parent, b, DueAt(column, b))
         == Reproduces(RulesOf(r, scheduled), parent, b, column)
  {
    hide B.BlockWork, B.Committed;
    DueOnce(column, b);
  }

  // ---------- The head and branches without transactions ----------

  /** The blocks that importing `b` would re-execute carry no transactions and stay below the ceiling. */
  ghost predicate EmptyTo(r: Reader, n: Node, kept: Node, b: Block)
    requires Tree(n.store, n.genesis) && n.head.hash in n.store && b.parent in n.store
  {
    var q := ChainTo(n, b);
    forall k | 0 < k && Fork(Canonical(n), q) <= k < |q| ::
      && q[k].txs == [] && Ample(r, q[k - 1], q[k], kept.column)
      && (q[k].hash in kept.matured ==> Ample(r, q[k - 1], q[k], kept.matured[q[k].hash]))
  }

  lemma EmptyToFrom(r: Reader, rules: Rules, n: Node, b: Block)
    requires Valid(rules, n) && b.hash !in n.store && b.parent in n.store
    requires Accepts(rules, n.store[b.parent], b, DueAt(n.column, b))
    requires EmptyTo(r, n, Kept(rules, n, b, n.store[b.parent].root), b)
    ensures var kept, q := Kept(rules, n, b, n.store[b.parent].root), ChainTo(n, b);
            var i := Fork(Canonical(n), q);
            0 < i <= |q| && EmptyFrom(r, rules, kept.column, q, i, kept.matured)
  {
    hide AllAccepted, ColumnAfter, DueAt, Tree, Path, FinalIsCanonical, Fork, Accepts, Ample, Reproduces, Linked;
    var kept, q := Kept(rules, n, b, n.store[b.parent].root), ChainTo(n, b);
    StoringIsSound(rules, n, b);
    AcceptsMeans(rules, n.store[b.parent], b, DueAt(n.column, b));
    StoreBlock(n.store, n.genesis, b);
    ForkIsLate(n, b);
    forall k | Fork(Canonical(n), q) <= k < |q| ensures EmptyAt(r, rules, kept.column, q, k, kept.matured) {
      RecordedReproduces(rules, kept.store, n.genesis, kept.matured, b.hash, k);
    }
  }

  /** What falls due along the branch of `b`, from where it leaves the head's chain and on the column that
      executing `b` leaves, returns what it returned when each block was accepted. */
  ghost predicate ReturnsSameTo(r: Reader, rules: Rules, n: Node, b: Block)
    requires Tree(n.store, n.genesis) && n.head.hash in n.store && b.parent in n.store
  {
    var kept, q := Kept(rules, n, b, n.store[b.parent].root), ChainTo(n, b);
    var i := Fork(Canonical(n), q);
    0 < i && (forall k | i <= k < |q| :: q[k].hash in kept.matured) && ReturnsSame(r, kept.column, q, i, kept.matured)
  }

  /** Whether an import keeps the head the best stored block can be told beforehand, for branches without
      transactions: exactly when it is not contested or what falls due along the branch returns the same. */
  lemma EmptyImportKeepsBestIff(r: Reader, scheduled: (Block, Block) -> bool, n: Node, b: Block)
    requires Faithful(r) && Valid(RulesOf(r, scheduled), n) && NoCollisions(n, [Import(b)])
    requires HeadIsBest(n) && n.fin.height == 0
    requires b.parent in n.store ==> EmptyTo(r, n, Kept(RulesOf(r, scheduled), n, b, n.store[b.parent].root), b)
    ensures var rules := RulesOf(r, scheduled);
            HeadIsBest(Next(rules, n, Import(b)))
            <==> (Contested(rules, n, b) ==> ReturnsSameTo(r, rules, n, b))
  {
    hide RulesOf, Faithful, NoCollisions, HeadIsBest, EmptyTo, EmptyFrom, AllAccepted, Replay, ColumnAfter, DueAt;
    hide Tree, Path, FinalIsCanonical, Fork, Accepts, Better, ReturnsSame;
    var rules := RulesOf(r, scheduled);
    StepKeepsBestIff(rules, n, Import(b));
    if Contested(rules, n, b) {
      var kept, q := Kept(rules, n, b, n.store[b.parent].root), ChainTo(n, b);
      EmptyToFrom(r, rules, n, b);
      ReplayIff(r, scheduled, kept.column, q, Fork(Canonical(n), q), kept.matured);
    }
  }

  // ---------- The shared column under the executor ----------

  /** An empty block that undelegations fall due in, drafted by its producer, is turned away. */
  lemma EmptyDraftIsTurnedAway(r: Reader, scheduled: (Block, Block) -> bool, n: Node, b: Block, a: Address)
    requires Faithful(r) && Valid(RulesOf(r, scheduled), n) && b.parent == n.head.hash && b.txs == []
    requires Accepts(RulesOf(r, scheduled), n.head, b, DueAt(n.column, b))
    requires E.Owed(DueAt(n.column, b), b.timestamp / 1000, a) > 0
    requires Ample(r, n.head, b, DueAt(n.column, b)) && Ample(r, n.head, b, map[])
    ensures var rules := RulesOf(r, scheduled);
            && JudgeProduced(rules, n, b).Extended?
            && JudgeProduced(rules, Next(rules, n, Draft(b)), b).Mismatched?
  {
    hide RulesOf, Ample, E.Owed, Faithful, Valid, DueAt, JudgeProduced, Next;
    RulesDelay(r, scheduled);
    DueOnce(n.column, b);
    ReturnsAreNeeded(r, scheduled, n.head, b, DueAt(n.column, b), a);
    DraftedIsTurnedAway(RulesOf(r, scheduled), n, b);
  }

  /** A better branch whose first block pays out everything pending and was stored beside the head no longer
      re-executes when its second block arrives. */
  lemma EmptyBranchDiverges(r: Reader, scheduled: (Block, Block) -> bool, genesis: Block, column: Tickets, k: Block,
                            x: Block, y: Block, a: Address)
    requires Faithful(r) && genesis.number == 0 && Brief({k, x, y})
    requires k.hash != x.hash && k.hash != genesis.hash && x.hash != genesis.hash
    requires y.hash !in {k.hash, x.hash, genesis.hash}
    requires Accepts(RulesOf(r, scheduled), genesis, k, map[]) && DueAt(column, k) == map[] && !Better(x, k)
    requires PaysOut(r, scheduled, genesis, x, column, a) && Accepts(RulesOf(r, scheduled), x, y, map[])
    ensures var rules := RulesOf(r, scheduled);
            && Valid(rules, Start(genesis, column)) && Valid(rules, Imported(rules, Start(genesis, column), k))
            && var n := Imported(rules, Imported(rules, Start(genesis, column), k), x);
               && Valid(rules, n) && Judge(rules, n, y).Diverged?
               && Better(y, n.head) && RetainsFinal(n, y) && Imported(rules, n, y).head == n.head == k
  {
    hide RulesOf, PaysOut, Consumes, Faithful, Brief, Delays, Imported, Judge, Accepts, DueAt;
    RulesDelay(r, scheduled);
    PaysOutConsumes(r, scheduled, genesis, x, column, a);
    BetterBranchDiverges(RulesOf(r, scheduled), genesis, column, k, x, y);
  }

  // ---------- Blocks with transactions ----------

  /** With transactions the returns need not be the same: a block of one failing transaction reaches the
      same root whether undelegations of others fall due in it or not. */
  lemma OtherReturnsSameRoot(r: Reader, scheduled: (Block, Block) -> bool, parent: Block, b: Block, due: Tickets,
                             sender: Address, price: nat, a: Address)
    requires var ctx, m := ContextOf(r, b), r.accounts(parent.root);
             && BodyOf(r, b) == [F.Exit(ctx, L.Ledger(m, map[]), sender, price)]
             && L.Get(m, sender).stake == 0 && 21_000 * price <= L.Get(m, sender).balance
    requires E.Owners(DueAt(due, b), b.timestamp / 1000) !! {sender, r.producer(b), E.TREASURY}
    requires E.Owed(DueAt(due, b), b.timestamp / 1000, a) > 0
    ensures !SameReturns(Known(r, parent, b), DueAt(due, b), DueAt(map[], b), b.timestamp / 1000)
    ensures Reproduces(RulesOf(r, scheduled), parent, b, due) == Reproduces(RulesOf(r, scheduled), parent, b, map[])
    ensures OutcomeOf(r, b, parent.root, due).created == OutcomeOf(r, b, parent.root, map[]).created == map[]
  {
    hide E.Owed, E.Owners, B.Committed, B.BlockWork, F.Exit, L.Get, Known;
    assert DueAt(map[], b) == map[];
    NothingOwing(b.timestamp / 1000, a);
    F.FailureLosesReturns(ContextOf(r, b), b.number, r.accounts(parent.root), DueAt(due, b), sender, price);
  }
}
