/** Blocks that hold a failed transaction: what their commit loses, and what their stake cap lets through. */
module FailedTransactions {
  import opened Common
  import opened AccountStore
  import opened Blocks
  import opened Execution
  import opened Gas
  import opened Ledger
  import opened StakeCap
  import opened Sums
  import opened TicketColumn

  // ---------- A transaction that fails ----------

  /** A validator exit, which fails for a sender without a stake. */
  function Exit(ctx: Context, l: Ledger, sender: Address, price: nat): Tx {
    Tx(ValidatorExit, ctx.chainId, At(l, sender).nonce, None, 0, [], 21_000, price, Some(sender))
  }

  lemma ExitFails(ctx: Context, root: Accounts, w: Work, sender: Address, price: nat)
    requires At(w.ledger, sender).stake == 0 && 21_000 * price <= At(w.ledger, sender).balance
    ensures var tx := Exit(ctx, w.ledger, sender, price);
            && Fails(ctx, tx, w.ledger, CapHits(ctx, root, tx, w))
            && tx.GasCost() <= At(w.ledger, sender).balance
            && ApplyWork(ctx, root, tx, w)
               == Work(Abort(ctx, tx, sender, w.ledger), Changed(root, w.ledger.accounts) - {sender, ctx.producer})
  {
    hide Changed, Abort, Cap256;
    var tx := Exit(ctx, w.ledger, sender, price);
    assert tx.IntrinsicGas() == 21_000;
    assert tx.GasCost() == 21_000 * price by { assert tx.GasCost() == price * 21_000; }
    assert Validate(ctx, tx, w.ledger).None?;
    assert Effect(ctx, tx, sender, Begin(tx, sender, w.ledger), CapHits(ctx, root, tx, w)).Failed?;
  }

  // ---------- A commit that loses a payment ----------

  /** A payment of `value` to the producer. */
  function Payout(ctx: Context, l: Ledger, sender: Address, value: nat): Tx {
    Tx(Transfer, ctx.chainId, At(l, sender).nonce, Some(ctx.producer), value, [], 21_000, 1, Some(sender))
  }

  lemma PayoutRuns(ctx: Context, root: Accounts, w: Work, sender: Address, value: nat)
    requires value > 0 && sender != ctx.producer && 21_000 + value <= At(w.ledger, sender).balance <= U256_MAX
    ensures var tx, after := Payout(ctx, w.ledger, sender, value), At(w.ledger, sender);
            && Validate(ctx, tx, w.ledger).None?
            && var r := ApplyWork(ctx, root, tx, w);
               && r.stale == w.stale - {sender, ctx.producer}
               && At(r.ledger, sender).balance == after.balance - value - 21_000
               && At(r.ledger, sender).stake == after.stake && At(r.ledger, sender).delegated == after.delegated
               && r.ledger.pending == w.ledger.pending
               && r.ledger.accounts.Keys == w.ledger.accounts.Keys + {sender, ctx.producer}
               && forall a | a in r.ledger.accounts && a !in {sender, ctx.producer} ::
                    a in w.ledger.accounts && r.ledger.accounts[a] == w.ledger.accounts[a]
  {
    var tx := Payout(ctx, w.ledger, sender, value);
    assert tx.IntrinsicGas() == 21_000 && tx.GasCost() == 21_000;
    assert Refund(21_000, 21_000, 1) == 0 && Payment(21_000, 1) == 21_000;
  }

  /** The payment of one account and the failure of another, in one block: reads see the payment, but what
      is committed gives the payer back both the amount and the gas, so it is worth that much more, and the
      payer's old nonce, so the payment validates again. */
  lemma CommitLosesPayment(ctx: Context, number: nat, parent: Accounts, pending: Tickets, payer: Address,
                           other: Address, value: nat)
    requires forall t | t in pending :: t.unlockAt > ctx.timestamp / 1000
    requires payer != other && {payer, other} !! {ctx.producer, TREASURY} && payer in parent && value > 0
    requires 21_000 + value <= parent[payer].balance <= U256_MAX
    requires Get(parent, other).stake == 0 && 21_000 <= Get(parent, other).balance
    ensures var l := Ledger(parent, pending);
            var txs := [Payout(ctx, l, payer, value), Exit(ctx, l, other, 1)];
            var seen, kept := BlockWork(ctx, number, txs, parent, pending).ledger.accounts,
                              Committed(ctx, number, txs, parent, pending);
            && BlockLost(ctx, txs, parent, pending) == {payer}
            && Get(kept, payer) == parent[payer]
            && Worth(kept) == Worth(seen) + value + 21_000
            && Validate(ctx, txs[0], Ledger(kept, pending)).None?
  {
    hide RunWork, Fees, Matured, Worth, Rewarded, TrieOf, ApplyWork, Caps;
    var l := Ledger(parent, pending);
    var txs := [Payout(ctx, l, payer, value), Exit(ctx, l, other, 1)];
    MaturedAlready(l, ctx.timestamp / 1000);
    BlockWorkIs(ctx, number, txs, parent, pending);
    var run := PaymentThenExit(ctx, parent, pending, payer, other, value);
    var seen := BlockWork(ctx, number, txs, parent, pending).ledger.accounts;
    FrameRewards(run.ledger, number, ctx.producer, BlockFees(ctx, txs, parent, pending), payer);
    TrieWorth(parent, seen, {payer});
    assert Only(seen, {payer}) == map[payer := seen[payer]] && Only(parent, {payer}) == map[payer := parent[payer]];
    WorthOfOne(payer, seen[payer]);
    WorthOfOne(payer, parent[payer]);
    TrieOfOne(parent, seen, payer);
    assert txs[0].IntrinsicGas() == 21_000 && txs[0].GasCost() == 21_000;
  }

  lemma PaymentThenExit(ctx: Context, parent: Accounts, pending: Tickets, payer: Address, other: Address,
                        value: nat) returns (run: Work)
    requires payer != other && {payer, other} !! {ctx.producer, TREASURY} && payer in parent && value > 0
    requires 21_000 + value <= parent[payer].balance <= U256_MAX
    requires Get(parent, other).stake == 0 && 21_000 <= Get(parent, other).balance
    ensures var l := Ledger(parent, pending);
            run == RunWork(ctx, parent, [Payout(ctx, l, payer, value), Exit(ctx, l, other, 1)], Work(l, {}))
    ensures run.stale == {payer} && payer in run.ledger.accounts
    ensures Holdings(run.ledger.accounts[payer]) + value + 21_000 == Holdings(parent[payer])
  {
    hide ApplyWork;
    var l := Ledger(parent, pending);
    var paid, failed := Payout(ctx, l, payer, value), Exit(ctx, l, other, 1);
    var w := ApplyWork(ctx, parent, paid, Work(l, {}));
    PayoutRuns(ctx, parent, Work(l, {}), payer, value);
    assert Get(w.ledger.accounts, other) == Get(parent, other);
    assert failed == Exit(ctx, w.ledger, other, 1);
    ExitFails(ctx, parent, w, other, 1);
    assert Changed(parent, w.ledger.accounts) - {other, ctx.producer} == {payer};
    run := ApplyWork(ctx, parent, failed, w);
    assert [paid, failed][..1] == [paid] && [paid][..0] == [];
    assert RunWork(ctx, parent, [paid], Work(l, {})) == w;
  }

  lemma WorthOfOne(a: Address, acc: Account)
    ensures Worth(map[a := acc]) == Holdings(acc)
  {
    MapSumWithout(map[a := acc], a, Holdings);
    assert map[a := acc] - {a} == map[];
    NothingWorth();
  }

  lemma TrieOfOne(root: Accounts, view: Accounts, a: Address)
    requires a in root
    ensures TrieOf(root, view, {a}) == view[a := root[a]]
  {
  }

  // ---------- A cap that reads a stale trie ----------

  function Delegation(ctx: Context, l: Ledger, sender: Address, validator: Address, value: nat): Tx {
    Tx(Delegate, ctx.chainId, At(l, sender).nonce, Some(validator), value, [], 63_000, 0, Some(sender))
  }

  /** A delegation that fits the room shown by the working trie completes. */
  lemma DelegationRuns(ctx: Context, root: Accounts, w: Work, sender: Address, validator: Address, value: nat)
    requires sender != validator && sender != ctx.producer
    requires var acc := At(w.ledger, sender);
             acc.delegatedTo.None? && acc.delegated == 0 && MIN_DELEGATION <= value <= acc.balance <= U256_MAX
    requires At(w.ledger, validator).stake > 0 && At(w.ledger, ctx.producer).balance <= U256_MAX
    requires var begun := Put(w.ledger, sender, Bumped(At(w.ledger, sender)));
             var trie := TrieOf(root, begun.accounts, w.stale - {sender});
             && 0 < NetworkStake(trie) && NetworkStake(trie) + value < U256_MAX
             && 4 * value <= Room(begun, trie, validator)
    ensures var acc := Bumped(At(w.ledger, sender));
            var after := acc.(balance := acc.balance - value, delegatedTo := Some(validator), delegated := value);
            ApplyWork(ctx, root, Delegation(ctx, w.ledger, sender, validator, value), w)
            == Work(Put(Put(w.ledger, sender, after), ctx.producer, At(w.ledger, ctx.producer)),
                    w.stale - {sender, ctx.producer})
  {
    hide NetworkStake, BehindIn, TrieOf, CapRefuses, Room;
    var tx := Delegation(ctx, w.ledger, sender, validator, value);
    assert tx.IntrinsicGas() == 21_000 && tx.GasCost() == 0;
    assert Validate(ctx, tx, w.ledger).None?;
    var begun := BeginWork(tx, sender, w);
    var acc := Bumped(At(w.ledger, sender));
    assert begun.ledger.accounts == w.ledger.accounts[sender := acc];
    assert begun.ledger == Put(w.ledger, sender, acc);
    CapLetsThroughIff(begun.ledger, begun.Trie(root), validator, value);
    assert !Capped(root, tx, sender, begun);
    var after := acc.(balance := acc.balance - value, delegatedTo := Some(validator), delegated := value);
    var done := Effect(ctx, tx, sender, begun.ledger, false);
    assert done.ledger.accounts == w.ledger.accounts[sender := after];
    assert done == Done(Put(w.ledger, sender, after), 63_000, true);
    assert Refund(63_000, 63_000, 0) == 0 && Payment(63_000, 0) == 0;
    Settles(ctx, tx, sender, done.ledger);
    assert w.stale - {sender} - {sender, ctx.producer} == w.stale - {sender, ctx.producer};
  }

  function Bumped(acc: Account): Account {
    acc.(nonce := if acc.nonce < U64 - 1 then acc.nonce + 1 else U64 - 1)
  }

  lemma Settles(ctx: Context, tx: Tx, sender: Address, l: Ledger)
    requires tx.kind == Delegate && tx.gasLimit == 63_000 && tx.gasPrice == 0 && sender in l.accounts
    requires At(l, sender).balance <= U256_MAX && At(l, ctx.producer).balance <= U256_MAX
    ensures Finish(ctx, tx, sender, l, 63_000) == Put(l, ctx.producer, At(l, ctx.producer))
  {
    assert Refund(63_000, 63_000, 0) == 0 && Payment(63_000, 0) == 0;
    assert Credit(l, sender, 0).accounts == l.accounts;
  }

  /** `m` has `x` more delegated to the validator than `l`, and is otherwise the same in stakes. */
  ghost predicate StakesMore(l: Ledger, m: Ledger, validator: Address, x: int) {
    && At(m, validator).stake == At(l, validator).stake
    && NetworkStake(m.accounts) == NetworkStake(l.accounts) + x
    && BehindIn(m.accounts, validator) == BehindIn(l.accounts, validator) + x
  }

  /** The sender can delegate `x`, and has not delegated anything. */
  predicate Holder(acc: Account, x: nat) {
    acc.delegatedTo.None? && acc.delegated == 0 && MIN_DELEGATION <= x <= acc.balance <= U256_MAX
  }

  function Delegator(acc: Account, validator: Address, x: nat): Account
    requires x <= acc.balance
  {
    Bumped(acc).(balance := acc.balance - x, delegatedTo := Some(validator), delegated := x)
  }

  lemma DelegatorStakes(l: Ledger, a: Address, validator: Address, x: nat)
    requires Holder(At(l, a), x) && a != validator
    ensures StakesMore(l, Put(l, a, Delegator(At(l, a), validator, x)), validator, x)
  {
    hide MapSum, NetworkStake, BehindIn;
    StakeTotals(l, a, Delegator(At(l, a), validator, x), validator);
  }

  /** Exiting at price zero leaves every stake where it was. */
  lemma ExitKeepsStakes(ctx: Context, l: Ledger, sender: Address, validator: Address)
    requires Exit(ctx, l, sender, 0).GasCost() <= At(l, sender).balance
    ensures SameStakes(l, Abort(ctx, Exit(ctx, l, sender, 0), sender, l), validator)
    ensures forall a | a !in {sender, ctx.producer} ::
              At(Abort(ctx, Exit(ctx, l, sender, 0), sender, l), a) == At(l, a)
  {
    hide SameStakes, Cap256;
    var charged := Debit(l, sender, 0);
    PutKeepsStakes(l, sender, At(l, sender).(balance := At(l, sender).balance - 0), validator);
    CreditKeepsStakes(charged, ctx.producer, 0, validator);
    var paid := Credit(charged, ctx.producer, 0);
    PutKeepsStakes(paid, sender, Bumped(At(paid, sender)), validator);
    SameChain(l, charged, paid, validator);
    SameChain(l, paid, Bump(paid, sender), validator);
  }

  lemma SameChain(l: Ledger, m: Ledger, n: Ledger, validator: Address)
    requires SameStakes(l, m, validator) && SameStakes(m, n, validator)
    ensures SameStakes(l, n, validator)
  {
  }

  /** The first delegation, and its effect on the stakes. */
  lemma FirstDelegation(ctx: Context, root: Accounts, pending: Tickets, a: Address, validator: Address, x: nat)
    returns (w: Work)
    requires a != validator && a != ctx.producer && Holder(Get(root, a), x)
    requires Get(root, validator).stake > 0 && Get(root, ctx.producer).balance <= U256_MAX
    requires 0 < NetworkStake(root) && NetworkStake(root) + x < U256_MAX
    requires 4 * x <= Room(Ledger(root, pending), root, validator)
    ensures var l := Ledger(root, pending);
            && w == ApplyWork(ctx, root, Delegation(ctx, l, a, validator, x), Work(l, {}))
            && w.stale == {} && StakesMore(l, w.ledger, validator, x)
            && At(w.ledger, a) == Delegator(Get(root, a), validator, x)
            && w.ledger.accounts.Keys == root.Keys + {a, ctx.producer}
            && forall b | b != a :: At(w.ledger, b) == Get(root, b)
  {
    hide NetworkStake, BehindIn, TrieOf, ApplyWork;
    var l := Ledger(root, pending);
    var begun := Put(l, a, Bumped(At(l, a)));
    PutKeepsStakes(l, a, Bumped(At(l, a)), validator);
    TrieOfFresh(root, begun.accounts);
    assert {} - {a} == {};
    DelegationRuns(ctx, root, Work(l, {}), a, validator, x);
    var after := Delegator(At(l, a), validator, x);
    w := ApplyWork(ctx, root, Delegation(ctx, l, a, validator, x), Work(l, {}));
    var mid := Put(l, a, after);
    DelegatorStakes(l, a, validator, x);
    assert w.ledger == Put(mid, ctx.producer, At(l, ctx.producer));
    PutKeepsStakes(mid, ctx.producer, At(l, ctx.producer), validator);
  }

  /** A later delegation that finds one account stale: the trie shows the room without that account's. */
  lemma SecondDelegation(ctx: Context, root: Accounts, w: Work, a: Address, e: Address, validator: Address, x: nat)
    requires a in root && w.stale == {a} && Holder(root[a], x) && At(w.ledger, a) == Delegator(root[a], validator, x)
    requires e != a && e != validator && a != validator && e != ctx.producer && a != ctx.producer
    requires Holder(At(w.ledger, e), x) && At(w.ledger, ctx.producer).balance <= U256_MAX
    requires At(w.ledger, validator).stake > 0
    requires StakesMore(Ledger(root, w.ledger.pending), w.ledger, validator, x)
    requires 0 < NetworkStake(root) && NetworkStake(root) + x < U256_MAX
    requires 4 * x <= Room(Ledger(root, w.ledger.pending), root, validator)
    ensures var r := ApplyWork(ctx, root, Delegation(ctx, w.ledger, e, validator, x), w);
            && At(r.ledger, e) == Delegator(At(w.ledger, e), validator, x) && At(r.ledger, a) == At(w.ledger, a)
            && StakesMore(w.ledger, r.ledger, validator, x)
  {
    hide NetworkStake, BehindIn, TrieOf, ApplyWork;
    var begun := Put(w.ledger, e, Bumped(At(w.ledger, e)));
    PutKeepsStakes(w.ledger, e, Bumped(At(w.ledger, e)), validator);
    assert {a} - {e} == {a};
    TrieOfOne(root, begun.accounts, a);
    StakeTotals(begun, a, root[a], validator);
    assert Put(begun, a, root[a]).accounts == TrieOf(root, begun.accounts, {a});
    DelegationRuns(ctx, root, w, e, validator, x);
    var mid := Put(w.ledger, e, Delegator(At(w.ledger, e), validator, x));
    DelegatorStakes(w.ledger, e, validator, x);
    PutKeepsStakes(mid, ctx.producer, At(w.ledger, ctx.producer), validator);
  }

  /** The failure between them leaves exactly the first delegator stale. */
  lemma FailureBetween(ctx: Context, root: Accounts, w: Work, a: Address, other: Address, validator: Address)
    returns (r: Work)
    requires w.ledger.accounts.Keys == root.Keys + {a, ctx.producer} && a !in {other, ctx.producer} && a in root
    requires At(w.ledger, a) != root[a] && (forall b | b != a :: At(w.ledger, b) == Get(root, b))
    requires At(w.ledger, other).stake == 0 && At(w.ledger, ctx.producer).balance <= U256_MAX
    requires validator != other && validator != ctx.producer
    ensures r == ApplyWork(ctx, root, Exit(ctx, w.ledger, other, 0), w)
    ensures r.stale == {a} && SameStakes(w.ledger, r.ledger, validator) && r.ledger.pending == w.ledger.pending
    ensures forall b | b !in {other, ctx.producer} :: At(r.ledger, b) == At(w.ledger, b)
    ensures At(r.ledger, ctx.producer).balance <= U256_MAX
  {
    hide NetworkStake, BehindIn, ApplyWork, Abort;
    ExitFails(ctx, root, w, other, 0);
    ExitKeepsStakes(ctx, w.ledger, other, validator);
    r := ApplyWork(ctx, root, Exit(ctx, w.ledger, other, 0), w);
    assert Changed(root, w.ledger.accounts) - {other, ctx.producer} == {a} by {
      forall b | b in Changed(root, w.ledger.accounts) && b != a ensures b == ctx.producer {
        assert At(w.ledger, b) == Get(root, b);
      }
    }
    AbortPays(ctx, w.ledger, other);
  }

  lemma AbortPays(ctx: Context, l: Ledger, sender: Address)
    requires At(l, ctx.producer).balance <= U256_MAX
    requires Exit(ctx, l, sender, 0).GasCost() <= At(l, sender).balance
    ensures var r := Abort(ctx, Exit(ctx, l, sender, 0), sender, l);
            At(r, ctx.producer).balance <= U256_MAX && r.pending == l.pending
  {
  }

  /** Room for one delegation of `x` and not for two: with a failed transaction between them both complete,
      and the validator ends up with more than a fifth of the network stake. */
  lemma StaleTrieExceedsCap(ctx: Context, root: Accounts, pending: Tickets, validator: Address, a: Address,
                            other: Address, e: Address, x: nat)
    requires a != other && a != e && other != e && validator !in {a, other, e} && ctx.producer !in {a, other, e}
    requires a in root && validator != ctx.producer
    requires Holder(root[a], x) && Holder(Get(root, e), x) && Get(root, other).stake == 0
    requires Get(root, validator).stake > 0 && Get(root, ctx.producer).balance <= U256_MAX
    requires 0 < NetworkStake(root) && NetworkStake(root) + x < U256_MAX
    requires 4 * x <= Room(Ledger(root, pending), root, validator) < 8 * x
    ensures var l := Ledger(root, pending);
            var txs := [Delegation(ctx, l, a, validator, x), Exit(ctx, l, other, 0),
                        Delegation(ctx, l, e, validator, x)];
            var end := RunWork(ctx, root, txs, Work(l, {})).ledger;
            && At(end, a).delegated == At(end, e).delegated == x
            && !CapHolds(end, validator)
  {
    hide NetworkStake, BehindIn, TrieOf, ApplyWork, Abort;
    var l := Ledger(root, pending);
    var first, fails, second := Delegation(ctx, l, a, validator, x), Exit(ctx, l, other, 0),
                                Delegation(ctx, l, e, validator, x);
    var w1 := FirstDelegation(ctx, root, pending, a, validator, x);
    var w2 := FailureBetween(ctx, root, w1, a, other, validator);
    assert fails == Exit(ctx, w1.ledger, other, 0) && second == Delegation(ctx, w2.ledger, e, validator, x);
    SecondDelegation(ctx, root, w2, a, e, validator, x);
    var txs := [first, fails, second];
    assert txs[..2] == [first, fails] && [first, fails][..1] == [first] && [first][..0] == [];
    assert RunWork(ctx, root, [first], Work(l, {})) == w1;
    assert RunWork(ctx, root, [first, fails], Work(l, {})) == w2;
  }

  // ---------- A commit that loses what was returned ----------

  /** The ledgers agree on every account outside `apart`. */
  ghost predicate Agree(l: Ledger, m: Ledger, apart: set<Address>) {
    forall x | x !in apart :: SameAt(l.accounts, m.accounts, x)
  }

  lemma AgreeAt(l: Ledger, m: Ledger, apart: set<Address>, a: Address)
    requires Agree(l, m, apart) && a !in apart
    ensures At(l, a) == At(m, a)
  {
    assert SameAt(l.accounts, m.accounts, a);
  }

  lemma PutAgrees(l: Ledger, m: Ledger, apart: set<Address>, a: Address, acc: Account)
    requires Agree(l, m, apart)
    ensures Agree(Put(l, a, acc), Put(m, a, acc), apart)
  {
  }

  lemma CreditAgrees(l: Ledger, m: Ledger, apart: set<Address>, a: Address, x: nat)
    requires Agree(l, m, apart) && a !in apart
    ensures Agree(Credit(l, a, x), Credit(m, a, x), apart)
  {
    hide Agree, At, Put, Cap256;
    AgreeAt(l, m, apart, a);
    PutAgrees(l, m, apart, a, At(l, a).(balance := Cap256(At(l, a).balance + x)));
  }

  lemma AbortAgrees(ctx: Context, tx: Tx, sender: Address, l: Ledger, m: Ledger, apart: set<Address>)
    requires Agree(l, m, apart) && {sender, ctx.producer} !! apart && tx.GasCost() <= At(l, sender).balance
    ensures tx.GasCost() <= At(m, sender).balance
    ensures Agree(Abort(ctx, tx, sender, l), Abort(ctx, tx, sender, m), apart)
  {
    hide Agree, At, Put, Credit, Tx.GasCost;
    AgreeAt(l, m, apart, sender);
    PutAgrees(l, m, apart, sender, At(l, sender).(balance := At(l, sender).balance - tx.GasCost()));
    var l1, m1 := Debit(l, sender, tx.GasCost()), Debit(m, sender, tx.GasCost());
    CreditAgrees(l1, m1, apart, ctx.producer, tx.GasCost());
    var l2, m2 := Credit(l1, ctx.producer, tx.GasCost()), Credit(m1, ctx.producer, tx.GasCost());
    AgreeAt(l2, m2, apart, sender);
    PutAgrees(l2, m2, apart, sender, Bumped(At(l2, sender)));
  }

  lemma RewardsAgree(l: Ledger, m: Ledger, apart: set<Address>, number: nat, producer: Address, fees: nat)
    requires Agree(l, m, apart) && producer !in apart && TREASURY !in apart
    ensures Agree(Rewarded(l, number, producer, fees), Rewarded(m, number, producer, fees), apart)
  {
    hide Agree, Credit, BlockReward, ProducerShare, TreasuryShare;
    var reward := BlockReward(number) + ProducerShare(fees);
    CreditAgrees(l, m, apart, producer, reward);
    CreditAgrees(Credit(l, producer, reward), Credit(m, producer, reward), apart, TREASURY, TreasuryShare(fees));
  }

  lemma MaturedAgrees(parent: Accounts, due: Tickets, now: nat)
    ensures Agree(Matured(Ledger(parent, due), now), Ledger(parent, map[]), Owners(due, now))
  {
    hide Owed, Owners;
    forall a | a !in Owners(due, now) ensures Owed(due, now, a) == 0 {
      NothingOwed(due, now, a);
    }
  }

  /** What a block with nothing but a failing exit leaves, whatever falls due in it. */
  lemma ExitBlock(ctx: Context, number: nat, parent: Accounts, due: Tickets, sender: Address, price: nat)
    requires sender !in Owners(due, ctx.timestamp / 1000)
    requires Get(parent, sender).stake == 0 && 21_000 * price <= Get(parent, sender).balance
    ensures var l := Matured(Ledger(parent, due), ctx.timestamp / 1000);
            var tx := Exit(ctx, Ledger(parent, map[]), sender, price);
            && tx.GasCost() <= At(l, sender).balance
            && BlockFees(ctx, [tx], parent, due) == 21_000 * price
            && BlockWork(ctx, number, [tx], parent, due)
               == Work(Rewarded(Abort(ctx, tx, sender, l), number, ctx.producer, 21_000 * price),
                       Changed(parent, l.accounts) - {sender, ctx.producer}
                       - RewardWrites(ctx.producer, 21_000 * price))
  {
    hide Matured, Owners, Agree, Changed, Abort, Rewarded, RewardWrites, ApplyWork, Apply, CapHits, Fails, Exit, At;
    var now := ctx.timestamp / 1000;
    var l, tx := Matured(Ledger(parent, due), now), Exit(ctx, Ledger(parent, map[]), sender, price);
    MaturedAgrees(parent, due, now);
    AgreeAt(l, Ledger(parent, map[]), Owners(due, now), sender);
    var w := Opened(ctx, parent, due);
    SameExit(ctx, parent, l, sender, price);
    ExitFails(ctx, parent, w, sender, price);
    var caps := BlockCaps(ctx, [tx], parent, due);
    assert [tx][..0] == [] && caps[..0] == [];
    assert RunWork(ctx, parent, [], w) == w && RunAll(ctx, [], l, []) == l;
    assert caps == [CapHits(ctx, parent, tx, w)];
    ExitGas(ctx, tx, l, caps[0]);
    assert Fees(ctx, [], l, []) == 0;
    assert Fees(ctx, [tx], l, caps) == 21_000 * price;
    assert RunWork(ctx, parent, [tx], w) == ApplyWork(ctx, parent, tx, w);
  }

  lemma SameExit(ctx: Context, parent: Accounts, l: Ledger, sender: Address, price: nat)
    requires At(l, sender) == At(Ledger(parent, map[]), sender)
    ensures Exit(ctx, l, sender, price) == Exit(ctx, Ledger(parent, map[]), sender, price)
    ensures At(l, sender) == Get(parent, sender)
    ensures var tx := Exit(ctx, l, sender, price); tx.gasLimit == 21_000 && tx.gasPrice == price
    ensures Exit(ctx, l, sender, price).signer == Some(sender)
  {
  }

  lemma ExitGas(ctx: Context, tx: Tx, l: Ledger, capped: bool)
    requires Fails(ctx, tx, l, capped)
    ensures Apply(ctx, tx, l, capped).gas == tx.gasLimit
  {
    hide Effect, Validate, Abort;
  }

  lemma AbortFrame(ctx: Context, tx: Tx, sender: Address, l: Ledger, a: Address)
    requires tx.GasCost() <= At(l, sender).balance && a !in {sender, ctx.producer}
    ensures SameAt(Abort(ctx, tx, sender, l).accounts, l.accounts, a)
  {
    hide Cap256, Tx.GasCost;
  }

  /** What a block with nothing but a failing transaction commits, from what it starts with. */
  ghost function FailureCommits(ctx: Context, number: nat, parent: Accounts, l: Ledger, tx: Tx, sender: Address,
                                fees: nat): Accounts
    requires tx.GasCost() <= At(l, sender).balance
  {
    TrieOf(parent, Rewarded(Abort(ctx, tx, sender, l), number, ctx.producer, fees).accounts,
           Changed(parent, l.accounts) - {sender, ctx.producer} - RewardWrites(ctx.producer, fees))
  }

  /** An account it leaves alone is committed as it was, whether returns had changed it or not. */
  lemma FailureForgets(ctx: Context, number: nat, parent: Accounts, l: Ledger, tx: Tx, sender: Address, fees: nat,
                       a: Address)
    requires tx.GasCost() <= At(l, sender).balance && a !in {sender, ctx.producer, TREASURY}
    requires a in parent ==> a in l.accounts
    ensures SameAt(FailureCommits(ctx, number, parent, l, tx, sender, fees), parent, a)
  {
    hide Abort, Rewarded, Tx.GasCost, TreasuryShare;
    AbortFrame(ctx, tx, sender, l, a);
    FrameRewards(Abort(ctx, tx, sender, l), number, ctx.producer, fees, a);
  }

  /** An account that nothing was returned to is committed as it ends. */
  lemma FailureKeeps(ctx: Context, number: nat, parent: Accounts, l: Ledger, tx: Tx, sender: Address, fees: nat,
                     a: Address)
    requires tx.GasCost() <= At(l, sender).balance && SameAt(l.accounts, parent, a)
    ensures SameAt(FailureCommits(ctx, number, parent, l, tx, sender, fees),
                   Rewarded(Abort(ctx, tx, sender, l), number, ctx.producer, fees).accounts, a)
  {
    hide Abort, Rewarded, Tx.GasCost, RewardWrites;
  }

  lemma PendingStays(ctx: Context, tx: Tx, sender: Address, l: Ledger, number: nat, fees: nat)
    requires tx.GasCost() <= At(l, sender).balance
    ensures Rewarded(Abort(ctx, tx, sender, l), number, ctx.producer, fees).pending == l.pending
  {
  }

  lemma FailureCommitsSame(ctx: Context, number: nat, parent: Accounts, l: Ledger, tx: Tx, sender: Address, fees: nat,
                           apart: set<Address>)
    requires tx.GasCost() <= At(l, sender).balance && parent.Keys <= l.accounts.Keys
    requires Agree(l, Ledger(parent, map[]), apart) && apart !! {sender, ctx.producer, TREASURY}
    ensures tx.GasCost() <= At(Ledger(parent, map[]), sender).balance
    ensures FailureCommits(ctx, number, parent, l, tx, sender, fees)
         == FailureCommits(ctx, number, parent, Ledger(parent, map[]), tx, sender, fees)
  {
    hide FailureCommits, Abort, Rewarded, At, Tx.GasCost;
    var m := Ledger(parent, map[]);
    AbortAgrees(ctx, tx, sender, l, m, apart);
    RewardsAgree(Abort(ctx, tx, sender, l), Abort(ctx, tx, sender, m), apart, number, ctx.producer, fees);
    var one, other := FailureCommits(ctx, number, parent, l, tx, sender, fees),
                      FailureCommits(ctx, number, parent, m, tx, sender, fees);
    forall a ensures SameAt(one, other, a) {
      if a in apart {
        FailureForgets(ctx, number, parent, l, tx, sender, fees, a);
        FailureForgets(ctx, number, parent, m, tx, sender, fees, a);
      } else {
        FailureKeeps(ctx, number, parent, l, tx, sender, fees, a);
        FailureKeeps(ctx, number, parent, m, tx, sender, fees, a);
      }
    }
    SameEverywhere(one, other);
  }

  /** Undelegations that fall due in a block of another sender's failing transaction are taken from the
      column and returned to nobody: what is committed is as if nothing had been due. */
  lemma FailureLosesReturns(ctx: Context, number: nat, parent: Accounts, due: Tickets, sender: Address, price: nat)
    requires Owners(due, ctx.timestamp / 1000) !! {sender, ctx.producer, TREASURY}
    requires forall t | t in due :: t.unlockAt <= ctx.timestamp / 1000
    requires Get(parent, sender).stake == 0 && 21_000 * price <= Get(parent, sender).balance
    ensures var tx := Exit(ctx, Ledger(parent, map[]), sender, price);
            && Committed(ctx, number, [tx], parent, due) == Committed(ctx, number, [tx], parent, map[])
            && BlockWork(ctx, number, [tx], parent, due).ledger.pending
               == BlockWork(ctx, number, [tx], parent, map[]).ledger.pending == map[]
  {
    hide Agree, Changed, Abort, Rewarded, Exit, At, TrieOf, MaturedAccount, BlockWork, RewardWrites;
    var now, tx := ctx.timestamp / 1000, Exit(ctx, Ledger(parent, map[]), sender, price);
    var l, m, fees := Matured(Ledger(parent, due), now), Ledger(parent, map[]), 21_000 * price;
    MaturedAlready(m, now);
    MaturedAgrees(parent, due, now);
    ExitBlock(ctx, number, parent, due, sender, price);
    ExitBlock(ctx, number, parent, map[], sender, price);
    FailureCommitsSame(ctx, number, parent, l, tx, sender, fees, Owners(due, now));
    PendingStays(ctx, tx, sender, l, number, fees);
    PendingStays(ctx, tx, sender, m, number, fees);
  }
}
