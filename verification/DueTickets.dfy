/** A block's execution reads the column of pending undelegations only through what falls due in it, and
    stores only undelegations that fall due one delay later. */
module DueTickets {
  import opened AccountStore
  import opened Blocks
  import opened Common
  import opened Execution
  import opened Gas
  import opened Ledger
  import opened Sums
  import opened TicketColumn

  /** The same accounts over a column that also holds `q`, unless replaced. */
  function Over(q: Tickets, l: Ledger): Ledger {
    l.(pending := q + l.pending)
  }

  function OutcomeOver(q: Tickets, r: Outcome): Outcome {
    if r.Done? then r.(ledger := Over(q, r.ledger)) else r
  }

  lemma PutOver(l: Ledger, a: Address, acc: Account, q: Tickets)
    ensures Put(Over(q, l), a, acc) == Over(q, Put(l, a, acc)) && At(Over(q, l), a) == At(l, a)
  {
  }

  lemma CreditOver(l: Ledger, a: Address, x: nat, q: Tickets)
    ensures Credit(Over(q, l), a, x) == Over(q, Credit(l, a, x))
  {
    hide Cap256;
    PutOver(l, a, At(l, a).(balance := Cap256(At(l, a).balance + x)), q);
  }

  lemma DebitOver(l: Ledger, a: Address, x: nat, q: Tickets)
    requires x <= At(l, a).balance
    ensures Debit(Over(q, l), a, x) == Over(q, Debit(l, a, x))
  {
    PutOver(l, a, At(l, a).(balance := At(l, a).balance - x), q);
  }

  lemma BumpOver(l: Ledger, a: Address, q: Tickets)
    ensures Bump(Over(q, l), a) == Over(q, Bump(l, a))
  {
    PutOver(l, a, At(l, a).(nonce := if At(l, a).nonce < U64 - 1 then At(l, a).nonce + 1 else U64 - 1), q);
  }

  lemma MoveOver(l: Ledger, from: Address, to: Address, x: nat, q: Tickets)
    ensures var r := Move(l, from, to, x);
            Move(Over(q, l), from, to, x) == if r.Some? then Some(Over(q, r.value)) else None
  {
    hide Over, Credit, Debit, At;
    AtOver(l, from, q);
    if 0 < x <= At(l, from).balance {
      DebitOver(l, from, x, q);
      CreditOver(Debit(l, from, x), to, x, q);
    }
  }

  lemma AtOver(l: Ledger, a: Address, q: Tickets)
    ensures At(Over(q, l), a) == At(l, a) && Over(q, l).accounts == l.accounts
  {
  }

  lemma EvmOver(tx: Tx, l: Ledger, e: Evm, q: Tickets)
    ensures OnEvm(tx, Over(q, l), e) == OutcomeOver(q, OnEvm(tx, l, e))
  {
  }

  lemma StakingOver(tx: Tx, sender: Address, l: Ledger, capped: bool, q: Tickets)
    ensures OnStake(tx, sender, Over(q, l), capped) == OutcomeOver(q, OnStake(tx, sender, l, capped))
    ensures OnUnstake(tx, sender, Over(q, l)) == OutcomeOver(q, OnUnstake(tx, sender, l))
    ensures OnRegister(tx, sender, Over(q, l), capped) == OutcomeOver(q, OnRegister(tx, sender, l, capped))
    ensures OnExit(sender, Over(q, l)) == OutcomeOver(q, OnExit(sender, l))
  {
    hide Cap256, Tx.Amount, Put, At, Over;
    AtOver(l, sender, q);
    forall acc ensures Put(Over(q, l), sender, acc) == Over(q, Put(l, sender, acc)) {
      PutOver(l, sender, acc, q);
    }
  }

  lemma DelegateOver(tx: Tx, sender: Address, l: Ledger, capped: bool, q: Tickets)
    ensures OnDelegate(tx, sender, Over(q, l), capped) == OutcomeOver(q, OnDelegate(tx, sender, l, capped))
  {
    hide Cap256, Put, At, Over;
    AtOver(l, sender, q);
    if tx.to.Some? {
      AtOver(l, tx.to.value, q);
    }
    forall acc ensures Put(Over(q, l), sender, acc) == Over(q, Put(l, sender, acc)) {
      PutOver(l, sender, acc, q);
    }
  }

  lemma UndelegateOver(ctx: Context, tx: Tx, sender: Address, l: Ledger, q: Tickets)
    ensures OnUndelegate(ctx, tx, sender, Over(q, l)) == OutcomeOver(q, OnUndelegate(ctx, tx, sender, l))
  {
    hide Tx.Amount, Undelegated;
    if tx.to.Some? {
      var amount := tx.Amount(DelegatedTo(At(l, sender), tx.to.value));
      var t := Ticket(sender, tx.to.value, UnlockAt(ctx));
      assert (q + l.pending)[t := amount] == q + l.pending[t := amount];
    }
  }

  lemma EffectOver(ctx: Context, tx: Tx, sender: Address, l: Ledger, capped: bool, q: Tickets)
    ensures Effect(ctx, tx, sender, Over(q, l), capped) == OutcomeOver(q, Effect(ctx, tx, sender, l, capped))
  {
    hide DataGas, Move, At, OnStake, OnUnstake, OnRegister, OnExit, OnDelegate, OnUndelegate, OnEvm, Over;
    AtOver(l, sender, q);
    match tx.kind
    case Transfer => if tx.to.Some? { MoveOver(l, sender, tx.to.value, tx.value, q); }
    case ContractCreate => EvmOver(tx, l, ctx.evm(tx, sender, l.accounts), q);
    case ContractCall =>
      if tx.to.Some? {
        AtOver(l, tx.to.value, q);
        EvmOver(tx, l, ctx.evm(tx, sender, l.accounts), q);
        MoveOver(l, sender, tx.to.value, tx.value, q);
      }
    case Delegate => DelegateOver(tx, sender, l, capped, q);
    case Undelegate => UndelegateOver(ctx, tx, sender, l, q);
    case ClaimDelegationRewards =>
    case InferenceTask =>
    case _ => StakingOver(tx, sender, l, capped, q);
  }

  lemma BeginOver(tx: Tx, sender: Address, l: Ledger, q: Tickets)
    requires tx.GasCost() <= At(l, sender).balance
    ensures Begin(tx, sender, Over(q, l)) == Over(q, Begin(tx, sender, l))
  {
    hide Over, Debit, Bump, At, Tx.GasCost;
    AtOver(l, sender, q);
    DebitOver(l, sender, tx.GasCost(), q);
    BumpOver(Debit(l, sender, tx.GasCost()), sender, q);
  }

  lemma FinishOver(ctx: Context, tx: Tx, sender: Address, l: Ledger, gas: nat, q: Tickets)
    ensures Finish(ctx, tx, sender, Over(q, l), gas) == Over(q, Finish(ctx, tx, sender, l, gas))
  {
    hide Over, Credit, Put, At, Refund, Payment;
    AtOver(l, sender, q);
    PutOver(l, sender, At(l, sender).(nonce := Wrap(tx.nonce + 1)), q);
    var counted := if tx.RunsEvm() then WithNonce(l, sender, Wrap(tx.nonce + 1)) else l;
    CreditOver(counted, sender, Refund(tx.gasLimit, gas, tx.gasPrice), q);
    CreditOver(Credit(counted, sender, Refund(tx.gasLimit, gas, tx.gasPrice)), ctx.producer,
               Payment(gas, tx.gasPrice), q);
  }

  lemma AbortOver(ctx: Context, tx: Tx, sender: Address, l: Ledger, q: Tickets)
    requires tx.GasCost() <= At(l, sender).balance
    ensures Abort(ctx, tx, sender, Over(q, l)) == Over(q, Abort(ctx, tx, sender, l))
  {
    hide Over, Credit, Debit, Bump, At, Tx.GasCost;
    AtOver(l, sender, q);
    DebitOver(l, sender, tx.GasCost(), q);
    CreditOver(Debit(l, sender, tx.GasCost()), ctx.producer, tx.GasCost(), q);
    BumpOver(Credit(Debit(l, sender, tx.GasCost()), ctx.producer, tx.GasCost()), sender, q);
  }

  lemma ExecuteOver(ctx: Context, tx: Tx, sender: Address, l: Ledger, capped: bool, q: Tickets)
    requires tx.GasCost() <= At(l, sender).balance
    ensures At(Over(q, l), sender) == At(l, sender)
    ensures var r := Execute(ctx, tx, sender, l, capped);
            Execute(ctx, tx, sender, Over(q, l), capped) == r.(ledger := Over(q, r.ledger))
  {
    hide Over, Effect, Begin, Finish, Abort, At, Tx.GasCost;
    AtOver(l, sender, q);
    BeginOver(tx, sender, l, q);
    var begun := Begin(tx, sender, l);
    EffectOver(ctx, tx, sender, begun, capped, q);
    match Effect(ctx, tx, sender, begun, capped)
    case Done(after, gas, _) => FinishOver(ctx, tx, sender, after, gas, q);
    case Failed => AbortOver(ctx, tx, sender, l, q);
  }

  lemma ApplyOver(ctx: Context, tx: Tx, l: Ledger, capped: bool, q: Tickets)
    ensures var r := Apply(ctx, tx, l, capped);
            Apply(ctx, tx, Over(q, l), capped) == r.(ledger := Over(q, r.ledger))
  {
    hide Execute;
    if Validate(ctx, tx, l).None? {
      ExecuteOver(ctx, tx, tx.signer.value, l, capped, q);
    }
  }

  function WorkOver(q: Tickets, w: Work): Work {
    w.(ledger := Over(q, w.ledger))
  }

  lemma ApplyWorkOver(ctx: Context, root: Accounts, tx: Tx, w: Work, q: Tickets)
    ensures ApplyWork(ctx, root, tx, WorkOver(q, w)) == WorkOver(q, ApplyWork(ctx, root, tx, w))
    ensures CapHits(ctx, root, tx, WorkOver(q, w)) == CapHits(ctx, root, tx, w)
  {
    hide Execute, Effect, CapRefuses, TrieOf, Changed;
    if Validate(ctx, tx, w.ledger).None? {
      var sender := tx.signer.value;
      var begun := BeginWork(tx, sender, w);
      assert BeginWork(tx, sender, WorkOver(q, w)) == WorkOver(q, begun);
      CapOver(root, tx, sender, begun, q);
      var capped := Capped(root, tx, sender, begun);
      ExecuteOver(ctx, tx, sender, w.ledger, capped, q);
      EffectOver(ctx, tx, sender, begun.ledger, capped, q);
    }
  }

  lemma CapOver(root: Accounts, tx: Tx, sender: Address, w: Work, q: Tickets)
    ensures Capped(root, tx, sender, WorkOver(q, w)) == Capped(root, tx, sender, w)
  {
    hide MapSum, TrieOf;
  }

  lemma {:induction false} RunWorkOver(ctx: Context, root: Accounts, txs: seq<Tx>, w: Work, q: Tickets)
    ensures RunWork(ctx, root, txs, WorkOver(q, w)) == WorkOver(q, RunWork(ctx, root, txs, w))
    ensures Caps(ctx, root, txs, WorkOver(q, w)) == Caps(ctx, root, txs, w)
  {
    hide ApplyWork, CapHits, WorkOver;
    if txs != [] {
      var n := |txs| - 1;
      RunWorkOver(ctx, root, txs[..n], w, q);
      ApplyWorkOver(ctx, root, txs[n], RunWork(ctx, root, txs[..n], w), q);
    }
  }

  lemma {:induction false} FeesOver(ctx: Context, txs: seq<Tx>, l: Ledger, caps: seq<bool>, q: Tickets)
    requires |caps| == |txs|
    ensures Fees(ctx, txs, Over(q, l), caps) == Fees(ctx, txs, l, caps)
    ensures RunAll(ctx, txs, Over(q, l), caps) == Over(q, RunAll(ctx, txs, l, caps))
  {
    hide Apply, Over;
    if txs != [] {
      var n := |txs| - 1;
      FeesOver(ctx, txs[..n], l, caps[..n], q);
      ApplyOver(ctx, txs[n], RunAll(ctx, txs[..n], l, caps[..n]), caps[n], q);
    }
  }

  /** What matures is what is due; the rest of the column stays as it is. */
  lemma MaturedOver(parent: Accounts, pending: Tickets, now: nat)
    ensures Matured(Ledger(parent, pending), now)
         == Over(NotDue(pending, now), Matured(Ledger(parent, Due(pending, now)), now))
  {
    hide Owed;
    var due := Due(pending, now);
    assert Owners(due, now) == Owners(pending, now) by {
      forall a | a in Owners(pending, now) ensures a in Owners(due, now) {
        var t :| t in pending && t.unlockAt <= now && t.delegator == a;
        assert t in due;
      }
    }
    forall a ensures Owed(due, now, a) == Owed(pending, now, a) {
      OwedOfDue(pending, now, a);
    }
    var whole, part := Matured(Ledger(parent, pending), now), Matured(Ledger(parent, due), now);
    assert whole.accounts == part.accounts;
    assert part.pending == map[];
    assert NotDue(pending, now) + map[] == NotDue(pending, now);
  }

  lemma OwedOfDue(pending: Tickets, now: nat, a: Address)
    ensures Owed(Due(pending, now), now, a) == Owed(pending, now, a)
  {
    assert MatureOf(Due(pending, now), now, a) == MatureOf(pending, now, a);
  }

  /** Executing a block on the whole column does what executing it on the due part does, and leaves the
      rest of the column alone except for the tickets it replaces. */
  lemma OnlyDueMatters(ctx: Context, number: nat, txs: seq<Tx>, parent: Accounts, pending: Tickets)
    ensures var now := ctx.timestamp / 1000;
            var due, rest := Due(pending, now), NotDue(pending, now);
            && BlockWork(ctx, number, txs, parent, pending) == WorkOver(rest, BlockWork(ctx, number, txs, parent, due))
            && Committed(ctx, number, txs, parent, pending) == Committed(ctx, number, txs, parent, due)
            && BlockCaps(ctx, txs, parent, pending) == BlockCaps(ctx, txs, parent, due)
            && BlockFees(ctx, txs, parent, pending) == BlockFees(ctx, txs, parent, due)
  {
    hide Matured, RunWork, Caps, Fees, TrieOf, RewardWrites;
    var now := ctx.timestamp / 1000;
    var due, rest := Due(pending, now), NotDue(pending, now);
    MaturedOver(parent, pending, now);
    var start := Opened(ctx, parent, due);
    assert Opened(ctx, parent, pending) == WorkOver(rest, start);
    RunWorkOver(ctx, parent, txs, start, rest);
    FeesOver(ctx, txs, start.ledger, Caps(ctx, parent, txs, start), rest);
    RewardedOver(RunWork(ctx, parent, txs, start).ledger, number, ctx.producer, BlockFees(ctx, txs, parent, due), rest);
  }

  lemma RewardedOver(l: Ledger, number: nat, producer: Address, fees: nat, q: Tickets)
    ensures Rewarded(Over(q, l), number, producer, fees) == Over(q, Rewarded(l, number, producer, fees))
  {
    hide Cap256, BlockReward, ProducerShare, TreasuryShare;
  }

  // ---------- What a block stores ----------

  ghost predicate AllUnlockAt(pending: Tickets, at: nat) {
    forall t | t in pending :: t.unlockAt == at
  }

  lemma ApplyCreates(ctx: Context, tx: Tx, l: Ledger, capped: bool)
    requires AllUnlockAt(l.pending, UnlockAt(ctx))
    ensures AllUnlockAt(Apply(ctx, tx, l, capped).ledger.pending, UnlockAt(ctx))
  {
    hide Execute;
    if Validate(ctx, tx, l).None? {
      forall t | t in Execute(ctx, tx, tx.signer.value, l, capped).ledger.pending && t !in l.pending
        ensures t.unlockAt == UnlockAt(ctx)
      {
        ExecuteTickets(ctx, tx, tx.signer.value, l, capped, t);
      }
    }
  }

  lemma {:induction false} RunCreates(ctx: Context, txs: seq<Tx>, l: Ledger, caps: seq<bool>)
    requires |caps| == |txs| && AllUnlockAt(l.pending, UnlockAt(ctx))
    ensures AllUnlockAt(RunAll(ctx, txs, l, caps).pending, UnlockAt(ctx))
  {
    hide Apply, AllUnlockAt;
    if txs != [] {
      var n := |txs| - 1;
      RunCreates(ctx, txs[..n], l, caps[..n]);
      ApplyCreates(ctx, txs[n], RunAll(ctx, txs[..n], l, caps[..n]), caps[n]);
    }
  }

  /** Executed on nothing but what is due, a block leaves only tickets of its own time plus the delay. */
  lemma BlockCreates(ctx: Context, number: nat, txs: seq<Tx>, parent: Accounts, pending: Tickets)
    requires forall t | t in pending :: t.unlockAt <= ctx.timestamp / 1000
    ensures AllUnlockAt(BlockWork(ctx, number, txs, parent, pending).ledger.pending, UnlockAt(ctx))
  {
    hide RunWork, RunAll, Caps, Fees, RewardWrites, Owed, Owners, MaturedAccount;
    var start := Opened(ctx, parent, pending);
    assert start.ledger.pending == map[];
    RunWorkLedger(ctx, parent, txs, start);
    RunCreates(ctx, txs, start.ledger, Caps(ctx, parent, txs, start));
  }

  lemma {:induction false} RunStoresNothing(ctx: Context, txs: seq<Tx>, l: Ledger, caps: seq<bool>, t: Ticket)
    requires |caps| == |txs| && (forall tx | tx in txs :: !Undelegates(tx)) && t !in l.pending
    ensures t !in RunAll(ctx, txs, l, caps).pending
  {
    hide Execute;
    if txs != [] {
      var n := |txs| - 1;
      RunStoresNothing(ctx, txs[..n], l, caps[..n], t);
      var m := RunAll(ctx, txs[..n], l, caps[..n]);
      if Validate(ctx, txs[n], m).None? && t in Execute(ctx, txs[n], txs[n].signer.value, m, caps[n]).ledger.pending {
        ExecuteTickets(ctx, txs[n], txs[n].signer.value, m, caps[n], t);
      }
    }
  }

  /** A block without undelegations stores none. */
  lemma NothingStored(ctx: Context, number: nat, txs: seq<Tx>, parent: Accounts, pending: Tickets)
    requires forall t | t in pending :: t.unlockAt <= ctx.timestamp / 1000
    requires forall tx | tx in txs :: !Undelegates(tx)
    ensures BlockWork(ctx, number, txs, parent, pending).ledger.pending == map[]
  {
    hide RunWork, RunAll, Caps, Fees, RewardWrites, Owed, Owners, MaturedAccount;
    var start := Opened(ctx, parent, pending);
    assert start.ledger.pending == map[];
    RunWorkLedger(ctx, parent, txs, start);
    forall t ensures t !in RunAll(ctx, txs, start.ledger, Caps(ctx, parent, txs, start)).pending {
      RunStoresNothing(ctx, txs, start.ledger, Caps(ctx, parent, txs, start), t);
    }
  }
}
