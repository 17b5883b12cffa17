/** Who ends with what: where the gas of a transaction goes, what each type does to the sender's account, when
    a validated transaction still fails, and which transactions undo each other. */
module Payments {
  import opened Common
  import opened AccountStore
  import B = Bytes
  import opened Execution
  import opened Gas
  import opened Ledger
  import opened Sums
  import opened TicketColumn
  import R = Rotation

  // ---------- Gas ----------

  /** What an account holds besides its balance and nonce. */
  function Rest(acc: Account): Account {
    acc.(balance := 0, nonce := 0)
  }

  /** Only the balances of the two named accounts differ, by these amounts, and nonces. */
  ghost predicate Pays(l: Ledger, r: Ledger, a: Address, x: int, b: Address, y: int) {
    && At(r, a).balance == At(l, a).balance + x
    && At(r, b).balance == At(l, b).balance + y
    && Rest(At(r, a)) == Rest(At(l, a)) && Rest(At(r, b)) == Rest(At(l, b)) && r.pending == l.pending
    && forall c | c !in {a, b} :: SameAt(r.accounts, l.accounts, c)
  }

  /** There is room for what the transaction can be paid back. */
  predicate HasRoom(tx: Tx, l: Ledger, a: Address) {
    At(l, a).balance + tx.GasCost() <= U256_MAX
  }

  lemma CoveredAmounts(limit: nat, gas: nat, price: nat)
    requires gas <= limit && 0 < limit < U64 && limit * price < U64
    ensures Refund(limit, gas, price) == (limit - gas) * price && Payment(gas, price) == gas * price
    ensures (limit - gas) * price + gas * price == limit * price
    ensures (limit - gas) * price >= 0 && gas * price >= 0
  {
    CoveredIsExact(limit, gas, price);
    Distribute(limit, gas, price);
    NotNegative(limit - gas, price);
    NotNegative(gas, price);
    assert Wrap(limit - gas) == limit - gas && price % U64 == price;
  }

  lemma FinishPays(ctx: Context, tx: Tx, sender: Address, l: Ledger, gas: nat)
    requires sender != ctx.producer && gas <= tx.gasLimit && 0 < tx.gasLimit < U64 && tx.GasCost() < U64
    requires HasRoom(tx, l, sender) && HasRoom(tx, l, ctx.producer)
    ensures Pays(l, Finish(ctx, tx, sender, l, gas), sender, (tx.gasLimit - gas) * tx.gasPrice, ctx.producer,
                 gas * tx.gasPrice)
  {
    hide Refund, Payment;
    assert tx.GasCost() == tx.gasLimit * tx.gasPrice;
    CoveredAmounts(tx.gasLimit, gas, tx.gasPrice);
  }

  /** A covered transaction that completes: the sender gets its unused gas back, the producer the gas used,
      and nobody else's account moves after the type's own effect. */
  lemma GasSettles(ctx: Context, tx: Tx, sender: Address, l: Ledger, capped: bool)
    requires tx.GasCost() <= At(l, sender).balance && tx.IntrinsicGas() <= tx.gasLimit && Covered(tx)
    requires FairMachine(ctx) && sender != ctx.producer
    requires var e := Effect(ctx, tx, sender, Begin(tx, sender, l), capped);
             e.Done? && HasRoom(tx, e.ledger, sender) && HasRoom(tx, e.ledger, ctx.producer)
    ensures At(Begin(tx, sender, l), sender).balance == At(l, sender).balance - tx.GasCost()
    ensures var e := Effect(ctx, tx, sender, Begin(tx, sender, l), capped);
            && e.gas <= tx.gasLimit && Execute(ctx, tx, sender, l, capped).gas == e.gas
            && Pays(e.ledger, Execute(ctx, tx, sender, l, capped).ledger, sender,
                    (tx.gasLimit - e.gas) * tx.gasPrice, ctx.producer, e.gas * tx.gasPrice)
  {
    hide Effect, Finish, FairMachine, Tx.GasCost, HasRoom, Pays, Tx.IntrinsicGas;
    BeginPrepays(tx, sender, l);
    hide Begin, At;
    var e := Effect(ctx, tx, sender, Begin(tx, sender, l), capped);
    WithinLimitIff(ctx, tx, sender, Begin(tx, sender, l), capped);
    Product(tx);
    FinishPays(ctx, tx, sender, e.ledger, e.gas);
  }

  lemma BeginPrepays(tx: Tx, sender: Address, l: Ledger)
    requires tx.GasCost() <= At(l, sender).balance
    ensures var acc := At(Begin(tx, sender, l), sender);
            acc.(nonce := 0) == At(l, sender).(balance := At(l, sender).balance - tx.GasCost(), nonce := 0)
    ensures Begin(tx, sender, l).pending == l.pending && sender in Begin(tx, sender, l).accounts
    ensures forall c :: At(Begin(tx, sender, l), c).stake == At(l, c).stake
    ensures forall c | c != sender :: SameAt(Begin(tx, sender, l).accounts, l.accounts, c)
  {
    hide Tx.GasCost;
  }

  /** A transaction that fails: the sender pays the whole gas limit to the producer, and nothing else moves. */
  lemma FailureSettles(ctx: Context, tx: Tx, sender: Address, l: Ledger, capped: bool)
    requires tx.GasCost() <= At(l, sender).balance && sender != ctx.producer && HasRoom(tx, l, ctx.producer)
    requires Effect(ctx, tx, sender, Begin(tx, sender, l), capped).Failed?
    ensures Pays(l, Execute(ctx, tx, sender, l, capped).ledger, sender, 0 - tx.GasCost(), ctx.producer, tx.GasCost())
    ensures Execute(ctx, tx, sender, l, capped).gas == tx.gasLimit
  {
    hide Effect, Begin, Tx.GasCost;
  }

  // ---------- What each type moves ----------

  /** A covered transaction outside the machine that validates and completes, sent by another than the
      producer. */
  ghost predicate Plain(ctx: Context, tx: Tx, sender: Address, l: Ledger, capped: bool) {
    && Validate(ctx, tx, l).None? && tx.signer == Some(sender) && Covered(tx) && FairMachine(ctx) && !tx.RunsEvm()
    && sender != ctx.producer && Roomy(l) && Valid(l)
    && tx.GasCost() <= At(l, sender).balance && Effect(ctx, tx, sender, Begin(tx, sender, l), capped).Done?
  }

  lemma RoomForGas(tx: Tx, l: Ledger, a: Address)
    requires Total(l) + U64 <= U256_MAX && tx.GasCost() < U64
    ensures HasRoom(tx, l, a)
  {
    hide Total, Tx.GasCost;
    PutTotal(l, a, At(l, a));
  }

  /** What the sender of a plain transaction pays for gas. */
  function Paid(tx: Tx): nat {
    PlainGas(tx) * tx.gasPrice
  }

  /** Gas done with: the sender is down by the gas it used, and all the rest is the type's effect. */
  lemma Settled(ctx: Context, tx: Tx, sender: Address, l: Ledger, capped: bool)
    requires Plain(ctx, tx, sender, l, capped)
    ensures var begun := Begin(tx, sender, l);
            var e, r := Effect(ctx, tx, sender, begun, capped), Execute(ctx, tx, sender, l, capped);
            && Rest(At(begun, sender)) == Rest(At(l, sender))
            && At(begun, sender).balance == At(l, sender).balance - tx.GasCost()
            && (forall c | c != sender :: SameAt(begun.accounts, l.accounts, c)) && begun.pending == l.pending
            && r.gas == PlainGas(tx)
            && Pays(e.ledger, r.ledger, sender, tx.GasCost() - Paid(tx), ctx.producer, Paid(tx))
  {
    hide Effect, Finish, FairMachine, Tx.GasCost, HasRoom, Pays, Tx.IntrinsicGas, Total, Valid, At, Begin, Execute;
    hide Validate;
    var begun := Begin(tx, sender, l);
    var e := Effect(ctx, tx, sender, begun, capped);
    ValidatedCovers(ctx, tx, l);
    BeginPrepays(tx, sender, l);
    BeginTakes(tx, sender, l);
    EffectKeeps(ctx, tx, sender, begun, capped);
    RoomForGas(tx, e.ledger, sender);
    RoomForGas(tx, e.ledger, ctx.producer);
    GasSettles(ctx, tx, sender, l, capped);
    NoMachine(tx, begun);
    PlainGasIsGas(ctx, tx, sender, begun, capped);
    Product(tx);
    CoveredAmounts(tx.gasLimit, e.gas, tx.gasPrice);
  }

  lemma ValidatedCovers(ctx: Context, tx: Tx, l: Ledger)
    requires Validate(ctx, tx, l).None?
    ensures tx.IntrinsicGas() <= tx.gasLimit
  {
  }

  lemma NoMachine(tx: Tx, l: Ledger)
    requires !tx.RunsEvm()
    ensures !EntersMachine(tx, l)
  {
  }

  /** Below the ceiling a credit to the sender is exact. */
  lemma NoCeiling(l: Ledger, a: Address)
    requires Total(l) <= U256_MAX
    ensures Holdings(At(l, a)) <= U256_MAX
  {
    hide Total;
    PutTotal(l, a, At(l, a));
  }

  lemma BegunFits(tx: Tx, sender: Address, l: Ledger, a: Address)
    requires tx.GasCost() <= At(l, sender).balance && Roomy(l) && Valid(l)
    ensures Holdings(At(Begin(tx, sender, l), a)) <= U256_MAX
  {
    hide Total, Begin, At, Tx.GasCost;
    BeginTakes(tx, sender, l);
    NoCeiling(Begin(tx, sender, l), a);
  }

  /** The sender's balance is `x` higher apart from the gas it paid, the producer has that gas, and outside
      the two nothing moved. */
  ghost predicate Ends(ctx: Context, tx: Tx, sender: Address, l: Ledger, r: Ledger, x: int) {
    && At(r, sender).balance == At(l, sender).balance + x - Paid(tx)
    && At(r, ctx.producer).balance == At(l, ctx.producer).balance + Paid(tx)
    && Rest(At(r, ctx.producer)) == Rest(At(l, ctx.producer))
    && forall c | c !in {sender, ctx.producer} :: SameAt(r.accounts, l.accounts, c)
  }

  /** What a type that replaces only the sender's account amounts to. */
  lemma EndsWith(ctx: Context, tx: Tx, sender: Address, l: Ledger, capped: bool, acc: Account)
    requires Plain(ctx, tx, sender, l, capped)
    requires var begun := Begin(tx, sender, l);
             Effect(ctx, tx, sender, begun, capped).ledger.accounts == Put(begun, sender, acc).accounts
    ensures var e := Effect(ctx, tx, sender, Begin(tx, sender, l), capped);
            var r := Execute(ctx, tx, sender, l, capped).ledger;
            && Ends(ctx, tx, sender, l, r, acc.balance + tx.GasCost() - At(l, sender).balance)
            && Rest(At(r, sender)) == Rest(acc) && r.pending == e.ledger.pending
  {
    hide Execute, Begin, Tx.GasCost, Paid, Validate, FairMachine, Valid, Total, Effect, Plain;
    PlainMeans(ctx, tx, sender, l, capped);
    Settled(ctx, tx, sender, l, capped);
    var begun := Begin(tx, sender, l);
    var e, r := Effect(ctx, tx, sender, begun, capped).ledger, Execute(ctx, tx, sender, l, capped).ledger;
    assert SameAt(begun.accounts, l.accounts, ctx.producer);
    forall c | c !in {sender, ctx.producer} ensures SameAt(r.accounts, l.accounts, c) {
      assert SameAt(r.accounts, e.accounts, c) && SameAt(begun.accounts, l.accounts, c);
    }
  }

  lemma PlainMeans(ctx: Context, tx: Tx, sender: Address, l: Ledger, capped: bool)
    requires Plain(ctx, tx, sender, l, capped)
    ensures sender != ctx.producer && tx.GasCost() <= At(l, sender).balance
    ensures Effect(ctx, tx, sender, Begin(tx, sender, l), capped).Done?
  {
  }

  lemma PutBack(l: Ledger, a: Address)
    requires a in l.accounts
    ensures Put(l, a, At(l, a)) == l
  {
  }

  /** Stake and registration lock exactly the value as stake. */
  lemma StakeLocks(ctx: Context, tx: Tx, sender: Address, l: Ledger, capped: bool)
    requires Plain(ctx, tx, sender, l, capped) && tx.kind in {Stake, ValidatorRegister}
    ensures var acc, r := At(l, sender), Execute(ctx, tx, sender, l, capped).ledger;
            && Ends(ctx, tx, sender, l, r, 0 - tx.value) && r.pending == l.pending
            && Rest(At(r, sender)) == Rest(acc).(stake := acc.stake + tx.value)
  {
    hide Execute, Begin, Tx.GasCost, Validate, FairMachine, Total, At, Tx.Amount, Paid, Ends;
    var begun := Begin(tx, sender, l);
    BeginPrepays(tx, sender, l);
    BegunFits(tx, sender, l, sender);
    var acc := At(begun, sender);
    EndsWith(ctx, tx, sender, l, capped, acc.(balance := acc.balance - tx.value, stake := acc.stake + tx.value));
  }

  /** Unstaking frees the named amount or, like an exit, the whole stake. */
  lemma UnstakeFrees(ctx: Context, tx: Tx, sender: Address, l: Ledger, capped: bool)
    requires Plain(ctx, tx, sender, l, capped) && tx.kind in {Unstake, ValidatorExit}
    ensures var acc, r := At(l, sender), Execute(ctx, tx, sender, l, capped).ledger;
            var amount := if tx.kind == Unstake then tx.Amount(acc.stake) else acc.stake;
            && amount <= acc.stake && Ends(ctx, tx, sender, l, r, amount) && r.pending == l.pending
            && Rest(At(r, sender)) == Rest(acc).(stake := acc.stake - amount)
  {
    hide Execute, Begin, Tx.GasCost, Validate, FairMachine, Total, At, Tx.Amount, Paid, Ends;
    var begun := Begin(tx, sender, l);
    BeginPrepays(tx, sender, l);
    BegunFits(tx, sender, l, sender);
    var acc := At(begun, sender);
    var amount := if tx.kind == Unstake then tx.Amount(acc.stake) else acc.stake;
    EndsWith(ctx, tx, sender, l, capped, acc.(balance := acc.balance + amount, stake := acc.stake - amount));
  }

  /** Delegating locks exactly the value behind the named validator, who has a stake. */
  lemma DelegateLocks(ctx: Context, tx: Tx, sender: Address, l: Ledger, capped: bool)
    requires Plain(ctx, tx, sender, l, capped) && tx.kind == Delegate
    ensures var acc, r := At(l, sender), Execute(ctx, tx, sender, l, capped).ledger;
            && tx.to.Some? && At(l, tx.to.value).stake > 0 && acc.delegatedTo in {None, tx.to}
            && Ends(ctx, tx, sender, l, r, 0 - tx.value) && r.pending == l.pending
            && Rest(At(r, sender)) == Rest(acc).(delegatedTo := tx.to, delegated := acc.delegated + tx.value)
  {
    hide Execute, Begin, Tx.GasCost, Validate, FairMachine, Total, At, Tx.Amount, Paid, Ends;
    var begun := Begin(tx, sender, l);
    BeginPrepays(tx, sender, l);
    BegunFits(tx, sender, l, sender);
    var acc := At(begun, sender);
    SenderIsValid(l, sender);
    EndsWith(ctx, tx, sender, l, capped,
             acc.(balance := acc.balance - tx.value, delegatedTo := tx.to, delegated := acc.delegated + tx.value));
  }

  /** Undelegating takes the named amount, or everything, from the delegation into a ticket of the sender
      that unlocks one delay after the block, and frees no balance. */
  lemma UndelegateQueues(ctx: Context, tx: Tx, sender: Address, l: Ledger, capped: bool)
    requires Plain(ctx, tx, sender, l, capped) && tx.kind == Undelegate
    ensures var acc, r := At(l, sender), Execute(ctx, tx, sender, l, capped).ledger;
            && tx.to.Some? && acc.delegatedTo == tx.to
            && var amount := tx.Amount(acc.delegated);
               && amount <= acc.delegated && Ends(ctx, tx, sender, l, r, 0)
               && At(r, sender).delegated == acc.delegated - amount && At(r, sender).stake == acc.stake
               && At(r, sender).delegatedTo == (if amount == acc.delegated then None else acc.delegatedTo)
               && r.pending ==
                  l.pending[Ticket(sender, tx.to.value, ctx.timestamp / 1000 + UNSTAKE_DELAY_SECS) := amount]
  {
    hide Execute, Begin, Tx.GasCost, Validate, FairMachine, Total, At, Tx.Amount, Paid, Ends;
    var begun := Begin(tx, sender, l);
    BeginPrepays(tx, sender, l);
    BegunFits(tx, sender, l, sender);
    var acc := At(begun, sender);
    EndsWith(ctx, tx, sender, l, capped, Undelegated(acc, tx.Amount(acc.delegated)));
  }

  /** Claims and inference tasks move nothing but gas. */
  lemma OnlyGas(ctx: Context, tx: Tx, sender: Address, l: Ledger, capped: bool)
    requires Plain(ctx, tx, sender, l, capped) && tx.kind in {ClaimDelegationRewards, InferenceTask}
    ensures var r := Execute(ctx, tx, sender, l, capped).ledger;
            && Ends(ctx, tx, sender, l, r, 0) && r.pending == l.pending
            && Rest(At(r, sender)) == Rest(At(l, sender))
  {
    hide Execute, Begin, Tx.GasCost, Validate, FairMachine, Total, At, Tx.Amount, Paid, Ends;
    var begun := Begin(tx, sender, l);
    BeginPrepays(tx, sender, l);
    BegunFits(tx, sender, l, sender);
    var acc := At(begun, sender);
    assert Put(begun, sender, acc).accounts == begun.accounts by { PutBack(begun, sender); }
    EndsWith(ctx, tx, sender, l, capped, acc);
  }

  lemma MoveMoves(l: Ledger, from: Address, to: Address, x: nat)
    requires from != to && 0 < x <= At(l, from).balance && At(l, to).balance + x <= U256_MAX
    ensures Move(l, from, to, x).Some?
    ensures var r := Move(l, from, to, x).value;
            && At(r, from) == At(l, from).(balance := At(l, from).balance - x)
            && At(r, to) == At(l, to).(balance := At(l, to).balance + x)
            && r.pending == l.pending && forall c | c !in {from, to} :: SameAt(r.accounts, l.accounts, c)
  {
  }

  lemma RoomForBoth(l: Ledger, a: Address, b: Address, x: nat)
    requires Total(l) <= U256_MAX && a != b && x <= At(l, a).balance
    ensures At(l, b).balance + x <= U256_MAX
  {
    hide Total;
    DebitTakes(l, a, x);
    NoCeiling(Debit(l, a, x), b);
    PutTotal(Debit(l, a, x), b, At(l, b));
  }

  lemma SameIsAt(l: Ledger, m: Ledger, a: Address)
    requires SameAt(l.accounts, m.accounts, a)
    ensures At(l, a) == At(m, a)
  {
  }

  lemma TransferMoved(tx: Tx, sender: Address, l: Ledger)
    requires OnTransfer(tx, sender, l).Done? && tx.value > 0
    ensures tx.value <= At(l, sender).balance
  {
  }

  /** A transfer takes exactly the value from the sender and gives it to the recipient. */
  lemma TransferPays(ctx: Context, tx: Tx, sender: Address, l: Ledger, capped: bool)
    requires Plain(ctx, tx, sender, l, capped) && tx.kind == Transfer
    requires tx.to.Some? && tx.to.value !in {sender, ctx.producer} && tx.value > 0
    ensures var to, r := tx.to.value, Execute(ctx, tx, sender, l, capped).ledger;
            && At(r, sender).balance == At(l, sender).balance - tx.value - Paid(tx)
            && At(r, to).balance == At(l, to).balance + tx.value
            && At(r, ctx.producer).balance == At(l, ctx.producer).balance + Paid(tx)
            && Rest(At(r, sender)) == Rest(At(l, sender)) && Rest(At(r, to)) == Rest(At(l, to))
            && r.pending == l.pending
            && forall c | c !in {sender, to, ctx.producer} :: SameAt(r.accounts, l.accounts, c)
  {
    hide Execute, Begin, Tx.GasCost, Validate, FairMachine, Total, Paid, Move, At;
    var begun, to := Begin(tx, sender, l), tx.to.value;
    BeginPrepays(tx, sender, l);
    BeginTakes(tx, sender, l);
    TransferMoved(tx, sender, begun);
    RoomForBoth(begun, sender, to, tx.value);
    MoveMoves(begun, sender, to, tx.value);
    Settled(ctx, tx, sender, l, capped);
    var e, r := Effect(ctx, tx, sender, begun, capped).ledger, Execute(ctx, tx, sender, l, capped).ledger;
    SameIsAt(begun, l, to);
    SameIsAt(begun, l, ctx.producer);
    SameIsAt(e, begun, ctx.producer);
    SameIsAt(r, e, to);
    forall c | c !in {sender, to, ctx.producer} ensures SameAt(r.accounts, l.accounts, c) {
      assert SameAt(r.accounts, e.accounts, c) && SameAt(e.accounts, begun.accounts, c);
      assert SameAt(begun.accounts, l.accounts, c);
    }
  }

  // ---------- When a validated transaction fails ----------

  /** What validation lets through: the chain's own transactions, signed, with gas for their data, the sender's
      next nonce and the money for value and gas; a recipient where the type names one; the least stake on
      entering and the least delegation, to a validator with stake and not away from another. */
  lemma ValidatedIff(ctx: Context, tx: Tx, l: Ledger)
    ensures Validate(ctx, tx, l).None?
       <==> && tx.chainId == ctx.chainId && tx.IntrinsicGas() <= tx.gasLimit && tx.signer.Some?
            && var acc := At(l, tx.signer.value);
               && tx.value + tx.gasLimit * tx.gasPrice <= acc.balance && tx.nonce == acc.nonce
               && (tx.kind in {Transfer, Delegate} ==> tx.to.Some?)
               && (tx.kind == ValidatorRegister || (tx.kind == Stake && acc.stake == 0) ==>
                     MIN_VALIDATOR_STAKE <= tx.value)
               && (tx.kind == Delegate ==>
                     && MIN_DELEGATION <= tx.value && acc.delegatedTo in {None, tx.to} && At(l, tx.to.value).stake > 0)
  {
    hide Tx.IntrinsicGas, At;
  }

  /** What validation leaves to execution: outside the machine a validated transaction fails exactly when the
      stake cap refuses it, when it names more than there is, or when there is nothing to act on. */
  predicate Unable(tx: Tx, acc: Account, capped: bool) {
    match tx.kind
    case Stake => capped
    case ValidatorRegister => capped || acc.stake != 0
    case Unstake => tx.Amount(acc.stake) > acc.stake
    case ValidatorExit => acc.stake == 0
    case Delegate => capped
    case Undelegate => tx.to.None? || acc.delegatedTo != tx.to || tx.Amount(acc.delegated) > acc.delegated
    case ClaimDelegationRewards => acc.delegatedTo.None?
    case _ => false
  }

  lemma ValidatedFailsIff(ctx: Context, tx: Tx, sender: Address, l: Ledger, capped: bool)
    requires Validate(ctx, tx, l).None? && tx.signer == Some(sender) && !tx.RunsEvm()
    ensures tx.GasCost() <= At(l, sender).balance
    ensures Effect(ctx, tx, sender, Begin(tx, sender, l), capped).Failed? <==> Unable(tx, At(l, sender), capped)
  {
    hide Begin, At, Tx.Amount, Put, DataGas;
    assert tx.TotalCost() == tx.value + tx.GasCost();
    hide Tx.GasCost;
    BeginPrepays(tx, sender, l);
  }

  // ---------- Undoing ----------

  /** A registration and the exit after it leave the account as it was. */
  lemma RegistrationComesBack(tx: Tx, sender: Address, l: Ledger)
    requires OnRegister(tx, sender, l, false).Done? && At(l, sender).balance <= U256_MAX
    ensures var r := OnExit(sender, OnRegister(tx, sender, l, false).ledger);
            r.Done? && At(r.ledger, sender) == At(l, sender)
  {
  }

  /** So do a stake and an unstake of the same amount. */
  lemma StakeComesBack(tx: Tx, back: Tx, sender: Address, l: Ledger)
    requires OnStake(tx, sender, l, false).Done? && At(l, sender).balance <= U256_MAX
    requires back.Amount(At(l, sender).stake + tx.value) == tx.value
    ensures var r := OnUnstake(back, sender, OnStake(tx, sender, l, false).ledger);
            r.Done? && At(r.ledger, sender) == At(l, sender)
  {
    hide Tx.Amount;
  }

  lemma OneTicket(pending: Tickets, t: Ticket, amount: nat, now: nat)
    requires forall u | u in pending :: u.delegator != t.delegator
    ensures Owed(pending[t := amount], now, t.delegator) == if t.unlockAt <= now then amount else 0
  {
    var mature := MatureOf(pending[t := amount], now, t.delegator);
    if t.unlockAt <= now {
      assert mature == map[t := amount];
      MapSumWithout(mature, t, Id());
      assert mature - {t} == map[];
    } else {
      assert mature == map[];
    }
  }

  /** A delegation that is undelegated whole comes back when the ticket matures and not before: until then
      the account is down by the value, and from then on it is as it was. */
  lemma DelegationComesBack(ctx: Context, tx: Tx, back: Tx, sender: Address, l: Ledger, now: nat)
    requires OnDelegate(tx, sender, l, false).Done? && At(l, sender).delegatedTo.None? && At(l, sender).delegated == 0
    requires back.to == tx.to && |back.data| < 32 && forall t | t in l.pending :: t.delegator != sender
    ensures var r := OnUndelegate(ctx, back, sender, OnDelegate(tx, sender, l, false).ledger);
            && r.Done?
            && At(Matured(r.ledger, now), sender)
               == if now >= ctx.timestamp / 1000 + UNSTAKE_DELAY_SECS then At(l, sender)
                  else At(l, sender).(balance := At(l, sender).balance - tx.value)
  {
    hide Owed;
    var delegated := OnDelegate(tx, sender, l, false).ledger;
    var r := OnUndelegate(ctx, back, sender, delegated);
    assert back.Amount(tx.value) == tx.value;
    var t := Ticket(sender, tx.to.value, UnlockAt(ctx));
    assert r.Done? && r.ledger.pending == l.pending[t := tx.value];
    OneTicket(l.pending, t, tx.value, now);
    assert At(Matured(r.ledger, now), sender) == MaturedAccount(r.ledger, now, sender);
  }

  // ---------- Rewards ----------

  /** The producer gets the block reward and 47 percent of the fees, the treasury 5 percent, and nobody else
      anything. */
  lemma RewardsPay(l: Ledger, number: nat, producer: Address, fees: nat)
    requires producer != TREASURY && At(l, producer).balance + BlockReward(number) + fees <= U256_MAX
    requires At(l, TREASURY).balance + fees <= U256_MAX
    ensures var r := Rewarded(l, number, producer, fees);
            && At(r, producer).balance == At(l, producer).balance + BlockReward(number) + fees * 47 / 100
            && At(r, TREASURY).balance == At(l, TREASURY).balance + fees * 5 / 100
            && Rest(At(r, producer)) == Rest(At(l, producer)) && Rest(At(r, TREASURY)) == Rest(At(l, TREASURY))
            && r.pending == l.pending && forall c | c !in {producer, TREASURY} :: SameAt(r.accounts, l.accounts, c)
  {
    hide BlockReward;
    assert fees * 47 / 100 <= fees && fees * 5 / 100 <= fees;
  }

  lemma Year(number: nat, year: nat)
    requires year * BLOCKS_PER_YEAR <= number < (year + 1) * BLOCKS_PER_YEAR
    ensures number / BLOCKS_PER_YEAR == year
  {
    R.Quotient(number, BLOCKS_PER_YEAR, year, number - BLOCKS_PER_YEAR * year);
  }

  /** The reward is 10 QFC in the first year and half of the year before in each of the next four, and stays
      there. */
  lemma RewardHalves(number: nat, year: nat)
    requires year * BLOCKS_PER_YEAR <= number < (year + 1) * BLOCKS_PER_YEAR
    ensures year == 0 ==> BlockReward(number) == 10_000_000_000_000_000_000
    ensures 0 < year <= 4 && number >= BLOCKS_PER_YEAR ==>
              2 * BlockReward(number) == BlockReward(number - BLOCKS_PER_YEAR)
    ensures year > 4 ==> BlockReward(number) == 625_000_000_000_000_000
  {
    Year(number, year);
    if 0 < year <= 4 {
      Year(number - BLOCKS_PER_YEAR, year - 1);
    }
  }

  // ---------- What a transaction's data and the machine's changes mean ----------

  function AsData(k: B.Key): (data: seq<nat>)
    ensures |data| == |k|
  {
    seq(|k|, i requires 0 <= i < |k| => k[i] as nat)
  }

  lemma {:induction false} FromBytesReads(n: nat, width: nat)
    requires n < B.Power(width)
    ensures FromBytes(AsData(B.BigEndian(n, width))) == n
  {
    if width != 0 {
      FromBytesReads(n / 256, width - 1);
      var k := B.BigEndian(n, width);
      assert AsData(k)[..width - 1] == AsData(B.BigEndian(n / 256, width - 1));
    }
  }

  /** The amount that unstaking and undelegating read is the one written big-endian in the first 32 bytes,
      whatever follows, and all there is where the data is shorter. */
  lemma AmountIsRead(tx: Tx, n: nat, rest: seq<nat>, all: nat)
    requires n < B.Power(32)
    ensures tx.data == AsData(B.BigEndian(n, 32)) + rest ==> tx.Amount(all) == n
    ensures |tx.data| < 32 ==> tx.Amount(all) == all
  {
    FromBytesReads(n, 32);
    if tx.data == AsData(B.BigEndian(n, 32)) + rest {
      assert tx.data[..32] == AsData(B.BigEndian(n, 32));
    }
  }

  /** A list may be run in two parts: the ledger is that of the second after the first, and the fees add up. */
  lemma {:induction false} RunsInParts(ctx: Context, first: seq<Tx>, second: seq<Tx>, l: Ledger, caps: seq<bool>,
                                       more: seq<bool>)
    requires |caps| == |first| && |more| == |second|
    ensures RunAll(ctx, first + second, l, caps + more) == RunAll(ctx, second, RunAll(ctx, first, l, caps), more)
    ensures Fees(ctx, first + second, l, caps + more)
         == Fees(ctx, first, l, caps) + Fees(ctx, second, RunAll(ctx, first, l, caps), more)
    decreases |second|
  {
    hide Apply;
    if second == [] {
      assert first + second == first && caps + more == caps;
    } else {
      var n := |second| - 1;
      assert (first + second)[..|first| + n] == first + second[..n];
      assert (caps + more)[..|first| + n] == caps + more[..n];
      RunsInParts(ctx, first, second[..n], l, caps, more[..n]);
    }
  }

  /** What the machine writes back: balance and nonce as it leaves them, code that stays once it is there, and
      neither stake nor delegation. */
  lemma MachineWrites(l: Ledger, touched: map<Address, Touched>, a: Address)
    ensures var acc, acc' := At(l, a), At(ApplyTouched(l, touched), a);
            && (acc'.code <==> acc.code || (a in touched && touched[a].code))
            && acc'.stake == acc.stake && acc'.delegated == acc.delegated && acc'.delegatedTo == acc.delegatedTo
            && (a in touched ==> acc'.balance == touched[a].balance && acc'.nonce == touched[a].nonce)
            && (a !in touched ==> acc' == acc)
  {
  }
}
