/** The executor: transactions and blocks applied to the account store in place. */
module Executor {
  import opened Common
  import opened AccountStore
  import opened Blocks
  import opened Execution
  import opened Gas
  import opened Ledger
  import opened Sums
  import opened TicketColumn
  import P = Payments

  /** What a transaction type reports: an error, or the gas it used and whether it succeeded. */
  datatype Attempt = Err | Ok(gas: nat, success: bool)

  /** What a store's layers and pending undelegations amount to. */
  ghost function Working(state: StateDb): Work
    reads state
  {
    Work(state.Value(), state.Layered().Stale())
  }

  /** The store went from `was` to `now` as `outcome` says, writing exactly `written`. An error may leave
      writes behind, which the caller reverts, but no pending undelegation. */
  ghost predicate Reports(r: Attempt, outcome: Outcome, written: set<Address>, was: Work, now: Work) {
    && r.Ok? == outcome.Done?
    && (r.Ok? ==> r.gas == outcome.gas && r.success == outcome.success)
    && (r.Ok? ==> now == Work(outcome.ledger, was.stale - written))
    && (r.Err? ==> now.ledger.pending == was.ledger.pending)
  }

  method CapExceeded(state: StateDb, validator: Address, added: nat) returns (refused: bool)
    ensures refused == CapRefuses(state.Value(), state.trie, validator, added)
  {
    hide MapSum;
    if added == 0 {
      return false;
    }
    var current := state.TotalStake();
    if current == 0 {
      return false;
    }
    var acc := state.GetAccount(validator);
    var behind := state.TotalDelegatedTo(validator);
    var validatorAfter := Cap256(Cap256(acc.stake + behind) + added);
    var networkAfter := Cap256(current + added);
    refused := validatorAfter > networkAfter * 20 / 100;
  }

  method ExecuteTransfer(tx: Tx, sender: Address, state: StateDb) returns (r: Attempt)
    requires state.Valid()
    modifies state
    ensures state.Valid() && state.root == old(state.root)
    ensures Reports(r, OnTransfer(tx, sender, old(state.Value())), MoveWrites(tx, sender), old(Working(state)),
                    Working(state))
  {
    if tx.to.None? {
      return Err;
    }
    var ok := state.Transfer(sender, tx.to.value, tx.value);
    r := if ok then Ok(TRANSFER_GAS, true) else Err;
  }

  lemma Twice(l: Ledger, a: Address, x: Account, y: Account)
    ensures Put(Put(l, a, x), a, y) == Put(l, a, y) && At(Put(l, a, x), a) == x
  {
  }

  method ExecuteStake(tx: Tx, sender: Address, state: StateDb) returns (r: Attempt)
    requires state.Valid()
    modifies state
    ensures state.Valid() && state.root == old(state.root)
    ensures var capped := CapRefuses(old(state.Value()), old(state.trie), sender, tx.value);
            Reports(r, OnStake(tx, sender, old(state.Value()), capped), {sender}, old(Working(state)), Working(state))
  {
    hide CapRefuses, Put, At;
    var acc := state.GetAccount(sender);
    var newStake := acc.stake + tx.value;
    var refused := CapExceeded(state, sender, tx.value);
    if acc.stake == 0 && newStake < MIN_VALIDATOR_STAKE {
      return Err;
    }
    if refused {
      return Err;
    }
    var ok := state.SubBalance(sender, tx.value);
    if !ok {
      return Err;
    }
    var paid := acc.(balance := acc.balance - tx.value);
    Twice(old(state.Value()), sender, paid, paid.(stake := newStake));
    state.SetStake(sender, newStake);
    r := Ok(2 * MINIMUM_GAS, true);
  }

  method ExecuteUnstake(tx: Tx, sender: Address, state: StateDb) returns (r: Attempt)
    requires state.Valid()
    modifies state
    ensures state.Valid() && state.root == old(state.root)
    ensures Reports(r, OnUnstake(tx, sender, old(state.Value())), {sender}, old(Working(state)), Working(state))
  {
    hide Put, At, Tx.Amount;
    var acc := state.GetAccount(sender);
    var amount := tx.Amount(acc.stake);
    if acc.stake < amount {
      return Err;
    }
    var left := acc.(stake := acc.stake - amount);
    Twice(old(state.Value()), sender, left, left.(balance := Cap256(left.balance + amount)));
    state.SetStake(sender, acc.stake - amount);
    state.AddBalance(sender, amount);
    r := Ok(2 * MINIMUM_GAS, true);
  }

  method ExecuteValidatorRegister(tx: Tx, sender: Address, state: StateDb) returns (r: Attempt)
    requires state.Valid()
    modifies state
    ensures state.Valid() && state.root == old(state.root)
    ensures var capped := CapRefuses(old(state.Value()), old(state.trie), sender, tx.value);
            Reports(r, OnRegister(tx, sender, old(state.Value()), capped), {sender}, old(Working(state)),
                    Working(state))
  {
    hide CapRefuses, Put, At;
    var acc := state.GetAccount(sender);
    if acc.stake != 0 || tx.value < MIN_VALIDATOR_STAKE {
      return Err;
    }
    var refused := CapExceeded(state, sender, tx.value);
    if refused {
      return Err;
    }
    var ok := state.SubBalance(sender, tx.value);
    if !ok {
      return Err;
    }
    var paid := acc.(balance := acc.balance - tx.value);
    Twice(old(state.Value()), sender, paid, paid.(stake := tx.value));
    state.SetStake(sender, tx.value);
    r := Ok(3 * MINIMUM_GAS, true);
  }

  method ExecuteValidatorExit(sender: Address, state: StateDb) returns (r: Attempt)
    requires state.Valid()
    modifies state
    ensures state.Valid() && state.root == old(state.root)
    ensures Reports(r, OnExit(sender, old(state.Value())), {sender}, old(Working(state)), Working(state))
  {
    hide Put, At;
    var acc := state.GetAccount(sender);
    if acc.stake == 0 {
      return Err;
    }
    var returned := acc.(balance := Cap256(acc.balance + acc.stake));
    Twice(old(state.Value()), sender, returned, returned.(stake := 0));
    state.AddBalance(sender, acc.stake);
    state.SetStake(sender, 0);
    r := Ok(2 * MINIMUM_GAS, true);
  }

  method ExecuteDelegate(tx: Tx, sender: Address, state: StateDb) returns (r: Attempt)
    requires state.Valid()
    modifies state
    ensures state.Valid() && state.root == old(state.root)
    ensures var capped := tx.to.Some? && CapRefuses(old(state.Value()), old(state.trie), tx.to.value, tx.value);
            Reports(r, OnDelegate(tx, sender, old(state.Value()), capped), {sender}, old(Working(state)),
                    Working(state))
  {
    hide CapRefuses, Put, At;
    if tx.to.None? || tx.value < MIN_DELEGATION {
      return Err;
    }
    var acc := state.GetAccount(sender);
    if acc.delegatedTo.Some? && acc.delegatedTo != tx.to {
      return Err;
    }
    var validator := state.GetAccount(tx.to.value);
    if validator.stake == 0 {
      return Err;
    }
    var refused := CapExceeded(state, tx.to.value, tx.value);
    if refused {
      return Err;
    }
    var ok := state.SubBalance(sender, tx.value);
    if !ok {
      return Err;
    }
    var paid := acc.(balance := acc.balance - tx.value);
    if acc.delegatedTo.Some? {
      Twice(old(state.Value()), sender, paid, paid.(delegated := Cap256(acc.delegated + tx.value)));
      state.AddDelegationAmount(sender, tx.value);
    } else {
      Twice(old(state.Value()), sender, paid, paid.(delegatedTo := tx.to, delegated := tx.value));
      state.SetDelegation(sender, tx.to.value, tx.value);
    }
    r := Ok(3 * MINIMUM_GAS, true);
  }

  method ExecuteUndelegate(ctx: Context, tx: Tx, sender: Address, state: StateDb) returns (r: Attempt)
    requires state.Valid()
    modifies state
    ensures state.Valid() && state.root == old(state.root)
    ensures Reports(r, OnUndelegate(ctx, tx, sender, old(state.Value())), {sender}, old(Working(state)), Working(state))
  {
    hide At, Tx.Amount;
    if tx.to.None? {
      return Err;
    }
    var acc := state.GetAccount(sender);
    var amount := tx.Amount(DelegatedTo(acc, tx.to.value));
    if acc.delegatedTo != tx.to || acc.delegated < amount {
      return Err;
    }
    var ok := state.SubDelegationAmount(sender, amount);
    state.StoreUndelegation(Ticket(sender, tx.to.value, UnlockAt(ctx)), amount);
    r := Ok(3 * MINIMUM_GAS, true);
  }

  method ExecuteClaim(sender: Address, state: StateDb) returns (r: Attempt)
    requires state.Valid()
    ensures Reports(r, OnClaim(sender, state.Value()), {}, Working(state), Working(state))
  {
    var acc := state.GetAccount(sender);
    r := if acc.delegatedTo.None? then Err else Ok(2 * MINIMUM_GAS, true);
  }

  // ---------- The virtual machine's changes ----------

  method ApplyStateChanges(touched: map<Address, Touched>, state: StateDb)
    requires state.Valid()
    modifies state`trie, state`cache
    ensures state.Valid() && state.Value() == ApplyTouched(old(state.Value()), touched)
    ensures state.root == old(state.root) && state.Layered().Stale() == old(state.Layered().Stale()) - touched.Keys
  {
    hide At, Merge, Put, ApplyTouched, Layers.Stale, Layers.Sound, Layers.View;
    var rest := touched;
    while rest != map[]
      invariant state.Valid() && state.root == old(state.root)
      invariant ApplyTouched(state.Value(), rest) == ApplyTouched(old(state.Value()), touched)
      invariant rest.Keys <= touched.Keys
      invariant state.Layered().Stale() == old(state.Layered().Stale()) - (touched.Keys - rest.Keys)
      decreases |rest|
    {
      var a :| a in rest;
      var acc := state.GetAccount(a);
      TouchFirst(state.Value(), rest, a);
      state.SetAccount(a, Merge(acc, rest[a]));
      rest := rest - {a};
    }
    NothingTouched(state.Value());
  }

  method ExecuteEvm(ctx: Context, tx: Tx, sender: Address, state: StateDb) returns (r: Attempt)
    requires state.Valid()
    modifies state
    ensures state.Valid() && state.root == old(state.root)
    ensures var e := ctx.evm(tx, sender, old(state.Value()).accounts);
            Reports(r, OnEvm(tx, old(state.Value()), e), MachineWrites(e), old(Working(state)), Working(state))
  {
    hide ApplyTouched, Layers.Stale, Layers.Sound;
    var e := ctx.evm(tx, sender, state.Value().accounts);
    match e
    case Fault =>
      r := Err;
    case Ran(success, gas, touched) =>
      if success {
        ApplyStateChanges(touched, state);
        r := Ok(if tx.kind == ContractCreate && gas < CONTRACT_CREATE_GAS then CONTRACT_CREATE_GAS else gas, true);
      } else {
        r := Ok(gas, false);
      }
  }

  method ExecuteContractCall(ctx: Context, tx: Tx, sender: Address, state: StateDb) returns (r: Attempt)
    requires state.Valid() && tx.kind == ContractCall
    modifies state
    ensures state.Valid() && state.root == old(state.root)
    ensures Reports(r, OnCall(ctx, tx, sender, old(state.Value())), EffectWrites(ctx, tx, sender, old(state.Value())),
                    old(Working(state)), Working(state))
  {
    hide ApplyTouched, DataGas;
    if tx.to.None? {
      return Err;
    }
    var target := state.GetAccount(tx.to.value);
    if target.code {
      r := ExecuteEvm(ctx, tx, sender, state);
      return;
    }
    var ok := state.Transfer(sender, tx.to.value, tx.value);
    r := if ok then Ok(MINIMUM_GAS + DataGas(tx.data), true) else Err;
  }

  // ---------- One transaction ----------

  method Dispatch(ctx: Context, tx: Tx, sender: Address, state: StateDb) returns (r: Attempt)
    requires state.Valid()
    modifies state
    ensures state.Valid() && state.root == old(state.root)
    ensures Reports(r, Effect(ctx, tx, sender, old(state.Value()), Capped(state.root, tx, sender, old(Working(state)))),
                    EffectWrites(ctx, tx, sender, old(state.Value())), old(Working(state)), Working(state))
  {
    hide Reports, OnTransfer, OnStake, OnUnstake, OnRegister, OnExit, OnDelegate, OnUndelegate, OnClaim, OnEvm, OnCall;
    hide CapRefuses, TrieOf, Layers.Stale, Layers.Sound, Layers.View;
    TrieIs(state.Layered());
    match tx.kind
    case Transfer => r := ExecuteTransfer(tx, sender, state);
    case ContractCreate => r := ExecuteEvm(ctx, tx, sender, state);
    case ContractCall => r := ExecuteContractCall(ctx, tx, sender, state);
    case Stake => r := ExecuteStake(tx, sender, state);
    case Unstake => r := ExecuteUnstake(tx, sender, state);
    case ValidatorRegister => r := ExecuteValidatorRegister(tx, sender, state);
    case ValidatorExit => r := ExecuteValidatorExit(sender, state);
    case Delegate => r := ExecuteDelegate(tx, sender, state);
    case Undelegate => r := ExecuteUndelegate(ctx, tx, sender, state);
    case ClaimDelegationRewards => r := ExecuteClaim(sender, state);
    case InferenceTask =>
      r := Ok(MINIMUM_GAS, true);
      RecordOnly(Working(state));
  }

  lemma RecordOnly(w: Work)
    ensures Reports(Ok(MINIMUM_GAS, true), Done(w.ledger, MINIMUM_GAS, true), {}, w, w)
  {
  }

  method Prepay(tx: Tx, sender: Address, state: StateDb)
    requires state.Valid() && tx.GasCost() <= At(state.Value(), sender).balance
    modifies state`trie, state`cache
    ensures state.Valid() && state.Value() == Begin(tx, sender, old(state.Value()))
    ensures Follows(old(state.Layered()), state.Layered(), {sender})
  {
    hide Debit, Bump, At, Layers.View, Layers.Sound;
    var ok := state.SubBalance(sender, tx.GasCost());
    if !tx.RunsEvm() {
      state.IncrementNonce(sender);
    }
  }

  method SettleGas(ctx: Context, tx: Tx, sender: Address, gas: nat, state: StateDb)
    requires state.Valid()
    modifies state`trie, state`cache
    ensures state.Valid() && state.Value() == Finish(ctx, tx, sender, old(state.Value()), gas)
    ensures Follows(old(state.Layered()), state.Layered(), {sender, ctx.producer})
    ensures sender != ctx.producer && gas <= tx.gasLimit && 0 < tx.gasLimit < U64 && tx.GasCost() < U64
            && P.HasRoom(tx, old(state.Value()), sender) && P.HasRoom(tx, old(state.Value()), ctx.producer)
            ==> P.Pays(old(state.Value()), state.Value(), sender, (tx.gasLimit - gas) * tx.gasPrice, ctx.producer,
                       gas * tx.gasPrice)
  {
    hide Credit, At, Refund, Payment, Layers.View, Layers.Sound, P.Pays, P.HasRoom, Tx.GasCost;
    if sender != ctx.producer && gas <= tx.gasLimit && 0 < tx.gasLimit < U64 && tx.GasCost() < U64
       && P.HasRoom(tx, state.Value(), sender) && P.HasRoom(tx, state.Value(), ctx.producer) {
      P.FinishPays(ctx, tx, sender, state.Value(), gas);
    }
    if tx.RunsEvm() {
      state.SetNonce(sender, Wrap(tx.nonce + 1));
    }
    state.AddBalance(sender, Refund(tx.gasLimit, gas, tx.gasPrice));
    state.AddBalance(ctx.producer, Payment(gas, tx.gasPrice));
  }

  method ChargeFailure(ctx: Context, tx: Tx, sender: Address, state: StateDb)
    requires state.Valid() && tx.GasCost() <= At(state.Value(), sender).balance
    modifies state`trie, state`cache
    ensures state.Valid() && state.Value() == Abort(ctx, tx, sender, old(state.Value()))
    ensures Follows(old(state.Layered()), state.Layered(), {sender, ctx.producer})
  {
    hide Credit, Debit, Bump, At, Layers.View, Layers.Sound;
    var ok := state.SubBalance(sender, tx.GasCost());
    state.AddBalance(ctx.producer, tx.GasCost());
    state.IncrementNonce(sender);
  }

  /** Run one validated transaction, or revert to the snapshot and charge the whole gas limit. */
  method ExecuteTx(ctx: Context, tx: Tx, sender: Address, state: StateDb) returns (gas: nat, success: bool)
    requires state.Valid() && tx.GasCost() <= At(state.Value(), sender).balance
    modifies state
    ensures state.Valid() && state.root == old(state.root)
    ensures Working(state) == ExecuteWork(ctx, state.root, tx, sender, old(Working(state)))
    ensures var begun := BeginWork(tx, sender, old(Working(state)));
            Executed(state.Value(), gas, success)
            == Execute(ctx, tx, sender, old(state.Value()), Capped(state.root, tx, sender, begun))
  {
    hide Effect, Begin, Finish, Abort, At, Layers.View, Layers.Sound, Layers.Stale, Changed, Tx.GasCost, Capped;
    hide EffectWrites;
    ghost var taken, before := state.Layered(), Working(state);
    ghost var begun := BeginWork(tx, sender, before);
    var snapshot := state.Snapshot();
    Prepay(tx, sender, state);
    assert Working(state) == begun;
    var r := Dispatch(ctx, tx, sender, state);
    match r
    case Ok(g, s) =>
      SettleGas(ctx, tx, sender, g, state);
      gas, success := g, s;
    case Err =>
      state.Revert(snapshot, taken);
      assert state.Value() == before.ledger;
      ChargeFailure(ctx, tx, sender, state);
      gas, success := tx.gasLimit, false;
  }

  // ---------- Lists of transactions ----------

  datatype Receipt = Receipt(gas: nat, cumulative: nat, success: bool)

  function GasUsed(): Receipt -> nat { (r: Receipt) => r.gas }

  function FeeSum(txs: seq<Tx>, receipts: seq<Receipt>): nat
    requires |txs| == |receipts|
  {
    if txs == [] then 0 else
      var n := |txs| - 1;
      FeeSum(txs[..n], receipts[..n]) + receipts[n].gas * txs[n].gasPrice
  }

  lemma OneMore(ctx: Context, root: Accounts, txs: seq<Tx>, i: nat, w: Work)
    requires i < |txs|
    ensures var m := RunWork(ctx, root, txs[..i], w);
            && RunWork(ctx, root, txs[..i + 1], w) == ApplyWork(ctx, root, txs[i], m)
            && Fees(ctx, txs[..i + 1], w.ledger, Caps(ctx, root, txs[..i + 1], w))
               == Fees(ctx, txs[..i], w.ledger, Caps(ctx, root, txs[..i], w))
                  + Apply(ctx, txs[i], m.ledger, CapHits(ctx, root, txs[i], m)).gas * txs[i].gasPrice
  {
    hide Apply, ApplyWork, CapHits;
    assert txs[..i + 1][..i] == txs[..i];
    assert Caps(ctx, root, txs[..i + 1], w)[..i] == Caps(ctx, root, txs[..i], w);
    RunWorkLedger(ctx, root, txs[..i], w);
  }

  lemma OneMoreReceipt(txs: seq<Tx>, i: nat, receipts: seq<Receipt>, r: Receipt)
    requires i < |txs| && |receipts| == i
    ensures FeeSum(txs[..i + 1], receipts + [r]) == FeeSum(txs[..i], receipts) + r.gas * txs[i].gasPrice
    ensures Sum(receipts + [r], GasUsed()) == Sum(receipts, GasUsed()) + r.gas
  {
    assert txs[..i + 1][..i] == txs[..i] && (receipts + [r])[..i] == receipts;
    SumSnoc(receipts, r, GasUsed());
  }

  /** Validate, then execute. */
  method ApplyTx(ctx: Context, tx: Tx, state: StateDb) returns (gas: nat, success: bool)
    requires state.Valid()
    modifies state
    ensures state.Valid() && state.root == old(state.root)
    ensures Working(state) == ApplyWork(ctx, state.root, tx, old(Working(state)))
    ensures Executed(state.Value(), gas, success)
         == Apply(ctx, tx, old(state.Value()), CapHits(ctx, state.root, tx, old(Working(state))))
  {
    hide Execute, ExecuteWork, At, Layers.View, Layers.Sound, Layers.Stale, Tx.GasCost, Begin, Capped;
    var refusal := Validate(ctx, tx, state.Value());
    if refusal.Some? {
      return tx.gasLimit, false;
    }
    assert tx.GasCost() <= tx.TotalCost();
    hide Validate;
    gas, success := ExecuteTx(ctx, tx, tx.signer.value, state);
  }

  /** Every transaction gets a receipt, and the store ends where `RunWork` says. */
  method ExecuteTransactions(ctx: Context, txs: seq<Tx>, state: StateDb) returns (receipts: seq<Receipt>, total: nat)
    requires state.Valid()
    modifies state
    ensures state.Valid() && state.root == old(state.root)
    ensures |receipts| == |txs| && total == Sum(receipts, GasUsed())
    ensures Working(state) == RunWork(ctx, state.root, txs, old(Working(state)))
    ensures FeeSum(txs, receipts)
         == Fees(ctx, txs, old(state.Value()), Caps(ctx, state.root, txs, old(Working(state))))
  {
    hide Apply, ApplyWork, Layers.View, Layers.Sound, Layers.Stale, RunAll, RunWork, Fees, FeeSum, Caps, CapHits;
    receipts, total := [], 0;
    ghost var start := Working(state);
    NothingRun(ctx, state.root, start);
    for i := 0 to |txs|
      invariant state.Valid() && state.root == old(state.root)
      invariant |receipts| == i && total == Sum(receipts, GasUsed())
      invariant Working(state) == RunWork(ctx, state.root, txs[..i], start)
      invariant FeeSum(txs[..i], receipts) == Fees(ctx, txs[..i], start.ledger, Caps(ctx, state.root, txs[..i], start))
    {
      OneMore(ctx, state.root, txs, i, start);
      var gas, success := ApplyTx(ctx, txs[i], state);
      total := total + gas;
      var r := Receipt(gas, total, success);
      OneMoreReceipt(txs, i, receipts, r);
      receipts := receipts + [r];
    }
    assert txs[..|txs|] == txs;
  }

  lemma NothingRun(ctx: Context, root: Accounts, w: Work)
    ensures RunWork(ctx, root, [], w) == w && Caps(ctx, root, [], w) == []
    ensures Fees(ctx, [], w.ledger, []) == 0 && FeeSum([], []) == 0 && Sum([], GasUsed()) == 0
  {
  }

  // ---------- Blocks ----------

  /** Return every matured undelegation to its delegator. */
  method ProcessMatureUndelegations(now: nat, state: StateDb)
    requires state.Valid() && Total(state.Value()) <= U256_MAX
    modifies state
    ensures state.Valid() && state.root == old(state.root)
    ensures state.Value() == Matured(old(state.Value()), now)
    ensures old(state.Layered().Stale()) == {} ==> state.Layered().Stale() == {}
  {
    hide Total, Matured, Credit, Layers.View, Layers.Sound, Layers.Stale;
    var mature := set t | t in state.pending && t.unlockAt <= now;
    while mature != {}
      invariant state.Valid() && state.root == old(state.root) && Total(state.Value()) <= U256_MAX
      invariant Matured(state.Value(), now) == Matured(old(state.Value()), now)
      invariant mature == set t | t in state.pending && t.unlockAt <= now
      invariant old(state.Layered().Stale()) == {} ==> state.Layered().Stale() == {}
      decreases |mature|
    {
      var t :| t in mature;
      PayTicketKeeps(state.Value(), t);
      PayTicketMatures(state.Value(), now, t);
      state.AddBalance(t.delegator, state.pending[t]);
      state.DeleteUndelegation(t);
      mature := mature - {t};
    }
    NoneLeft(state.pending, now, mature);
    MaturedAlready(state.Value(), now);
  }

  lemma NoneLeft(pending: Tickets, now: nat, mature: set<Ticket>)
    requires mature == (set t | t in pending && t.unlockAt <= now) && mature == {}
    ensures forall t | t in pending :: t.unlockAt > now
  {
    forall t | t in pending ensures t.unlockAt > now {
      assert t !in mature;
    }
  }

  method TotalFees(txs: seq<Tx>, receipts: seq<Receipt>) returns (total: nat)
    requires |txs| == |receipts|
    ensures total == FeeSum(txs, receipts)
  {
    total := 0;
    for i := 0 to |txs|
      invariant total == FeeSum(txs[..i], receipts[..i])
    {
      OneMoreReceipt(txs, i, receipts[..i], receipts[i]);
      assert receipts[..i + 1] == receipts[..i] + [receipts[i]];
      total := total + receipts[i].gas * txs[i].gasPrice;
    }
    assert txs[..|txs|] == txs && receipts[..|txs|] == receipts;
  }

  method ApplyBlockRewards(number: nat, producer: Address, fees: nat, state: StateDb)
    requires state.Valid()
    modifies state`trie, state`cache
    ensures state.Valid() && state.Value() == Rewarded(old(state.Value()), number, producer, fees)
    ensures Follows(old(state.Layered()), state.Layered(), RewardWrites(producer, fees))
  {
    hide Credit, BlockReward, ProducerShare, TreasuryShare, Layers.View, Layers.Sound, Layers.Stale;
    state.AddBalance(producer, BlockReward(number) + ProducerShare(fees));
    if TreasuryShare(fees) != 0 {
      state.AddBalance(TREASURY, TreasuryShare(fees));
    }
  }

  /** Execute a block on a store opened at its parent's root, and commit. */
  method ExecuteAt(ctx: Context, number: nat, txs: seq<Tx>, parent: Accounts, undelegations: Tickets)
    returns (state: StateDb, receipts: seq<Receipt>, gas: nat)
    requires Total(Ledger(parent, undelegations)) <= U256_MAX
    ensures |receipts| == |txs| && gas == Sum(receipts, GasUsed())
    ensures FeeSum(txs, receipts) == BlockFees(ctx, txs, parent, undelegations)
    ensures state.Value() == BlockWork(ctx, number, txs, parent, undelegations).ledger
    ensures state.root == Committed(ctx, number, txs, parent, undelegations)
    ensures state.root == state.Value().accounts <==> BlockLost(ctx, txs, parent, undelegations) == {}
  {
    hide BlockLost;
    hide Total, Matured, RunAll, Fees, FeeSum, Rewarded, Layers.View, Layers.Sound, Layers.Stale, RunWork, Caps, TrieOf;
    state := new StateDb(parent, undelegations);
    ProcessMatureUndelegations(ctx.timestamp / 1000, state);
    assert Working(state) == Opened(ctx, parent, undelegations);
    receipts, gas := ExecuteTransactions(ctx, txs, state);
    var fees := TotalFees(txs, receipts);
    ApplyBlockRewards(number, ctx.producer, fees, state);
    assert Working(state) == BlockWork(ctx, number, txs, parent, undelegations);
    state.Commit();
    CommitsItsWorkIff(ctx, number, txs, parent, undelegations);
  }
}
