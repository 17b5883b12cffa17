/** Executing transactions and blocks over the ledger: every unit of value is accounted for. */
module Execution {
  import opened Common
  import opened Gas
  import opened Ledger
  import opened Sums
  import opened TicketColumn

  // ---------- Validation ----------

  datatype Refusal =
    | InvalidChainId | GasTooLow | InvalidSignature | InsufficientBalance | InvalidNonce | MissingRecipient
    | StakeTooLow | DelegationTooLow | AlreadyDelegated | InvalidValidator

  function TypeRefusal(tx: Tx, sender: Address, l: Ledger): Option<Refusal> {
    match tx.kind
    case Transfer => if tx.to.None? then Some(MissingRecipient) else None
    case Stake => if At(l, sender).stake == 0 && tx.value < MIN_VALIDATOR_STAKE then Some(StakeTooLow) else None
    case ValidatorRegister => if tx.value < MIN_VALIDATOR_STAKE then Some(StakeTooLow) else None
    case Delegate =>
      if tx.to.None? then Some(MissingRecipient)
      else if tx.value < MIN_DELEGATION then Some(DelegationTooLow)
      else if At(l, sender).delegatedTo.Some? && At(l, sender).delegatedTo != tx.to then Some(AlreadyDelegated)
      else if At(l, tx.to.value).stake == 0 then Some(InvalidValidator)
      else None
    case _ => None
  }

  /** Why a transaction is refused before execution, if it is. */
  function Validate(ctx: Context, tx: Tx, l: Ledger): (r: Option<Refusal>)
    ensures r.None? ==> tx.signer.Some? && tx.IntrinsicGas() <= tx.gasLimit
    ensures r.None? ==> tx.TotalCost() <= At(l, tx.signer.value).balance && tx.nonce == At(l, tx.signer.value).nonce
  {
    if tx.chainId != ctx.chainId then Some(InvalidChainId)
    else if tx.gasLimit < tx.IntrinsicGas() then Some(GasTooLow)
    else if tx.signer.None? then Some(InvalidSignature)
    else if At(l, tx.signer.value).balance < tx.TotalCost() then Some(InsufficientBalance)
    else if tx.nonce != At(l, tx.signer.value).nonce then Some(InvalidNonce)
    else TypeRefusal(tx, tx.signer.value, l)
  }

  // ---------- One transaction ----------

  datatype Executed = Executed(ledger: Ledger, gas: nat, success: bool)

  function WithNonce(l: Ledger, a: Address, nonce: nat): Ledger {
    Put(l, a, At(l, a).(nonce := nonce))
  }

  /** The ledger the transaction type runs on: gas prepaid, and the nonce advanced unless the virtual
      machine advances it itself. */
  function Begin(tx: Tx, sender: Address, l: Ledger): Ledger
    requires tx.GasCost() <= At(l, sender).balance
  {
    var prepaid := Debit(l, sender, tx.GasCost());
    if tx.RunsEvm() then prepaid else Bump(prepaid, sender)
  }

  function Finish(ctx: Context, tx: Tx, sender: Address, l: Ledger, gas: nat): Ledger {
    var counted := if tx.RunsEvm() then WithNonce(l, sender, Wrap(tx.nonce + 1)) else l;
    var refunded := Credit(counted, sender, Refund(tx.gasLimit, gas, tx.gasPrice));
    Credit(refunded, ctx.producer, Payment(gas, tx.gasPrice))
  }

  /** A failed transaction keeps nothing but the gas charge and the nonce. */
  function Abort(ctx: Context, tx: Tx, sender: Address, l: Ledger): Ledger
    requires tx.GasCost() <= At(l, sender).balance
  {
    Bump(Credit(Debit(l, sender, tx.GasCost()), ctx.producer, tx.GasCost()), sender)
  }

  function Execute(ctx: Context, tx: Tx, sender: Address, l: Ledger, capped: bool): Executed
    requires tx.GasCost() <= At(l, sender).balance
  {
    match Effect(ctx, tx, sender, Begin(tx, sender, l), capped)
    case Done(after, gas, success) => Executed(Finish(ctx, tx, sender, after, gas), gas, success)
    case Failed => Executed(Abort(ctx, tx, sender, l), tx.gasLimit, false)
  }

  /** Room below the 256-bit ceiling for what one transaction can credit. */
  ghost predicate Roomy(l: Ledger) {
    Total(l) + 2 * U64 <= U256_MAX
  }

  // ---------- Where the value goes ----------

  lemma BumpKeeps(l: Ledger, a: Address)
    ensures Total(Bump(l, a)) == Total(l)
  {
    hide Total;
    var acc := At(l, a).(nonce := if At(l, a).nonce < U64 - 1 then At(l, a).nonce + 1 else U64 - 1);
    assert Bump(l, a) == Put(l, a, acc);
    PutTotal(l, a, acc);
  }

  lemma BeginTakes(tx: Tx, sender: Address, l: Ledger)
    requires tx.GasCost() <= At(l, sender).balance && Valid(l)
    ensures Total(Begin(tx, sender, l)) + tx.GasCost() == Total(l) && Valid(Begin(tx, sender, l))
    ensures Begin(tx, sender, l).pending == l.pending
  {
    hide Total;
    var prepaid := Debit(l, sender, tx.GasCost());
    DebitTakes(l, sender, tx.GasCost());
    BumpKeeps(prepaid, sender);
  }

  lemma FinishAdds(ctx: Context, tx: Tx, sender: Address, l: Ledger, gas: nat)
    requires Roomy(l) && Valid(l)
    ensures Total(Finish(ctx, tx, sender, l, gas))
         == Total(l) + Refund(tx.gasLimit, gas, tx.gasPrice) + Payment(gas, tx.gasPrice)
    ensures Valid(Finish(ctx, tx, sender, l, gas))
  {
    hide Total, Refund, Payment, Credit, At, Put, Valid, Holdings;
    var counted := if tx.RunsEvm() then WithNonce(l, sender, Wrap(tx.nonce + 1)) else l;
    NonceKeeps(l, sender, Wrap(tx.nonce + 1));
    var refund, payment := Refund(tx.gasLimit, gas, tx.gasPrice), Payment(gas, tx.gasPrice);
    WrapsFit(tx.gasLimit, gas, tx.gasPrice);
    CreditAdds(counted, sender, refund);
    CreditValid(counted, sender, refund);
    var refunded := Credit(counted, sender, refund);
    CreditAdds(refunded, ctx.producer, payment);
    CreditValid(refunded, ctx.producer, payment);
  }

  lemma WrapsFit(limit: nat, gas: nat, price: nat)
    ensures Refund(limit, gas, price) < U64 && Payment(gas, price) < U64
  {
  }

  lemma NonceKeeps(l: Ledger, a: Address, nonce: nat)
    requires Valid(l)
    ensures Total(WithNonce(l, a, nonce)) == Total(l) && Valid(WithNonce(l, a, nonce))
  {
    hide Total, At, Put, Valid;
    PutTotal(l, a, At(l, a).(nonce := nonce));
    NonceValid(l, a, nonce);
  }

  lemma NonceValid(l: Ledger, a: Address, nonce: nat)
    requires Valid(l)
    ensures Valid(WithNonce(l, a, nonce))
  {
  }

  lemma CreditValid(l: Ledger, a: Address, x: nat)
    requires Valid(l)
    ensures Valid(Credit(l, a, x))
  {
  }

  lemma BumpValid(l: Ledger, a: Address)
    requires Valid(l)
    ensures Valid(Bump(l, a))
  {
  }

  lemma AbortKeeps(ctx: Context, tx: Tx, sender: Address, l: Ledger)
    requires tx.GasCost() <= At(l, sender).balance && Total(l) <= U256_MAX && Valid(l)
    ensures Total(Abort(ctx, tx, sender, l)) == Total(l) && Valid(Abort(ctx, tx, sender, l))
  {
    var charged := Debit(l, sender, tx.GasCost());
    DebitTakes(l, sender, tx.GasCost());
    PutValid(l, sender, At(l, sender).(balance := At(l, sender).balance - tx.GasCost()));
    hide Total, Credit, Bump, Put, At, Valid;
    CreditAdds(charged, ctx.producer, tx.GasCost());
    CreditValid(charged, ctx.producer, tx.GasCost());
    var paid := Credit(charged, ctx.producer, tx.GasCost());
    BumpKeeps(paid, sender);
    BumpValid(paid, sender);
  }

  /** What a transaction adds to the total: nothing when it fails, and otherwise the error of the 64-bit
      gas arithmetic less the undelegation it replaces. */
  function Drift(ctx: Context, tx: Tx, sender: Address, l: Ledger, capped: bool): int
    requires tx.GasCost() <= At(l, sender).balance
  {
    match Effect(ctx, tx, sender, Begin(tx, sender, l), capped)
    case Done(_, gas, _) =>
      Refund(tx.gasLimit, gas, tx.gasPrice) + Payment(gas, tx.gasPrice) - tx.GasCost() - Overwritten(ctx, tx, sender, l)
    case Failed => 0
  }

  /** The exact account of one transaction, on every path. */
  lemma ExecuteAccounts(ctx: Context, tx: Tx, sender: Address, l: Ledger, capped: bool)
    requires tx.GasCost() <= At(l, sender).balance
    requires Roomy(l) && Valid(l) && FairMachine(ctx)
    ensures Total(Execute(ctx, tx, sender, l, capped).ledger) == Total(l) + Drift(ctx, tx, sender, l, capped)
    ensures Valid(Execute(ctx, tx, sender, l, capped).ledger)
  {
    hide Total, Effect, Refund, Payment, Begin, Finish, Abort, At, Valid, FairMachine, Tx.GasCost;
    var begun := Begin(tx, sender, l);
    BeginTakes(tx, sender, l);
    match Effect(ctx, tx, sender, begun, capped)
    case Done(after, gas, success) =>
      EffectKeeps(ctx, tx, sender, begun, capped);
      EffectValid(ctx, tx, sender, begun, capped);
      FinishAdds(ctx, tx, sender, after, gas);
      SameTickets(ctx, tx, sender, l, begun);
    case Failed =>
      AbortKeeps(ctx, tx, sender, l);
  }

  lemma SameTickets(ctx: Context, tx: Tx, sender: Address, l: Ledger, m: Ledger)
    requires l.pending == m.pending
    ensures Overwritten(ctx, tx, sender, l) == Overwritten(ctx, tx, sender, m)
  {
  }

  // ---------- Gas within the limit ----------

  /** The flat charge of the types whose charge does not depend on the gas limit check. */
  function FlatGas(kind: Kind): nat {
    match kind
    case Stake => 42_000
    case Unstake => 42_000
    case ValidatorExit => 42_000
    case ClaimDelegationRewards => 42_000
    case ValidatorRegister => 63_000
    case Delegate => 63_000
    case Undelegate => 63_000
    case _ => 0
  }

  /** After validation, the gas of a completed transaction is within its limit exactly when the limit
      covers the flat charge of its type. */
  lemma WithinLimitIff(ctx: Context, tx: Tx, sender: Address, l: Ledger, capped: bool)
    requires tx.IntrinsicGas() <= tx.gasLimit && FairMachine(ctx)
    requires Effect(ctx, tx, sender, l, capped).Done?
    ensures Effect(ctx, tx, sender, l, capped).gas <= tx.gasLimit <==> FlatGas(tx.kind) <= tx.gasLimit
  {
    hide DataGas, Move, ApplyTouched, At;
    assert Fair(ctx.evm(tx, sender, l.accounts), l.accounts, tx.gasLimit);
    hide Fair;
    match tx.kind
    case ContractCreate => EvmGas(tx, l, ctx.evm(tx, sender, l.accounts));
    case ContractCall => if At(l, tx.to.value).code { EvmGas(tx, l, ctx.evm(tx, sender, l.accounts)); }
    case _ =>
  }

  lemma EvmGas(tx: Tx, l: Ledger, e: Evm)
    requires tx.IntrinsicGas() <= tx.gasLimit && Fair(e, l.accounts, tx.gasLimit) && OnEvm(tx, l, e).Done?
    ensures OnEvm(tx, l, e).gas <= tx.gasLimit
  {
  }

  /** What a sender can check: the limit covers the flat charge and the whole cost fits 64 bits. */
  predicate Covered(tx: Tx) {
    FlatGas(tx.kind) <= tx.gasLimit < U64 && tx.GasCost() < U64
  }

  /** A covered transaction can lose value only through the ticket it replaces. */
  lemma CoveredDrift(ctx: Context, tx: Tx, sender: Address, l: Ledger, capped: bool)
    requires tx.GasCost() <= At(l, sender).balance && tx.IntrinsicGas() <= tx.gasLimit
    requires FairMachine(ctx) && Covered(tx)
    ensures Drift(ctx, tx, sender, l, capped)
         == if Effect(ctx, tx, sender, Begin(tx, sender, l), capped).Done?
            then 0 - Overwritten(ctx, tx, sender, l) else 0
  {
    hide Effect, Refund, Payment, Begin, At, FairMachine, DataGas, Exact;
    match Effect(ctx, tx, sender, Begin(tx, sender, l), capped)
    case Done(_, gas, _) =>
      WithinLimitIff(ctx, tx, sender, Begin(tx, sender, l), capped);
      CoveredIsExact(tx.gasLimit, gas, tx.gasPrice);
      Product(tx);
      GasIsExactIff(tx.gasLimit, gas, tx.gasPrice);
    case Failed =>
  }

  lemma Product(tx: Tx)
    requires tx.IntrinsicGas() <= tx.gasLimit
    ensures tx.gasLimit * tx.gasPrice == tx.GasCost() && tx.gasLimit >= 2
  {
  }

  /** A creation, or a call to an account that holds code. */
  predicate EntersMachine(tx: Tx, l: Ledger) {
    tx.kind == ContractCreate || (tx.kind == ContractCall && tx.to.Some? && At(l, tx.to.value).code)
  }

  /** What a transaction outside the virtual machine is charged for completing. */
  function PlainGas(tx: Tx): nat {
    if tx.kind == ContractCall then MINIMUM_GAS + DataGas(tx.data)
    else if FlatGas(tx.kind) > 0 then FlatGas(tx.kind)
    else TRANSFER_GAS
  }

  lemma PlainGasIsGas(ctx: Context, tx: Tx, sender: Address, l: Ledger, capped: bool)
    requires !EntersMachine(tx, l) && Effect(ctx, tx, sender, l, capped).Done?
    ensures Effect(ctx, tx, sender, l, capped).gas == PlainGas(tx)
  {
    hide DataGas, Move;
  }

  /** With a 64-bit limit, a transaction outside the virtual machine that replaces no ticket conserves the
      total exactly when it fails or the gas arithmetic of its type is exact. */
  lemma ConservesIff(ctx: Context, tx: Tx, sender: Address, l: Ledger, capped: bool)
    requires tx.GasCost() <= At(l, sender).balance && tx.IntrinsicGas() <= tx.gasLimit < U64
    requires Roomy(l) && Valid(l) && FairMachine(ctx) && Overwritten(ctx, tx, sender, l) == 0
    requires !EntersMachine(tx, l)
    ensures Total(Execute(ctx, tx, sender, l, capped).ledger) == Total(l)
       <==> Effect(ctx, tx, sender, Begin(tx, sender, l), capped).Failed?
            || Exact(tx.gasLimit, PlainGas(tx), tx.gasPrice)
  {
    hide Effect, Refund, Payment, FairMachine, DataGas, Exact, Total, Execute, Valid, Roomy;
    var begun := Begin(tx, sender, l);
    assert !EntersMachine(tx, begun);
    hide Begin, At;
    ExecuteAccounts(ctx, tx, sender, l, capped);
    Product(tx);
    match Effect(ctx, tx, sender, begun, capped)
    case Done(_, gas, _) =>
      PlainGasIsGas(ctx, tx, sender, begun, capped);
      GasIsExactIff(tx.gasLimit, gas, tx.gasPrice);
    case Failed =>
  }

  /** In the virtual machine, whose gas depends on the run, a completed transaction conserves the total
      exactly when the arithmetic is exact at the gas it used. */
  lemma MachineConservesIff(ctx: Context, tx: Tx, sender: Address, l: Ledger, capped: bool)
    requires tx.GasCost() <= At(l, sender).balance && tx.IntrinsicGas() <= tx.gasLimit < U64
    requires Roomy(l) && Valid(l) && FairMachine(ctx) && EntersMachine(tx, l)
    ensures var begun := Effect(ctx, tx, sender, Begin(tx, sender, l), capped);
            begun.Done? && begun.gas < U64 ==>
              (Total(Execute(ctx, tx, sender, l, capped).ledger) == Total(l)
               <==> Exact(tx.gasLimit, begun.gas, tx.gasPrice))
  {
    hide Effect, Refund, Payment, Begin, At, FairMachine, DataGas, Exact, Total, Execute, Valid, Roomy;
    ExecuteAccounts(ctx, tx, sender, l, capped);
    Product(tx);
    match Effect(ctx, tx, sender, Begin(tx, sender, l), capped)
    case Done(_, gas, _) =>
      if gas < U64 {
        GasIsExactIff(tx.gasLimit, gas, tx.gasPrice);
      }
    case Failed =>
  }

  /** A machine that uses all the gas it is given and changes nothing. */
  function Burner(): (Tx, Address, Accounts) -> Evm {
    (tx: Tx, sender: Address, m: Accounts) => Ran(false, tx.gasLimit, map[])
  }

  lemma BurnerIsFair(ctx: Context)
    ensures FairMachine(ctx.(evm := Burner()))
  {
    assert After(map[]) == map[] && forall m :: Before(m, map[]) == map[];
  }

  lemma BurnerBurns(ctx: Context, tx: Tx, sender: Address, l: Ledger, capped: bool)
    requires tx.GasCost() <= At(l, sender).balance && EntersMachine(tx, l)
    ensures Effect(ctx.(evm := Burner()), tx, sender, Begin(tx, sender, l), capped)
         == Done(Begin(tx, sender, l), tx.gasLimit, false)
  {
    assert tx.kind == ContractCall ==> At(Begin(tx, sender, l), tx.to.value).code == At(l, tx.to.value).code;
  }

  lemma MachineGasWithinLimit(ctx: Context, tx: Tx, sender: Address, l: Ledger, capped: bool)
    requires tx.GasCost() <= At(l, sender).balance && tx.IntrinsicGas() <= tx.gasLimit
    requires FairMachine(ctx) && EntersMachine(tx, l)
    ensures var begun := Effect(ctx, tx, sender, Begin(tx, sender, l), capped);
            begun.Done? ==> begun.gas <= tx.gasLimit
  {
    var begun := Begin(tx, sender, l);
    assert tx.kind == ContractCall ==> At(begun, tx.to.value).code == At(l, tx.to.value).code;
    hide Begin, At;
    assert Fair(ctx.evm(tx, sender, begun.accounts), begun.accounts, tx.gasLimit);
  }

  /** What can be told before the run: a transaction that enters the machine conserves the total whatever
      the machine does exactly when its whole gas cost fits 64 bits. */
  lemma MachineAlwaysConservesIff(ctx: Context, tx: Tx, sender: Address, l: Ledger, capped: bool)
    requires tx.GasCost() <= At(l, sender).balance && tx.IntrinsicGas() <= tx.gasLimit < U64
    requires Roomy(l) && Valid(l) && EntersMachine(tx, l)
    ensures (forall evm | FairMachine(ctx.(evm := evm)) ::
               Total(Execute(ctx.(evm := evm), tx, sender, l, capped).ledger) == Total(l))
       <==> tx.GasCost() < U64
  {
    hide Effect, Begin, At, FairMachine, DataGas, Exact, Total, Execute, Valid, Roomy, EntersMachine, Burner;
    assert tx.GasCost() == tx.gasLimit * tx.gasPrice by { Product(tx); }
    if tx.GasCost() < U64 {
      forall evm | FairMachine(ctx.(evm := evm))
        ensures Total(Execute(ctx.(evm := evm), tx, sender, l, capped).ledger) == Total(l)
      {
        MachineConserves(ctx.(evm := evm), tx, sender, l, capped);
      }
    } else {
      BurnerIsFair(ctx);
      BurnerBurns(ctx, tx, sender, l, capped);
      MachineConservesIff(ctx.(evm := Burner()), tx, sender, l, capped);
      BurnedIsNotExact(tx.gasLimit, tx.gasPrice);
    }
  }

  lemma MachineConserves(ctx: Context, tx: Tx, sender: Address, l: Ledger, capped: bool)
    requires tx.GasCost() <= At(l, sender).balance && tx.IntrinsicGas() <= tx.gasLimit < U64 && tx.GasCost() < U64
    requires Roomy(l) && Valid(l) && FairMachine(ctx) && EntersMachine(tx, l)
    ensures Total(Execute(ctx, tx, sender, l, capped).ledger) == Total(l)
  {
    hide Effect, Begin, FairMachine, DataGas, Exact, Total, Valid, EntersMachine, Finish, At;
    MachineConservesIff(ctx, tx, sender, l, capped);
    match Effect(ctx, tx, sender, Begin(tx, sender, l), capped)
    case Done(_, gas, _) =>
      MachineGasWithinLimit(ctx, tx, sender, l, capped);
      Product(tx);
      CoveredIsExact(tx.gasLimit, gas, tx.gasPrice);
    case Failed => AbortKeeps(ctx, tx, sender, l);
  }

  lemma BurnedIsNotExact(limit: nat, price: nat)
    requires limit * price >= U64
    ensures !Exact(limit, limit, price)
  {
  }

  /** A limit below the flat charge, at a price whose products fit 64 bits, mints 2^64 units. */
  lemma ShortLimitMints(ctx: Context, tx: Tx, sender: Address, l: Ledger, capped: bool)
    requires tx.GasCost() <= At(l, sender).balance && tx.IntrinsicGas() <= tx.gasLimit < FlatGas(tx.kind)
    requires Roomy(l) && Valid(l) && FairMachine(ctx) && Overwritten(ctx, tx, sender, l) == 0
    requires 0 < FlatGas(tx.kind) * tx.gasPrice < U64
    requires Effect(ctx, tx, sender, Begin(tx, sender, l), capped).Done?
    ensures Total(Execute(ctx, tx, sender, l, capped).ledger) == Total(l) + U64
  {
    ExecuteAccounts(ctx, tx, sender, l, capped);
    FlatGasIsGas(ctx, tx, sender, Begin(tx, sender, l), capped);
    hide Effect, Refund, Payment, Begin, At, FairMachine, DataGas, Total, Execute, Valid, Roomy;
    DeficitMints(tx.gasLimit, FlatGas(tx.kind), tx.gasPrice);
    Product(tx);
  }

  lemma FlatGasIsGas(ctx: Context, tx: Tx, sender: Address, l: Ledger, capped: bool)
    requires FlatGas(tx.kind) > 0 && Effect(ctx, tx, sender, l, capped).Done?
    ensures Effect(ctx, tx, sender, l, capped).gas == FlatGas(tx.kind)
  {
  }

  /** Such a transaction exists: a reward claim at the minimum gas limit. */
  lemma MintingExample(ctx: Context)
    requires FairMachine(ctx) && ctx.chainId == 9000 && ctx.producer == 7
    ensures var acc := Account(21_000, 0, 0, Some(2), 5, false);
            var l := Ledger(map[1 := acc], map[]);
            var tx := Tx(ClaimDelegationRewards, 9000, 0, None, 0, [], 21_000, 1, Some(1));
            Validate(ctx, tx, l).None? && Total(Execute(ctx, tx, 1, l, false).ledger) == Total(l) + U64
  {
    var acc := Account(21_000, 0, 0, Some(2), 5, false);
    var l := Ledger(map[1 := acc], map[]);
    var tx := Tx(ClaimDelegationRewards, 9000, 0, None, 0, [], 21_000, 1, Some(1));
    assert At(l, 1) == acc && tx.IntrinsicGas() == 21_000;
    assert Total(l) == 21_005 by { SmallTotal(acc); }
    assert At(Begin(tx, 1, l), 1).delegatedTo.Some?;
    ShortLimitMints(ctx, tx, 1, l, false);
  }

  lemma SmallTotal(acc: Account)
    ensures Total(Ledger(map[1 := acc], map[])) == Holdings(acc)
  {
    var none: Accounts := map[];
    MapSumPut(none, 1, acc, Holdings);
    assert none[1 := acc] == map[1 := acc];
    assert MapSum(none, Holdings) == 0;
  }

  // ---------- Nonces ----------

  lemma EffectNonces(ctx: Context, tx: Tx, sender: Address, l: Ledger, capped: bool, a: Address)
    requires !tx.RunsEvm() && Effect(ctx, tx, sender, l, capped).Done?
    ensures At(Effect(ctx, tx, sender, l, capped).ledger, a).nonce == At(l, a).nonce
  {
  }

  /** Every validated transaction advances its sender's nonce by exactly one, whether it completes or
      fails; outside the virtual machine nobody else's nonce moves. */
  lemma NonceAdvancesByOne(ctx: Context, tx: Tx, sender: Address, l: Ledger, capped: bool, a: Address)
    requires tx.GasCost() <= At(l, sender).balance && tx.nonce == At(l, sender).nonce < U64 - 1
    ensures At(Execute(ctx, tx, sender, l, capped).ledger, sender).nonce == tx.nonce + 1
    ensures !tx.RunsEvm() && a != sender ==> At(Execute(ctx, tx, sender, l, capped).ledger, a).nonce == At(l, a).nonce
  {
    hide Effect, Refund, Payment;
    var begun := Begin(tx, sender, l);
    match Effect(ctx, tx, sender, begun, capped)
    case Done(after, gas, _) =>
      FinishNonces(ctx, tx, sender, after, gas, sender);
      FinishNonces(ctx, tx, sender, after, gas, a);
      if !tx.RunsEvm() {
        EffectNonces(ctx, tx, sender, begun, capped, sender);
        EffectNonces(ctx, tx, sender, begun, capped, a);
      }
    case Failed =>
  }

  lemma FinishNonces(ctx: Context, tx: Tx, sender: Address, l: Ledger, gas: nat, a: Address)
    ensures At(Finish(ctx, tx, sender, l, gas), a).nonce
         == if tx.RunsEvm() && a == sender then Wrap(tx.nonce + 1) else At(l, a).nonce
  {
    hide Refund, Payment, Cap256;
  }

  /** So no transaction executes twice in a row. */
  lemma ReplayIsRefused(ctx: Context, tx: Tx, l: Ledger, capped: bool)
    requires Validate(ctx, tx, l).None? && tx.nonce < U64 - 1
    ensures Validate(ctx, tx, Execute(ctx, tx, tx.signer.value, l, capped).ledger).Some?
  {
    NonceAdvancesByOne(ctx, tx, tx.signer.value, l, capped, tx.signer.value);
  }

  // ---------- Lists of transactions ----------

  /** A refused transaction changes nothing and is billed its gas limit in the receipt only. */
  function Apply(ctx: Context, tx: Tx, l: Ledger, capped: bool): Executed {
    if Validate(ctx, tx, l).Some? then Executed(l, tx.gasLimit, false)
    else Execute(ctx, tx, tx.signer.value, l, capped)
  }

  function RunAll(ctx: Context, txs: seq<Tx>, l: Ledger, caps: seq<bool>): Ledger
    requires |caps| == |txs|
  {
    if txs == [] then l else
      var n := |txs| - 1;
      Apply(ctx, txs[n], RunAll(ctx, txs[..n], l, caps[..n]), caps[n]).ledger
  }

  /** The gas of each receipt times the price of its transaction. */
  function Fees(ctx: Context, txs: seq<Tx>, l: Ledger, caps: seq<bool>): nat
    requires |caps| == |txs|
  {
    if txs == [] then 0 else
      var n := |txs| - 1;
      Fees(ctx, txs[..n], l, caps[..n])
      + Apply(ctx, txs[n], RunAll(ctx, txs[..n], l, caps[..n]), caps[n]).gas * txs[n].gasPrice
  }

  predicate Undelegates(tx: Tx) {
    tx.kind == Undelegate && tx.signer.Some? && tx.to.Some?
  }

  function TicketOf(ctx: Context, tx: Tx): Ticket
    requires Undelegates(tx)
  {
    Ticket(tx.signer.value, tx.to.value, UnlockAt(ctx))
  }

  /** No undelegation of the list meets a ticket already pending, or another of the list. */
  predicate FreshTickets(ctx: Context, txs: seq<Tx>, pending: Tickets) {
    && (forall i | 0 <= i < |txs| && Undelegates(txs[i]) :: TicketOf(ctx, txs[i]) !in pending)
    && (forall i, j | 0 <= i < j < |txs| && Undelegates(txs[i]) && Undelegates(txs[j]) ::
          TicketOf(ctx, txs[i]) != TicketOf(ctx, txs[j]))
  }

  /** The only tickets that appear are those of the list. */
  ghost predicate TicketsFrom(ctx: Context, txs: seq<Tx>, before: Tickets, after: Tickets) {
    forall t | t in after && t !in before ::
      exists i :: 0 <= i < |txs| && Undelegates(txs[i]) && t == TicketOf(ctx, txs[i])
  }

  lemma ExecuteTickets(ctx: Context, tx: Tx, sender: Address, l: Ledger, capped: bool, t: Ticket)
    requires tx.GasCost() <= At(l, sender).balance && tx.signer == Some(sender)
    requires t in Execute(ctx, tx, sender, l, capped).ledger.pending && t !in l.pending
    ensures Undelegates(tx) && t == TicketOf(ctx, tx)
  {
    hide Refund, Payment, DataGas, Cap256;
    var begun := Begin(tx, sender, l);
    assert begun.pending == l.pending;
    if Effect(ctx, tx, sender, begun, capped).Done? {
      EffectTickets(ctx, tx, sender, begun, capped, t);
    }
  }

  lemma EffectTickets(ctx: Context, tx: Tx, sender: Address, l: Ledger, capped: bool, t: Ticket)
    requires Effect(ctx, tx, sender, l, capped).Done?
    ensures t in Effect(ctx, tx, sender, l, capped).ledger.pending ==>
              t in l.pending || (tx.kind == Undelegate && tx.to.Some?
                                 && t == Ticket(sender, tx.to.value, UnlockAt(ctx)))
  {
  }

  /** Executing any list of transactions leaves the total of balances, stakes, delegations and pending
      undelegations as it was, whatever completes, fails or is refused. */
  lemma {:induction false} RunConserves(ctx: Context, txs: seq<Tx>, l: Ledger, caps: seq<bool>)
    requires |caps| == |txs| && Roomy(l) && Valid(l) && FairMachine(ctx)
    requires forall tx | tx in txs :: Covered(tx)
    requires FreshTickets(ctx, txs, l.pending)
    ensures Total(RunAll(ctx, txs, l, caps)) == Total(l) && Valid(RunAll(ctx, txs, l, caps))
    ensures TicketsFrom(ctx, txs, l.pending, RunAll(ctx, txs, l, caps).pending)
  {
    if txs != [] {
      var n := |txs| - 1;
      var last := txs[n];
      assert FreshTickets(ctx, txs[..n], l.pending);
      RunConserves(ctx, txs[..n], l, caps[..n]);
      var m := RunAll(ctx, txs[..n], l, caps[..n]);
      ApplyConserves(ctx, txs, l.pending, m, caps[n]);
    }
  }

  lemma ApplyConserves(ctx: Context, txs: seq<Tx>, before: Tickets, l: Ledger, capped: bool)
    requires txs != [] && Roomy(l) && Valid(l) && FairMachine(ctx)
    requires Covered(txs[|txs| - 1]) && FreshTickets(ctx, txs, before)
    requires TicketsFrom(ctx, txs[..|txs| - 1], before, l.pending)
    ensures var r := Apply(ctx, txs[|txs| - 1], l, capped).ledger;
            Total(r) == Total(l) && Valid(r) && TicketsFrom(ctx, txs, before, r.pending)
  {
    hide Total, Valid, Roomy, FairMachine, Execute, Covered, Drift, At, UnlockAt;
    var n := |txs| - 1;
    var last := txs[n];
    var r := Apply(ctx, last, l, capped).ledger;
    if Validate(ctx, last, l).None? {
      var sender := last.signer.value;
      hide Validate;
      ExecuteAccounts(ctx, last, sender, l, capped);
      CoveredDrift(ctx, last, sender, l, capped);
      forall t | t in r.pending && t !in before
        ensures exists i :: 0 <= i < |txs| && Undelegates(txs[i]) && t == TicketOf(ctx, txs[i])
      {
        if t in l.pending {
          var i :| 0 <= i < n && Undelegates(txs[..n][i]) && t == TicketOf(ctx, txs[..n][i]);
          assert Undelegates(txs[i]) && t == TicketOf(ctx, txs[i]);
        } else {
          ExecuteTickets(ctx, last, sender, l, capped, t);
          assert Undelegates(txs[n]) && t == TicketOf(ctx, txs[n]);
        }
      }
      NothingReplaced(ctx, txs, before, l);
    } else {
      Extend(ctx, txs, before, l.pending);
    }
  }

  lemma Extend(ctx: Context, txs: seq<Tx>, before: Tickets, after: Tickets)
    requires txs != [] && TicketsFrom(ctx, txs[..|txs| - 1], before, after)
    ensures TicketsFrom(ctx, txs, before, after)
  {
    forall t | t in after && t !in before
      ensures exists i :: 0 <= i < |txs| && Undelegates(txs[i]) && t == TicketOf(ctx, txs[i])
    {
      var front := txs[..|txs| - 1];
      var i :| 0 <= i < |front| && Undelegates(front[i]) && t == TicketOf(ctx, front[i]);
      assert Undelegates(txs[i]) && t == TicketOf(ctx, txs[i]);
    }
  }

  lemma NothingReplaced(ctx: Context, txs: seq<Tx>, before: Tickets, l: Ledger)
    requires txs != [] && FreshTickets(ctx, txs, before) && txs[|txs| - 1].signer.Some?
    requires TicketsFrom(ctx, txs[..|txs| - 1], before, l.pending)
    ensures Overwritten(ctx, txs[|txs| - 1], txs[|txs| - 1].signer.value, l) == 0
  {
    var n := |txs| - 1;
    if Undelegates(txs[n]) {
      var t := TicketOf(ctx, txs[n]);
      forall i | 0 <= i < n && Undelegates(txs[..n][i]) ensures TicketOf(ctx, txs[..n][i]) != t {
        assert txs[..n][i] == txs[i];
      }
      assert t !in l.pending;
    }
  }

  // ---------- Matured undelegations ----------

  function MatureOf(pending: Tickets, now: nat, a: Address): Tickets {
    map t | t in pending && t.unlockAt <= now && t.delegator == a :: pending[t]
  }

  /** What the matured undelegations of `a` return. */
  ghost function Owed(pending: Tickets, now: nat, a: Address): nat {
    MapSum(MatureOf(pending, now, a), Id())
  }

  function Owners(pending: Tickets, now: nat): set<Address> {
    set t | t in pending && t.unlockAt <= now :: t.delegator
  }

  ghost function MaturedAccount(l: Ledger, now: nat, a: Address): Account {
    At(l, a).(balance := At(l, a).balance + Owed(l.pending, now, a))
  }

  /** Every delegator holds what was owed, and only tickets that have not matured remain. */
  ghost function Matured(l: Ledger, now: nat): Ledger {
    Ledger(map a | a in l.accounts.Keys + Owners(l.pending, now) :: MaturedAccount(l, now, a),
           NotDue(l.pending, now))
  }

  /** Pay out one matured ticket. */
  function PayTicket(l: Ledger, t: Ticket): Ledger
    requires t in l.pending
  {
    Credit(l, t.delegator, l.pending[t]).(pending := l.pending - {t})
  }

  lemma DropTicket(l: Ledger, t: Ticket)
    requires t in l.pending
    ensures Total(l.(pending := l.pending - {t})) + l.pending[t] == Total(l)
  {
    hide MapSum, Worth, Id;
    MapSumWithout(l.pending, t, Id());
    IdIs(l.pending[t]);
  }

  lemma PayTicketKeeps(l: Ledger, t: Ticket)
    requires t in l.pending && Total(l) <= U256_MAX
    ensures Total(PayTicket(l, t)) == Total(l)
    ensures var acc := At(l, t.delegator);
            At(PayTicket(l, t), t.delegator) == acc.(balance := acc.balance + l.pending[t])
  {
    hide Total;
    var dropped := l.(pending := l.pending - {t});
    DropTicket(l, t);
    CreditAdds(dropped, t.delegator, l.pending[t]);
    assert PayTicket(l, t) == Credit(dropped, t.delegator, l.pending[t]);
  }

  lemma OwedAfter(pending: Tickets, now: nat, t: Ticket, a: Address)
    requires t in pending && t.unlockAt <= now
    ensures Owed(pending, now, a) == Owed(pending - {t}, now, a) + if a == t.delegator then pending[t] else 0
  {
    hide MapSum, Id;
    if a == t.delegator {
      MapSumWithout(MatureOf(pending, now, a), t, Id());
      assert MatureOf(pending, now, a) - {t} == MatureOf(pending - {t}, now, a);
      IdIs(pending[t]);
    } else {
      assert MatureOf(pending, now, a) == MatureOf(pending - {t}, now, a);
    }
  }

  lemma NothingOwed(pending: Tickets, now: nat, a: Address)
    requires a !in Owners(pending, now)
    ensures Owed(pending, now, a) == 0
  {
    assert MatureOf(pending, now, a) == map[];
  }

  lemma SameOwners(pending: Tickets, now: nat, t: Ticket)
    requires t in pending && t.unlockAt <= now
    ensures Owners(pending, now) == Owners(pending - {t}, now) + {t.delegator}
  {
    forall a | a in Owners(pending, now) ensures a in Owners(pending - {t}, now) + {t.delegator} {
      var u :| u in pending && u.unlockAt <= now && u.delegator == a;
      assert u == t || u in pending - {t};
    }
  }

  lemma SameMaturedAccount(l: Ledger, now: nat, t: Ticket, a: Address)
    requires t in l.pending && t.unlockAt <= now && Total(l) <= U256_MAX
    ensures MaturedAccount(PayTicket(l, t), now, a) == MaturedAccount(l, now, a)
  {
    hide Total, Owed;
    PayTicketKeeps(l, t);
    OwedAfter(l.pending, now, t, a);
  }

  /** Paying tickets one at a time arrives at the same ledger. */
  lemma PayTicketMatures(l: Ledger, now: nat, t: Ticket)
    requires t in l.pending && t.unlockAt <= now && Total(l) <= U256_MAX
    ensures Matured(PayTicket(l, t), now) == Matured(l, now)
  {
    var m := PayTicket(l, t);
    assert m.accounts.Keys == l.accounts.Keys + {t.delegator} && m.pending == l.pending - {t};
    SameOwners(l.pending, now, t);
    hide Total, Owners, PayTicket, MaturedAccount;
    forall a ensures MaturedAccount(m, now, a) == MaturedAccount(l, now, a) {
      SameMaturedAccount(l, now, t, a);
    }
    assert Matured(m, now).accounts == Matured(l, now).accounts;
    assert Matured(m, now).pending == Matured(l, now).pending;
  }

  lemma MaturedAlready(l: Ledger, now: nat)
    requires forall t | t in l.pending :: t.unlockAt > now
    ensures Matured(l, now) == l
  {
    hide Owed;
    assert Owners(l.pending, now) == {};
    forall a ensures Owed(l.pending, now, a) == 0 {
      NothingOwed(l.pending, now, a);
    }
    assert Matured(l, now).accounts == l.accounts;
    assert Matured(l, now).pending == l.pending;
  }

  /** Returning matured undelegations conserves the total. */
  lemma {:induction false} MaturingConserves(l: Ledger, now: nat)
    requires Total(l) <= U256_MAX
    ensures Total(Matured(l, now)) == Total(l)
    decreases |l.pending|
  {
    hide Total, Matured;
    if t :| t in l.pending && t.unlockAt <= now {
      PayTicketKeeps(l, t);
      PayTicketMatures(l, now, t);
      MaturingConserves(PayTicket(l, t), now);
    } else {
      MaturedAlready(l, now);
    }
  }

  // ---------- Block rewards ----------

  const BLOCK_REWARD: nat := 10_000_000_000_000_000_000
  const MIN_BLOCK_REWARD: nat := 625_000_000_000_000_000
  const BLOCKS_PER_YEAR := 365 * 24 * 60 * 60 * 1000 / 5000
  const TREASURY: Address := 0x5146_0000_0000_0000_0000_0000_0000_0000_0000_0001

  /** The reward halves every year, at most four times, and never drops below the minimum. */
  function BlockReward(number: nat): (r: nat)
    ensures MIN_BLOCK_REWARD <= r <= BLOCK_REWARD
  {
    var year := number / BLOCKS_PER_YEAR;
    if year == 0 then BLOCK_REWARD
    else if year == 1 then BLOCK_REWARD / 2
    else if year == 2 then BLOCK_REWARD / 4
    else if year == 3 then BLOCK_REWARD / 8
    else BLOCK_REWARD / 16
  }

  function ProducerShare(fees: nat): nat { fees * 47 / 100 }

  function TreasuryShare(fees: nat): nat { fees * 5 / 100 }

  function Rewarded(l: Ledger, number: nat, producer: Address, fees: nat): Ledger {
    var paid := Credit(l, producer, BlockReward(number) + ProducerShare(fees));
    if TreasuryShare(fees) == 0 then paid else Credit(paid, TREASURY, TreasuryShare(fees))
  }

  lemma RewardsAdd(l: Ledger, number: nat, producer: Address, fees: nat)
    requires Total(l) + BlockReward(number) + ProducerShare(fees) + TreasuryShare(fees) <= U256_MAX
    ensures Total(Rewarded(l, number, producer, fees))
         == Total(l) + BlockReward(number) + ProducerShare(fees) + TreasuryShare(fees)
  {
    hide Total, Credit, BlockReward, ProducerShare, TreasuryShare;
    CreditAdds(l, producer, BlockReward(number) + ProducerShare(fees));
    var paid := Credit(l, producer, BlockReward(number) + ProducerShare(fees));
    if TreasuryShare(fees) != 0 {
      CreditAdds(paid, TREASURY, TreasuryShare(fees));
    }
  }

  /** Executing a block: matured undelegations, then the transactions, then the rewards. */
  ghost function ExecuteBlock(ctx: Context, number: nat, txs: seq<Tx>, l: Ledger, caps: seq<bool>): Ledger
    requires |caps| == |txs|
  {
    var matured := Matured(l, ctx.timestamp / 1000);
    Rewarded(RunAll(ctx, txs, matured, caps), number, ctx.producer, Fees(ctx, txs, matured, caps))
  }

  /** A block adds exactly its reward and the two fee shares to the total. */
  lemma BlockAddsItsReward(ctx: Context, number: nat, txs: seq<Tx>, l: Ledger, caps: seq<bool>)
    requires |caps| == |txs| && Roomy(l) && Valid(l) && FairMachine(ctx)
    requires forall tx | tx in txs :: Covered(tx)
    requires FreshTickets(ctx, txs, Matured(l, ctx.timestamp / 1000).pending)
    requires var fees := Fees(ctx, txs, Matured(l, ctx.timestamp / 1000), caps);
             Total(l) + BlockReward(number) + ProducerShare(fees) + TreasuryShare(fees) <= U256_MAX
    ensures var fees := Fees(ctx, txs, Matured(l, ctx.timestamp / 1000), caps);
            Total(ExecuteBlock(ctx, number, txs, l, caps))
            == Total(l) + BlockReward(number) + ProducerShare(fees) + TreasuryShare(fees)
  {
    hide Total, Matured, RunAll, Fees, BlockReward, ProducerShare, TreasuryShare, Rewarded;
    hide FreshTickets, Covered, Valid, FairMachine;
    var now := ctx.timestamp / 1000;
    var matured := Matured(l, now);
    MaturingConserves(l, now);
    MaturedValid(l, now);
    RunConserves(ctx, txs, matured, caps);
    RewardsAdd(RunAll(ctx, txs, matured, caps), number, ctx.producer, Fees(ctx, txs, matured, caps));
  }

  lemma MaturedValid(l: Ledger, now: nat)
    requires Valid(l)
    ensures Valid(Matured(l, now))
  {
    hide Owed;
  }
}
