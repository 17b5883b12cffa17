/** What executing a transaction does to balances, stakes, delegations and pending undelegations,
    and where every unit goes. */
module Ledger {
  import opened Common
  import opened Gas
  import opened Sums
  import opened TicketColumn

  const TRANSFER_GAS := 21_000
  const MINIMUM_GAS := 21_000
  const CONTRACT_CREATE_GAS := 53_000
  const MIN_VALIDATOR_STAKE: nat := 10_000_000_000_000_000_000_000
  const MIN_DELEGATION: nat := 100_000_000_000_000_000_000

  /** `code` says whether the account holds contract code. */
  datatype Account = Account(balance: nat, nonce: nat, stake: nat, delegatedTo: Option<Address>, delegated: nat,
                             code: bool)

  type Accounts = map<Address, Account>

  const FRESH: Account := Account(0, 0, 0, None, 0, false)

  function Get(m: Accounts, a: Address): Account {
    if a in m then m[a] else FRESH
  }

  datatype Ledger = Ledger(accounts: Accounts, pending: Tickets)

  datatype Kind =
    | Transfer | ContractCreate | ContractCall | Stake | Unstake | ValidatorRegister | ValidatorExit
    | Delegate | Undelegate | ClaimDelegationRewards | InferenceTask

  /** `signer` is the address the signature recovers, if it verifies. */
  datatype Tx = Tx(kind: Kind, chainId: nat, nonce: nat, to: Option<Address>, value: nat, data: seq<nat>,
                   gasLimit: nat, gasPrice: nat, signer: Option<Address>)
  {
    function GasCost(): nat { gasPrice * gasLimit }

    function TotalCost(): nat { value + GasCost() }

    function IntrinsicGas(): nat {
      (if kind == ContractCreate then CONTRACT_CREATE_GAS else TRANSFER_GAS) + DataGas(data)
    }

    predicate RunsEvm() { kind == ContractCreate || kind == ContractCall }

    /** The amount in the first 32 bytes of the data, big-endian, or else `all`. */
    function Amount(all: nat): nat {
      if |data| >= 32 then FromBytes(data[..32]) else all
    }
  }

  function DataGas(data: seq<nat>): nat {
    if data == [] then 0 else DataGas(data[..|data| - 1]) + if data[|data| - 1] == 0 then 4 else 16
  }

  function FromBytes(bytes: seq<nat>): nat {
    if bytes == [] then 0 else 256 * FromBytes(bytes[..|bytes| - 1]) + bytes[|bytes| - 1]
  }

  // ---------- Worth ----------

  function Holdings(a: Account): nat {
    a.balance + a.stake + a.delegated
  }

  function Id(): nat -> nat { (n: nat) => n }

  ghost function Worth(m: Accounts): nat {
    MapSum(m, Holdings)
  }

  ghost function Total(l: Ledger): nat {
    Worth(l.accounts) + MapSum(l.pending, Id())
  }

  lemma PutWorth(m: Accounts, a: Address, acc: Account)
    ensures Worth(m[a := acc]) + Holdings(Get(m, a)) == Worth(m) + Holdings(acc)
  {
    MapSumPut(m, a, acc, Holdings);
  }

  lemma HoldingsAtMostWorth(m: Accounts, a: Address)
    ensures Holdings(Get(m, a)) <= Worth(m)
  {
    if a in m {
      MapSumWithout(m, a, Holdings);
    }
  }

  // ---------- Account updates ----------

  function Put(l: Ledger, a: Address, acc: Account): Ledger {
    l.(accounts := l.accounts[a := acc])
  }

  function At(l: Ledger, a: Address): Account {
    Get(l.accounts, a)
  }

  /** Credits saturate at the largest 256-bit value. */
  function Credit(l: Ledger, a: Address, x: nat): Ledger {
    Put(l, a, At(l, a).(balance := Cap256(At(l, a).balance + x)))
  }

  function Debit(l: Ledger, a: Address, x: nat): Ledger
    requires x <= At(l, a).balance
  {
    Put(l, a, At(l, a).(balance := At(l, a).balance - x))
  }

  function Bump(l: Ledger, a: Address): Ledger {
    Put(l, a, At(l, a).(nonce := if At(l, a).nonce < U64 - 1 then At(l, a).nonce + 1 else U64 - 1))
  }

  /** What replacing one account does to the total. */
  lemma PutTotal(l: Ledger, a: Address, acc: Account)
    ensures Total(Put(l, a, acc)) + Holdings(At(l, a)) == Total(l) + Holdings(acc)
    ensures Holdings(At(l, a)) <= Total(l)
  {
    hide MapSum, Worth, Holdings;
    PutWorth(l.accounts, a, acc);
    HoldingsAtMostWorth(l.accounts, a);
  }

  lemma CreditAdds(l: Ledger, a: Address, x: nat)
    requires Total(l) + x <= U256_MAX
    ensures Total(Credit(l, a, x)) == Total(l) + x
    ensures At(Credit(l, a, x), a) == At(l, a).(balance := At(l, a).balance + x)
  {
    hide Total, At, Put, Credit;
    var acc := At(l, a).(balance := At(l, a).balance + x);
    PutTotal(l, a, acc);
    CreditIs(l, a, x);
    PutAt(l, a, acc);
  }

  /** Below the ceiling a credit is exact. */
  lemma CreditIs(l: Ledger, a: Address, x: nat)
    requires At(l, a).balance + x <= U256_MAX
    ensures Credit(l, a, x) == Put(l, a, At(l, a).(balance := At(l, a).balance + x))
  {
    hide At, Put;
    assert Cap256(At(l, a).balance + x) == At(l, a).balance + x;
  }

  lemma PutAt(l: Ledger, a: Address, acc: Account)
    ensures At(Put(l, a, acc), a) == acc
  {
  }

  lemma DebitTakes(l: Ledger, a: Address, x: nat)
    requires x <= At(l, a).balance
    ensures Total(Debit(l, a, x)) + x == Total(l)
  {
    hide Total;
    var acc := At(l, a).(balance := At(l, a).balance - x);
    var d := Debit(l, a, x);
    assert d == Put(l, a, acc);
    PutTotal(l, a, acc);
    assert Holdings(acc) + x == Holdings(At(l, a));
  }

  /** An account without a delegation target has nothing delegated. */
  ghost predicate Valid(l: Ledger) {
    forall a | a in l.accounts :: l.accounts[a].delegatedTo.None? ==> l.accounts[a].delegated == 0
  }

  // ---------- The virtual machine ----------

  /** What the virtual machine leaves in an account it touched: stakes and delegations are not its own. */
  datatype Touched = Touched(balance: nat, nonce: nat, code: bool)

  /** A fault is an error of the machine itself; a reverted or halted run succeeds in costing gas only. */
  datatype Evm = Fault | Ran(success: bool, gas: nat, touched: map<Address, Touched>)

  /** Code is only ever added. */
  function Merge(acc: Account, t: Touched): Account {
    acc.(balance := t.balance, nonce := t.nonce, code := acc.code || t.code)
  }

  function Changes(l: Ledger, touched: map<Address, Touched>): Accounts {
    map a | a in touched :: Merge(At(l, a), touched[a])
  }

  function ApplyTouched(l: Ledger, touched: map<Address, Touched>): Ledger {
    l.(accounts := l.accounts + Changes(l, touched))
  }

  lemma MergeOne<K, V>(m: map<K, V>, u: map<K, V>, k: K)
    requires k in u
    ensures m + u == (m + (u - {k}))[k := u[k]]
    ensures m + u == m[k := u[k]] + (u - {k})
  {
  }

  lemma ChangesLess(l: Ledger, touched: map<Address, Touched>, a: Address)
    requires a in touched
    ensures Changes(l, touched) - {a} == Changes(l, touched - {a})
  {
    hide At, Merge;
  }

  lemma ChangesElsewhere(l: Ledger, touched: map<Address, Touched>, a: Address, acc: Account)
    requires a !in touched
    ensures Changes(Put(l, a, acc), touched) == Changes(l, touched)
  {
    hide Merge;
  }

  /** Applying one change first leaves the rest to apply. */
  lemma TouchFirst(l: Ledger, touched: map<Address, Touched>, a: Address)
    requires a in touched
    ensures ApplyTouched(Put(l, a, Merge(At(l, a), touched[a])), touched - {a}) == ApplyTouched(l, touched)
  {
    var acc := Merge(At(l, a), touched[a]);
    assert Changes(l, touched)[a] == acc;
    hide At, Merge, Changes;
    MergeOne(l.accounts, Changes(l, touched), a);
    ChangesLess(l, touched, a);
    ChangesElsewhere(l, touched - {a}, a, acc);
  }

  function Before(m: Accounts, touched: map<Address, Touched>): map<Address, nat> {
    map a | a in touched :: Get(m, a).balance
  }

  function After(touched: map<Address, Touched>): map<Address, nat> {
    map a | a in touched :: touched[a].balance
  }

  /** The machine moves balances without creating or destroying any and uses no more than the gas limit. */
  ghost predicate Fair(e: Evm, m: Accounts, limit: nat) {
    e.Ran? ==> e.gas <= limit && MapSum(After(e.touched), Id()) == MapSum(Before(m, e.touched), Id())
  }

  /** Setting one touched account aside. */
  lemma TouchLess(l: Ledger, touched: map<Address, Touched>, a: Address)
    requires a in touched
    ensures Before(l.accounts, touched) - {a} == Before(l.accounts, touched - {a})
    ensures After(touched) - {a} == After(touched - {a})
  {
    hide At;
  }

  lemma TouchLast(l: Ledger, touched: map<Address, Touched>, a: Address)
    requires a in touched
    ensures ApplyTouched(l, touched) == Put(ApplyTouched(l, touched - {a}), a, Merge(At(l, a), touched[a]))
  {
    assert Changes(l, touched)[a] == Merge(At(l, a), touched[a]);
    hide Merge, At, Changes;
    MergeOne(l.accounts, Changes(l, touched), a);
    ChangesLess(l, touched, a);
  }

  lemma TouchOthers(l: Ledger, touched: map<Address, Touched>, a: Address)
    requires a !in touched
    ensures At(ApplyTouched(l, touched), a) == At(l, a)
  {
  }

  lemma {:induction false} TouchedWorth(l: Ledger, touched: map<Address, Touched>)
    ensures Total(ApplyTouched(l, touched)) + MapSum(Before(l.accounts, touched), Id())
         == Total(l) + MapSum(After(touched), Id())
    decreases |touched|
  {
    hide MapSum, Total, ApplyTouched, Id;
    if touched == map[] {
      NothingTouched(l);
    } else {
      var a :| a in touched;
      var rest := touched - {a};
      TouchedWorth(l, rest);
      TouchOne(l, touched, a);
      TouchLess(l, touched, a);
      MapSumWithout(Before(l.accounts, touched), a, Id());
      MapSumWithout(After(touched), a, Id());
      assert Id()(Before(l.accounts, touched)[a]) == At(l, a).balance by { IdIs(At(l, a).balance); }
      assert Id()(After(touched)[a]) == touched[a].balance by { IdIs(touched[a].balance); }
    }
  }

  lemma IdIs(n: nat)
    ensures Id()(n) == n
  {
  }

  lemma NothingTouched(l: Ledger)
    ensures ApplyTouched(l, map[]) == l
    ensures Before(l.accounts, map[]) == map[] && After(map[]) == map[]
  {
    assert l.accounts + map[] == l.accounts;
  }

  lemma TouchOne(l: Ledger, touched: map<Address, Touched>, a: Address)
    requires a in touched
    ensures Total(ApplyTouched(l, touched)) + At(l, a).balance
         == Total(ApplyTouched(l, touched - {a})) + touched[a].balance
  {
    hide Total, ApplyTouched, At;
    var m := ApplyTouched(l, touched - {a});
    var acc := Merge(At(l, a), touched[a]);
    TouchLast(l, touched, a);
    TouchOthers(l, touched - {a}, a);
    PutTotal(m, a, acc);
    assert Holdings(acc) + At(l, a).balance == Holdings(At(l, a)) + touched[a].balance;
  }

  // ---------- Transaction types ----------

  /** Block context, with the virtual machine as an unknown step. */
  datatype Context = Context(chainId: nat, timestamp: nat, producer: Address, evm: (Tx, Address, Accounts) -> Evm)

  datatype Outcome = Failed | Done(ledger: Ledger, gas: nat, success: bool)

  function Move(l: Ledger, from: Address, to: Address, x: nat): Option<Ledger> {
    if x == 0 then Some(l)
    else if At(l, from).balance < x then None
    else Some(Credit(Debit(l, from, x), to, x))
  }

  function OnTransfer(tx: Tx, sender: Address, l: Ledger): Outcome {
    if tx.to.None? then Failed else
      var moved := Move(l, sender, tx.to.value, tx.value);
      if moved.None? then Failed else Done(moved.value, TRANSFER_GAS, true)
  }

  function OnEvm(tx: Tx, l: Ledger, e: Evm): Outcome {
    if e.Fault? then Failed
    else if !e.success then Done(l, e.gas, false)
    else
      Done(ApplyTouched(l, e.touched),
           if tx.kind == ContractCreate && e.gas < CONTRACT_CREATE_GAS then CONTRACT_CREATE_GAS else e.gas, true)
  }

  function OnCall(ctx: Context, tx: Tx, sender: Address, l: Ledger): Outcome {
    if tx.to.None? then Failed
    else if At(l, tx.to.value).code then OnEvm(tx, l, ctx.evm(tx, sender, l.accounts))
    else
      var moved := Move(l, sender, tx.to.value, tx.value);
      if moved.None? then Failed else Done(moved.value, MINIMUM_GAS + DataGas(tx.data), true)
  }

  /** Lock part of the balance as stake. `capped` says that the stake cap refuses. */
  function OnStake(tx: Tx, sender: Address, l: Ledger, capped: bool): Outcome {
    var acc := At(l, sender);
    if (acc.stake == 0 && acc.stake + tx.value < MIN_VALIDATOR_STAKE) || capped || acc.balance < tx.value then Failed
    else Done(Put(l, sender, acc.(balance := acc.balance - tx.value, stake := acc.stake + tx.value)),
              2 * MINIMUM_GAS, true)
  }

  function OnUnstake(tx: Tx, sender: Address, l: Ledger): Outcome {
    var acc := At(l, sender);
    var amount := tx.Amount(acc.stake);
    if acc.stake < amount then Failed
    else Done(Put(l, sender, acc.(balance := Cap256(acc.balance + amount), stake := acc.stake - amount)),
              2 * MINIMUM_GAS, true)
  }

  function OnRegister(tx: Tx, sender: Address, l: Ledger, capped: bool): Outcome {
    var acc := At(l, sender);
    if acc.stake != 0 || tx.value < MIN_VALIDATOR_STAKE || capped || acc.balance < tx.value then Failed
    else Done(Put(l, sender, acc.(balance := acc.balance - tx.value, stake := tx.value)), 3 * MINIMUM_GAS, true)
  }

  function OnExit(sender: Address, l: Ledger): Outcome {
    var acc := At(l, sender);
    if acc.stake == 0 then Failed
    else Done(Put(l, sender, acc.(balance := Cap256(acc.balance + acc.stake), stake := 0)), 2 * MINIMUM_GAS, true)
  }

  function OnDelegate(tx: Tx, sender: Address, l: Ledger, capped: bool): Outcome {
    var acc := At(l, sender);
    if tx.to.None? || tx.value < MIN_DELEGATION
       || (acc.delegatedTo.Some? && acc.delegatedTo != tx.to)
       || At(l, tx.to.value).stake == 0 || capped || acc.balance < tx.value then Failed
    else
      var delegated := if acc.delegatedTo.Some? then Cap256(acc.delegated + tx.value) else tx.value;
      Done(Put(l, sender, acc.(balance := acc.balance - tx.value, delegatedTo := tx.to, delegated := delegated)),
           3 * MINIMUM_GAS, true)
  }

  function UnlockAt(ctx: Context): nat {
    ctx.timestamp / 1000 + UNSTAKE_DELAY_SECS
  }

  /** What `Amount` asks for when the data names no amount. */
  function DelegatedTo(acc: Account, validator: Address): nat {
    if acc.delegatedTo == Some(validator) then acc.delegated else 0
  }

  /** Taking the whole amount clears the delegation. */
  function Undelegated(acc: Account, amount: nat): Account
    requires amount <= acc.delegated
  {
    acc.(delegated := acc.delegated - amount, delegatedTo := if acc.delegated == amount then None else acc.delegatedTo)
  }

  /** Storing the ticket replaces any ticket under the same key. */
  function OnUndelegate(ctx: Context, tx: Tx, sender: Address, l: Ledger): Outcome {
    var acc := At(l, sender);
    if tx.to.None? then Failed else
      var amount := tx.Amount(DelegatedTo(acc, tx.to.value));
      if acc.delegatedTo != tx.to || acc.delegated < amount then Failed
      else
        var ticket := Ticket(sender, tx.to.value, UnlockAt(ctx));
        Done(Put(l, sender, Undelegated(acc, amount)).(pending := l.pending[ticket := amount]), 3 * MINIMUM_GAS, true)
  }

  function OnClaim(sender: Address, l: Ledger): Outcome {
    if At(l, sender).delegatedTo.None? then Failed else Done(l, 2 * MINIMUM_GAS, true)
  }

  /** The effect of each transaction type on a ledger whose sender has prepaid the gas. */
  function Effect(ctx: Context, tx: Tx, sender: Address, l: Ledger, capped: bool): Outcome {
    match tx.kind
    case Transfer => OnTransfer(tx, sender, l)
    case ContractCreate => OnEvm(tx, l, ctx.evm(tx, sender, l.accounts))
    case ContractCall => OnCall(ctx, tx, sender, l)
    case Stake => OnStake(tx, sender, l, capped)
    case Unstake => OnUnstake(tx, sender, l)
    case ValidatorRegister => OnRegister(tx, sender, l, capped)
    case ValidatorExit => OnExit(sender, l)
    case Delegate => OnDelegate(tx, sender, l, capped)
    case Undelegate => OnUndelegate(ctx, tx, sender, l)
    case ClaimDelegationRewards => OnClaim(sender, l)
    case InferenceTask => Done(l, MINIMUM_GAS, true)
  }

  // ---------- Each type conserves the total ----------

  /** The undelegation that a new ticket replaces; it is paid out to nobody. */
  function Overwritten(ctx: Context, tx: Tx, sender: Address, l: Ledger): nat {
    if tx.kind == Undelegate && tx.to.Some? && Ticket(sender, tx.to.value, UnlockAt(ctx)) in l.pending
    then l.pending[Ticket(sender, tx.to.value, UnlockAt(ctx))]
    else 0
  }

  ghost predicate FairMachine(ctx: Context) {
    forall tx, sender, m :: Fair(ctx.evm(tx, sender, m), m, tx.gasLimit)
  }

  lemma MoveKeeps(l: Ledger, from: Address, to: Address, x: nat)
    requires Total(l) <= U256_MAX && Move(l, from, to, x).Some?
    ensures Total(Move(l, from, to, x).value) == Total(l)
  {
    hide Total;
    if x > 0 {
      DebitTakes(l, from, x);
      CreditAdds(Debit(l, from, x), to, x);
    }
  }

  lemma EvmKeeps(tx: Tx, l: Ledger, e: Evm)
    requires Fair(e, l.accounts, tx.gasLimit) && OnEvm(tx, l, e).Done?
    ensures Total(OnEvm(tx, l, e).ledger) == Total(l)
  {
    hide Total, MapSum, ApplyTouched;
    TouchedWorth(l, e.touched);
  }

  /** `r` replaced one account by another of the same holdings. */
  ghost predicate Rearranges(l: Ledger, a: Address, r: Ledger) {
    exists acc :: r == Put(l, a, acc) && Holdings(acc) == Holdings(At(l, a))
  }

  lemma RearrangedTo(l: Ledger, a: Address, acc: Account)
    requires Holdings(acc) == Holdings(At(l, a))
    ensures Rearranges(l, a, Put(l, a, acc))
  {
  }

  /** Staking operations move value within the sender's own account. */
  lemma StakingRearranges(tx: Tx, sender: Address, l: Ledger, capped: bool)
    requires Holdings(At(l, sender)) <= U256_MAX
    ensures var r := OnStake(tx, sender, l, capped); r.Done? ==> Rearranges(l, sender, r.ledger)
    ensures var r := OnUnstake(tx, sender, l); r.Done? ==> Rearranges(l, sender, r.ledger)
    ensures var r := OnRegister(tx, sender, l, capped); r.Done? ==> Rearranges(l, sender, r.ledger)
    ensures var r := OnExit(sender, l); r.Done? ==> Rearranges(l, sender, r.ledger)
  {
    hide Rearranges, At, Put;
    forall acc: Account | Holdings(acc) == Holdings(At(l, sender))
      ensures Rearranges(l, sender, Put(l, sender, acc))
    {
      RearrangedTo(l, sender, acc);
    }
  }

  lemma DelegatingRearranges(tx: Tx, sender: Address, l: Ledger, capped: bool)
    requires Holdings(At(l, sender)) <= U256_MAX
    requires At(l, sender).delegatedTo.None? ==> At(l, sender).delegated == 0
    ensures var r := OnDelegate(tx, sender, l, capped); r.Done? ==> Rearranges(l, sender, r.ledger)
  {
    hide Rearranges, At, Put;
    forall acc: Account | Holdings(acc) == Holdings(At(l, sender))
      ensures Rearranges(l, sender, Put(l, sender, acc))
    {
      RearrangedTo(l, sender, acc);
    }
  }

  lemma RearrangingKeeps(l: Ledger, a: Address, r: Ledger)
    requires Rearranges(l, a, r)
    ensures Total(r) == Total(l)
  {
    hide Total, At, Put, Holdings;
    var acc :| r == Put(l, a, acc) && Holdings(acc) == Holdings(At(l, a));
    PutTotal(l, a, acc);
  }

  lemma UndelegateKeeps(ctx: Context, tx: Tx, sender: Address, l: Ledger)
    requires tx.kind == Undelegate && OnUndelegate(ctx, tx, sender, l).Done?
    ensures Total(OnUndelegate(ctx, tx, sender, l).ledger) + Overwritten(ctx, tx, sender, l) == Total(l)
  {
    hide MapSum, Worth;
    var acc := At(l, sender);
    var amount := tx.Amount(DelegatedTo(acc, tx.to.value));
    var kept := Undelegated(acc, amount);
    var ticket := Ticket(sender, tx.to.value, UnlockAt(ctx));
    PutWorth(l.accounts, sender, kept);
    MapSumPut(l.pending, ticket, amount, Id());
    assert Holdings(kept) + amount == Holdings(acc);
    IdIs(amount);
    IdIs(Overwritten(ctx, tx, sender, l));
  }

  lemma SenderIsValid(l: Ledger, a: Address)
    requires Total(l) <= U256_MAX && Valid(l)
    ensures Holdings(At(l, a)) <= U256_MAX
    ensures At(l, a).delegatedTo.None? ==> At(l, a).delegated == 0
  {
    hide Total;
    PutTotal(l, a, At(l, a));
  }

  /** No type creates or destroys value, except an undelegation that replaces a ticket. */
  lemma EffectKeeps(ctx: Context, tx: Tx, sender: Address, l: Ledger, capped: bool)
    requires Total(l) <= U256_MAX && Valid(l) && FairMachine(ctx)
    requires Effect(ctx, tx, sender, l, capped).Done?
    ensures Total(Effect(ctx, tx, sender, l, capped).ledger) + Overwritten(ctx, tx, sender, l) == Total(l)
  {
    hide Total, OnStake, OnUnstake, OnRegister, OnExit, OnDelegate, OnUndelegate, OnEvm;
    hide Move, At, Fair, Valid, Rearranges;
    var r := Effect(ctx, tx, sender, l, capped);
    match tx.kind
    case Transfer => MoveKeeps(l, sender, tx.to.value, tx.value);
    case ContractCreate => EvmKeeps(tx, l, ctx.evm(tx, sender, l.accounts));
    case ContractCall =>
      if At(l, tx.to.value).code {
        EvmKeeps(tx, l, ctx.evm(tx, sender, l.accounts));
      } else {
        MoveKeeps(l, sender, tx.to.value, tx.value);
      }
    case Undelegate => UndelegateKeeps(ctx, tx, sender, l);
    case ClaimDelegationRewards =>
    case InferenceTask =>
    case Delegate =>
      SenderIsValid(l, sender);
      DelegatingRearranges(tx, sender, l, capped);
      RearrangingKeeps(l, sender, r.ledger);
    case _ =>
      SenderIsValid(l, sender);
      StakingRearranges(tx, sender, l, capped);
      RearrangingKeeps(l, sender, r.ledger);
  }

  lemma PutValid(l: Ledger, a: Address, acc: Account)
    requires Valid(l) && (acc.delegatedTo.None? ==> acc.delegated == 0)
    ensures Valid(Put(l, a, acc))
  {
  }

  lemma TouchedValid(l: Ledger, touched: map<Address, Touched>)
    requires Valid(l)
    ensures Valid(ApplyTouched(l, touched))
  {
  }

  lemma MoveValid(l: Ledger, from: Address, to: Address, x: nat)
    requires Valid(l) && Move(l, from, to, x).Some?
    ensures Valid(Move(l, from, to, x).value)
  {
    if x > 0 {
      PutValid(l, from, At(l, from).(balance := At(l, from).balance - x));
      var d := Debit(l, from, x);
      PutValid(d, to, At(d, to).(balance := Cap256(At(d, to).balance + x)));
    }
  }

  lemma EffectValid(ctx: Context, tx: Tx, sender: Address, l: Ledger, capped: bool)
    requires Valid(l) && Effect(ctx, tx, sender, l, capped).Done?
    ensures Valid(Effect(ctx, tx, sender, l, capped).ledger)
  {
    hide Move, ApplyTouched;
    match tx.kind
    case Transfer => MoveValid(l, sender, tx.to.value, tx.value);
    case ContractCreate => EvmValid(tx, l, ctx.evm(tx, sender, l.accounts));
    case ContractCall =>
      if At(l, tx.to.value).code {
        EvmValid(tx, l, ctx.evm(tx, sender, l.accounts));
      } else {
        MoveValid(l, sender, tx.to.value, tx.value);
      }
    case _ =>
  }

  lemma EvmValid(tx: Tx, l: Ledger, e: Evm)
    requires Valid(l) && OnEvm(tx, l, e).Done?
    ensures Valid(OnEvm(tx, l, e).ledger)
  {
    TouchedValid(l, e.touched);
  }
}
