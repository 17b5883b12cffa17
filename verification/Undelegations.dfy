/** Two undelegations of one delegator from one validator in the same second share a ticket. */
module Undelegations {
  import opened Common
  import opened Execution
  import opened Gas
  import opened Ledger
  import opened Sums
  import opened TicketColumn

  function Zeros(n: nat): seq<nat> {
    if n == 0 then [] else Zeros(n - 1) + [0]
  }

  lemma {:induction false} ZerosAre(n: nat)
    ensures |Zeros(n)| == n && FromBytes(Zeros(n)) == 0 && DataGas(Zeros(n)) == 4 * n
  {
    if n > 0 {
      ZerosAre(n - 1);
      assert Zeros(n)[..n - 1] == Zeros(n - 1);
    }
  }

  /** Undelegate the amount in `data`, or everything when there is none. */
  function Undelegation(ctx: Context, sender: Address, validator: Address, nonce: nat, data: seq<nat>): Tx {
    Tx(Undelegate, ctx.chainId, nonce, Some(validator), 0, data, 63_000, 1, Some(sender))
  }

  /** The data that names the amount `x`. */
  function Naming(x: nat): seq<nat> {
    Zeros(31) + [x]
  }

  lemma NamesIt(ctx: Context, sender: Address, validator: Address, nonce: nat, x: nat, all: nat)
    requires 0 < x < 256
    ensures Undelegation(ctx, sender, validator, nonce, Naming(x)).Amount(all) == x && DataGas(Naming(x)) == 140
    ensures Undelegation(ctx, sender, validator, nonce, []).Amount(all) == all && DataGas([]) == 0
  {
    hide Zeros;
    ZerosAre(31);
    assert Naming(x)[..31] == Zeros(31) && Naming(x)[..32] == Naming(x);
  }

  /** One such undelegation completes, and the sender's account is what is left. */
  lemma UndelegationRuns(ctx: Context, l: Ledger, sender: Address, validator: Address, data: seq<nat>, amount: nat,
                     capped: bool)
    requires var acc := At(l, sender);
             acc.delegatedTo == Some(validator) && amount <= acc.delegated && 63_000 <= acc.balance <= U256_MAX
    requires At(l, sender).nonce < U64 - 1 && sender != ctx.producer && DataGas(data) <= 42_000
    requires Undelegation(ctx, sender, validator, At(l, sender).nonce, data).Amount(At(l, sender).delegated) == amount
    ensures var acc, tx := At(l, sender), Undelegation(ctx, sender, validator, At(l, sender).nonce, data);
            var r := Apply(ctx, tx, l, capped);
            && Validate(ctx, tx, l).None? && r.success
            && Effect(ctx, tx, sender, Begin(tx, sender, l), capped).Done?
            && At(r.ledger, sender).nonce == acc.nonce + 1
            && At(r.ledger, sender).balance == acc.balance - 63_000
            && At(r.ledger, sender).delegated == acc.delegated - amount
            && (amount < acc.delegated ==> At(r.ledger, sender).delegatedTo == acc.delegatedTo)
            && r.ledger.pending == l.pending[Ticket(sender, validator, UnlockAt(ctx)) := amount]
  {
    hide DataGas, FromBytes;
    var tx := Undelegation(ctx, sender, validator, At(l, sender).nonce, data);
    assert tx.GasCost() == 63_000 && tx.IntrinsicGas() <= 63_000;
    assert Refund(63_000, 63_000, 1) == 0 && Payment(63_000, 1) == 63_000;
    var begun := Begin(tx, sender, l);
    assert At(begun, sender) == At(l, sender).(balance := At(l, sender).balance - 63_000, nonce := tx.nonce + 1);
  }

  /** The first undelegates `x` and the second the rest: the second ticket replaces the first, and `x` is
      returned to nobody. */
  lemma SecondTicketReplacesFirst(ctx: Context, l: Ledger, sender: Address, validator: Address, x: nat)
    requires var acc := At(l, sender);
             && acc.delegatedTo == Some(validator) && 0 < x < 256 && x < acc.delegated
             && 126_000 <= acc.balance && acc.nonce < U64 - 2
    requires Roomy(l) && Valid(l) && FairMachine(ctx) && sender != ctx.producer
    requires Ticket(sender, validator, UnlockAt(ctx)) !in l.pending
    ensures var nonce := At(l, sender).nonce;
            var txs := [Undelegation(ctx, sender, validator, nonce, Naming(x)),
                        Undelegation(ctx, sender, validator, nonce + 1, [])];
            var end := RunAll(ctx, txs, l, [false, false]);
            && Total(end) + x == Total(l)
            && end.pending == l.pending[Ticket(sender, validator, UnlockAt(ctx)) := At(l, sender).delegated - x]
  {
    hide Total, DataGas, FromBytes, Execute, Effect, Begin, At, Valid, FairMachine, Naming, Validate, Tx.Amount;
    var acc := At(l, sender);
    var first, second := Undelegation(ctx, sender, validator, acc.nonce, Naming(x)),
                         Undelegation(ctx, sender, validator, acc.nonce + 1, []);
    NamesIt(ctx, sender, validator, acc.nonce, x, acc.delegated);
    NamesIt(ctx, sender, validator, acc.nonce + 1, x, acc.delegated - x);
    SenderIsValid(l, sender);
    UndelegationRuns(ctx, l, sender, validator, Naming(x), x, false);
    var mid := Apply(ctx, first, l, false).ledger;
    assert Undelegates(first) && Undelegates(second);
    Loses(ctx, first, l);
    UndelegationRuns(ctx, mid, sender, validator, [], acc.delegated - x, false);
    Loses(ctx, second, mid);
    var txs := [first, second];
    assert txs[..1] == [first] && [first][..0] == [] && [false, false][..1] == [false] && [false][..0] == [];
    assert RunAll(ctx, [first], l, [false]) == mid;
  }

  lemma Loses(ctx: Context, tx: Tx, l: Ledger)
    requires Undelegates(tx) && Covered(tx) && Validate(ctx, tx, l).None? && Roomy(l) && Valid(l) && FairMachine(ctx)
    requires Effect(ctx, tx, tx.signer.value, Begin(tx, tx.signer.value, l), false).Done?
    ensures var t, r := TicketOf(ctx, tx), Apply(ctx, tx, l, false).ledger;
            Total(r) + (if t in l.pending then l.pending[t] else 0) == Total(l) && Valid(r)
  {
    hide Total, Execute, Effect, Begin, At, FairMachine, Valid, Covered, Drift;
    ExecuteAccounts(ctx, tx, tx.signer.value, l, false);
    CoveredDrift(ctx, tx, tx.signer.value, l, false);
  }
}
