/** The stake cap over runs of transactions: when the totals it reads are right, and when they are not. */
module StakeCap {
  import opened Common
  import opened AccountStore
  import opened Blocks
  import opened Execution
  import opened Gas
  import opened Ledger
  import opened Sums
  import opened TicketColumn

  /** The two ledgers have the same stakes and delegations. */
  ghost predicate SameStakes(l: Ledger, m: Ledger, validator: Address) {
    && At(l, validator).stake == At(m, validator).stake
    && NetworkStake(l.accounts) == NetworkStake(m.accounts)
    && BehindIn(l.accounts, validator) == BehindIn(m.accounts, validator)
  }

  lemma PutKeepsStakes(l: Ledger, a: Address, acc: Account, validator: Address)
    requires var was := At(l, a);
             acc.stake == was.stake && acc.delegated == was.delegated && acc.delegatedTo == was.delegatedTo
    ensures SameStakes(l, Put(l, a, acc), validator)
  {
    hide NetworkStake, BehindIn, At, Put;
    StakeTotals(l, a, acc, validator);
    PutStake(l, a, acc, validator);
  }

  lemma PutStake(l: Ledger, a: Address, acc: Account, validator: Address)
    requires acc.stake == At(l, a).stake
    ensures At(Put(l, a, acc), validator).stake == At(l, validator).stake
  {
  }

  lemma CreditKeepsStakes(l: Ledger, a: Address, x: nat, validator: Address)
    ensures SameStakes(l, Credit(l, a, x), validator)
  {
    hide SameStakes;
    PutKeepsStakes(l, a, At(l, a).(balance := Cap256(At(l, a).balance + x)), validator);
  }

  lemma FinishKeepsStakes(ctx: Context, tx: Tx, sender: Address, l: Ledger, gas: nat, validator: Address)
    requires !tx.RunsEvm()
    ensures SameStakes(l, Finish(ctx, tx, sender, l, gas), validator)
  {
    hide MapSum, NetworkStake, BehindIn, Refund, Payment, Credit, At;
    var refund := Refund(tx.gasLimit, gas, tx.gasPrice);
    CreditKeepsStakes(l, sender, refund, validator);
    CreditKeepsStakes(Credit(l, sender, refund), ctx.producer, Payment(gas, tx.gasPrice), validator);
  }

  /** A validated stake, registration or delegation that completes fits the room that the working trie
      shows, and leaves the cap holding exactly when it also fits the room that reads show. */
  lemma CompletedStaysCapped(ctx: Context, root: Accounts, tx: Tx, w: Work)
    requires Validate(ctx, tx, w.ledger).None? && CappedValidator(tx, tx.signer.value).Some? && tx.value > 0
    requires Total(w.ledger) + tx.value <= U256_MAX && Valid(w.ledger)
    requires var trie := BeginWork(tx, tx.signer.value, w).Trie(root);
             NetworkStake(trie) > 0 && NetworkStake(trie) + tx.value < U256_MAX
    requires !Fails(ctx, tx, w.ledger, CapHits(ctx, root, tx, w))
    ensures var begun, v := BeginWork(tx, tx.signer.value, w), CappedValidator(tx, tx.signer.value).value;
            && 4 * tx.value <= Room(begun.ledger, begun.Trie(root), v)
            && (CapHolds(ApplyWork(ctx, root, tx, w).ledger, v)
                <==> 4 * tx.value <= Room(begun.ledger, begun.ledger.accounts, v))
  {
    hide MapSum, NetworkStake, BehindIn, Room, CapRefuses, Finish, Begin, TrieOf, Valid, Total, At, Effect;
    hide OnStake, OnRegister, OnDelegate, Tx.GasCost, Abort, EffectWrites, Tx.IntrinsicGas;
    var sender := tx.signer.value;
    var begun, v := BeginWork(tx, sender, w), CappedValidator(tx, sender).value;
    var capped := Capped(root, tx, sender, begun);
    BeginTakes(tx, sender, w.ledger);
    EffectStaysCapped(ctx, root, tx, sender, begun);
    var r := Effect(ctx, tx, sender, begun.ledger, capped);
    FinishKeepsStakes(ctx, tx, sender, r.ledger, r.gas, v);
  }

  lemma EffectStaysCapped(ctx: Context, root: Accounts, tx: Tx, sender: Address, w: Work)
    requires CappedValidator(tx, sender).Some? && tx.value > 0
    requires Total(w.ledger) + tx.value <= U256_MAX && Valid(w.ledger)
    requires NetworkStake(w.Trie(root)) > 0 && NetworkStake(w.Trie(root)) + tx.value < U256_MAX
    ensures var v := CappedValidator(tx, sender).value;
            var r := Effect(ctx, tx, sender, w.ledger, Capped(root, tx, sender, w));
            r.Done? ==> 4 * tx.value <= Room(w.ledger, w.Trie(root), v)
                        && (CapHolds(r.ledger, v) <==> 4 * tx.value <= Room(w.ledger, w.ledger.accounts, v))
  {
    hide MapSum, NetworkStake, BehindIn, Room, CapRefuses, TrieOf, OnStake, OnRegister, OnDelegate, Total, CapHolds;
    if tx.kind == Delegate {
      SenderIsValid(w.ledger, sender);
      DelegatedWithin(w.ledger, sender);
      DelegationStaysCapped(tx, sender, w.ledger, w.Trie(root));
    } else {
      StakeStaysCapped(tx, sender, w.ledger, w.Trie(root));
    }
  }

  /** So where nothing is stale, every stake, registration and delegation that completes leaves the cap
      holding. */
  lemma NothingStaleStaysCapped(ctx: Context, root: Accounts, tx: Tx, w: Work)
    requires Validate(ctx, tx, w.ledger).None? && CappedValidator(tx, tx.signer.value).Some? && tx.value > 0
    requires Total(w.ledger) + tx.value < U256_MAX && Valid(w.ledger) && w.stale <= {tx.signer.value}
    requires NetworkStake(w.ledger.accounts) > 0
    requires !Fails(ctx, tx, w.ledger, CapHits(ctx, root, tx, w))
    ensures CapHolds(ApplyWork(ctx, root, tx, w).ledger, CappedValidator(tx, tx.signer.value).value)
  {
    hide MapSum, NetworkStake, BehindIn, Room, CapRefuses, Begin, TrieOf, Total, At, Tx.GasCost, Fails, CapHits;
    hide ApplyWork, CapHolds, Tx.IntrinsicGas, Validate, Valid;
    var begun := BeginWork(tx, tx.signer.value, w);
    TrieOfFresh(root, begun.ledger.accounts);
    assert begun.stale == {};
    BeginKeepsStakes(tx, tx.signer.value, w.ledger);
    NetworkWithinTotal(w.ledger);
    CompletedStaysCapped(ctx, root, tx, w);
  }

  lemma TrieOfFresh(root: Accounts, view: Accounts)
    ensures TrieOf(root, view, {}) == view
  {
  }

  lemma BeginKeepsStakes(tx: Tx, sender: Address, l: Ledger)
    requires tx.GasCost() <= At(l, sender).balance
    ensures NetworkStake(Begin(tx, sender, l).accounts) == NetworkStake(l.accounts)
  {
    hide MapSum, NetworkStake, BehindIn, Tx.GasCost;
    var prepaid := Debit(l, sender, tx.GasCost());
    PutKeepsStakes(l, sender, At(l, sender).(balance := At(l, sender).balance - tx.GasCost()), sender);
    var acc := At(prepaid, sender);
    PutKeepsStakes(prepaid, sender, acc.(nonce := if acc.nonce < U64 - 1 then acc.nonce + 1 else U64 - 1), sender);
  }
}
