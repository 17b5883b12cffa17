/** What a block commits. Transactions read through the cache, the stake cap reads the working trie, and a
    failed transaction drops from the working trie everything that changed before it. */
module Blocks {
  import opened Common
  import opened AccountStore
  import opened Execution
  import opened Gas
  import opened Ledger
  import opened Sums
  import opened TicketColumn

  /** The ledger that reads see, and the accounts whose value a commit would not keep. */
  datatype Work = Work(ledger: Ledger, stale: set<Address>)
  {
    function Trie(root: Accounts): Accounts {
      TrieOf(root, ledger.accounts, stale)
    }
  }

  // ---------- One transaction ----------

  function BeginWork(tx: Tx, sender: Address, w: Work): Work
    requires tx.GasCost() <= At(w.ledger, sender).balance
  {
    Work(Begin(tx, sender, w.ledger), w.stale - {sender})
  }

  /** The validator whose stake the cap looks at, if the type asks the cap. */
  function CappedValidator(tx: Tx, sender: Address): Option<Address> {
    match tx.kind
    case Stake => Some(sender)
    case ValidatorRegister => Some(sender)
    case Delegate => tx.to
    case _ => None
  }

  /** The cap reads the validator through the cache and the totals from the working trie. */
  ghost predicate Capped(root: Accounts, tx: Tx, sender: Address, w: Work) {
    var v := CappedValidator(tx, sender);
    v.Some? && CapRefuses(w.ledger, w.Trie(root), v.value, tx.value)
  }

  function MoveWrites(tx: Tx, sender: Address): set<Address> {
    if tx.to.None? || tx.value == 0 then {} else {sender, tx.to.value}
  }

  function MachineWrites(e: Evm): set<Address> {
    if e.Ran? && e.success then e.touched.Keys else {}
  }

  /** The accounts a completed transaction type writes. */
  function EffectWrites(ctx: Context, tx: Tx, sender: Address, l: Ledger): set<Address> {
    match tx.kind
    case Transfer => MoveWrites(tx, sender)
    case ContractCreate => MachineWrites(ctx.evm(tx, sender, l.accounts))
    case ContractCall =>
      if tx.to.Some? && At(l, tx.to.value).code then MachineWrites(ctx.evm(tx, sender, l.accounts))
      else MoveWrites(tx, sender)
    case ClaimDelegationRewards => {}
    case InferenceTask => {}
    case _ => {sender}
  }

  /** A failed transaction drops from the working trie all that changed before it, and then writes its
      sender and the producer. */
  ghost function ExecuteWork(ctx: Context, root: Accounts, tx: Tx, sender: Address, w: Work): Work
    requires tx.GasCost() <= At(w.ledger, sender).balance
  {
    var begun := BeginWork(tx, sender, w);
    var capped := Capped(root, tx, sender, begun);
    Work(Execute(ctx, tx, sender, w.ledger, capped).ledger,
         if Effect(ctx, tx, sender, begun.ledger, capped).Failed?
         then Changed(root, w.ledger.accounts) - {sender, ctx.producer}
         else w.stale - EffectWrites(ctx, tx, sender, begun.ledger) - {sender, ctx.producer})
  }

  /** What the cap answers the transaction, once it validates. */
  ghost predicate CapHits(ctx: Context, root: Accounts, tx: Tx, w: Work) {
    Validate(ctx, tx, w.ledger).None? && Capped(root, tx, tx.signer.value, BeginWork(tx, tx.signer.value, w))
  }

  ghost function ApplyWork(ctx: Context, root: Accounts, tx: Tx, w: Work): Work {
    if Validate(ctx, tx, w.ledger).Some? then w else ExecuteWork(ctx, root, tx, tx.signer.value, w)
  }

  ghost function RunWork(ctx: Context, root: Accounts, txs: seq<Tx>, w: Work): Work {
    if txs == [] then w else
      var n := |txs| - 1;
      ApplyWork(ctx, root, txs[n], RunWork(ctx, root, txs[..n], w))
  }

  ghost function Caps(ctx: Context, root: Accounts, txs: seq<Tx>, w: Work): (caps: seq<bool>)
    ensures |caps| == |txs|
  {
    if txs == [] then [] else
      var n := |txs| - 1;
      Caps(ctx, root, txs[..n], w) + [CapHits(ctx, root, txs[n], RunWork(ctx, root, txs[..n], w))]
  }

  lemma ApplyWorkLedger(ctx: Context, root: Accounts, tx: Tx, w: Work)
    ensures ApplyWork(ctx, root, tx, w).ledger == Apply(ctx, tx, w.ledger, CapHits(ctx, root, tx, w)).ledger
  {
    hide Execute, Effect, EffectWrites, Capped, Changed;
  }

  /** Reads see what `RunAll` says, with the cap's answers those of the working trie. */
  lemma {:induction false} RunWorkLedger(ctx: Context, root: Accounts, txs: seq<Tx>, w: Work)
    ensures RunWork(ctx, root, txs, w).ledger == RunAll(ctx, txs, w.ledger, Caps(ctx, root, txs, w))
  {
    hide ApplyWork, Apply, CapHits;
    if txs != [] {
      var n := |txs| - 1;
      RunWorkLedger(ctx, root, txs[..n], w);
      ApplyWorkLedger(ctx, root, txs[n], RunWork(ctx, root, txs[..n], w));
      assert Caps(ctx, root, txs, w)[..n] == Caps(ctx, root, txs[..n], w);
    }
  }

  // ---------- What a run of transactions loses ----------

  /** The transaction validates and its effect fails. */
  predicate Fails(ctx: Context, tx: Tx, l: Ledger, capped: bool) {
    && Validate(ctx, tx, l).None?
    && Effect(ctx, tx, tx.signer.value, Begin(tx, tx.signer.value, l), capped).Failed?
  }

  /** The accounts the transaction writes and keeps. */
  function Written(ctx: Context, tx: Tx, l: Ledger, capped: bool): set<Address> {
    if Validate(ctx, tx, l).Some? then {}
    else if Fails(ctx, tx, l, capped) then {tx.signer.value, ctx.producer}
    else EffectWrites(ctx, tx, tx.signer.value, Begin(tx, tx.signer.value, l)) + {tx.signer.value, ctx.producer}
  }

  /** The last transaction that validates and fails, or -1. */
  function LastFailure(ctx: Context, txs: seq<Tx>, l: Ledger, caps: seq<bool>): (k: int)
    requires |caps| == |txs|
    ensures -1 <= k < |txs|
  {
    if txs == [] then -1 else
      var n := |txs| - 1;
      if FailsAt(ctx, txs, l, caps, n) then n else LastFailure(ctx, txs[..n], l, caps[..n])
  }

  predicate FailsAt(ctx: Context, txs: seq<Tx>, l: Ledger, caps: seq<bool>, i: nat)
    requires |caps| == |txs| && i < |txs|
  {
    Fails(ctx, txs[i], RunAll(ctx, txs[..i], l, caps[..i]), caps[i])
  }

  lemma {:induction false} LastFailureIs(ctx: Context, txs: seq<Tx>, l: Ledger, caps: seq<bool>)
    requires |caps| == |txs|
    ensures var k := LastFailure(ctx, txs, l, caps); k >= 0 ==> FailsAt(ctx, txs, l, caps, k)
    ensures forall i | LastFailure(ctx, txs, l, caps) < i < |txs| :: !FailsAt(ctx, txs, l, caps, i)
  {
    hide FailsAt;
    if txs != [] {
      var n := |txs| - 1;
      LastFailureIs(ctx, txs[..n], l, caps[..n]);
      forall i | 0 <= i < n ensures FailsAt(ctx, txs[..n], l, caps[..n], i) == FailsAt(ctx, txs, l, caps, i) {
        FailsEarlier(ctx, txs, l, caps, n, i);
      }
    }
  }

  lemma FailsEarlier(ctx: Context, txs: seq<Tx>, l: Ledger, caps: seq<bool>, n: nat, i: nat)
    requires |caps| == |txs| && i < n <= |txs|
    ensures FailsAt(ctx, txs[..n], l, caps[..n], i) == FailsAt(ctx, txs, l, caps, i)
  {
    hide Fails, RunAll;
    assert txs[..n][..i] == txs[..i] && caps[..n][..i] == caps[..i];
  }

  /** The accounts written by the transactions from `k` on. */
  function WrittenFrom(ctx: Context, txs: seq<Tx>, l: Ledger, caps: seq<bool>, k: nat): set<Address>
    requires |caps| == |txs|
  {
    if |txs| <= k then {} else
      var n := |txs| - 1;
      WrittenFrom(ctx, txs[..n], l, caps[..n], k)
      + Written(ctx, txs[n], RunAll(ctx, txs[..n], l, caps[..n]), caps[n])
  }

  /** The accounts changed since the root before the last failure, and not written from it on. */
  function Lost(ctx: Context, root: Accounts, txs: seq<Tx>, l: Ledger, caps: seq<bool>): set<Address>
    requires |caps| == |txs|
  {
    var k := LastFailure(ctx, txs, l, caps);
    if k < 0 then {}
    else Changed(root, RunAll(ctx, txs[..k], l, caps[..k]).accounts) - WrittenFrom(ctx, txs, l, caps, k)
  }

  lemma ApplyWorkStale(ctx: Context, root: Accounts, tx: Tx, w: Work)
    ensures var capped := CapHits(ctx, root, tx, w);
            ApplyWork(ctx, root, tx, w).stale
            == if Fails(ctx, tx, w.ledger, capped)
               then Changed(root, w.ledger.accounts) - Written(ctx, tx, w.ledger, capped)
               else w.stale - Written(ctx, tx, w.ledger, capped)
  {
    hide Execute, Effect, EffectWrites, Capped, Changed;
  }

  /** What a run loses, after one more transaction. */
  lemma LostGrows(ctx: Context, root: Accounts, txs: seq<Tx>, l: Ledger, caps: seq<bool>)
    requires |caps| == |txs| > 0
    ensures var n := |txs| - 1;
            var m := RunAll(ctx, txs[..n], l, caps[..n]);
            Lost(ctx, root, txs, l, caps)
            == (if Fails(ctx, txs[n], m, caps[n]) then Changed(root, m.accounts)
                else Lost(ctx, root, txs[..n], l, caps[..n]))
               - Written(ctx, txs[n], m, caps[n])
  {
    hide RunAll, Changed, Fails, Written;
    var n := |txs| - 1;
    var k := LastFailure(ctx, txs, l, caps);
    if FailsAt(ctx, txs, l, caps, n) {
      assert WrittenFrom(ctx, txs[..n], l, caps[..n], n) == {};
    } else if k >= 0 {
      assert txs[..n][..k] == txs[..k] && caps[..n][..k] == caps[..k];
    }
  }

  /** What is stale at the end of a run that starts with nothing stale is what the run loses. */
  lemma {:induction false} StaleIsLost(ctx: Context, root: Accounts, txs: seq<Tx>, l: Ledger)
    ensures RunWork(ctx, root, txs, Work(l, {})).stale
         == Lost(ctx, root, txs, l, Caps(ctx, root, txs, Work(l, {})))
  {
    hide ApplyWork, RunAll, CapHits, Changed, Fails, Written, Lost;
    var w := Work(l, {});
    if txs == [] {
      NothingLost(ctx, root, l);
    } else {
      var n := |txs| - 1;
      var caps := Caps(ctx, root, txs, w);
      assert caps[..n] == Caps(ctx, root, txs[..n], w);
      StaleIsLost(ctx, root, txs[..n], l);
      ApplyWorkStale(ctx, root, txs[n], RunWork(ctx, root, txs[..n], w));
      RunWorkLedger(ctx, root, txs[..n], w);
      LostGrows(ctx, root, txs, l, caps);
    }
  }

  lemma NothingLost(ctx: Context, root: Accounts, l: Ledger)
    ensures Lost(ctx, root, [], l, []) == {}
  {
  }

  // ---------- Frames ----------

  lemma FrameEffect(ctx: Context, tx: Tx, sender: Address, l: Ledger, capped: bool, a: Address)
    requires Effect(ctx, tx, sender, l, capped).Done? && a !in EffectWrites(ctx, tx, sender, l)
    ensures SameAt(Effect(ctx, tx, sender, l, capped).ledger.accounts, l.accounts, a)
  {
    hide Cap256, DataGas, Tx.Amount;
  }

  lemma FrameExecute(ctx: Context, tx: Tx, sender: Address, l: Ledger, capped: bool, a: Address)
    requires tx.GasCost() <= At(l, sender).balance && a != sender && a != ctx.producer
    requires var begun := Begin(tx, sender, l);
             Effect(ctx, tx, sender, begun, capped).Failed? || a !in EffectWrites(ctx, tx, sender, begun)
    ensures SameAt(Execute(ctx, tx, sender, l, capped).ledger.accounts, l.accounts, a)
  {
    var begun := Begin(tx, sender, l);
    hide Effect, Cap256, Refund, Payment, EffectWrites, Tx.GasCost;
    assert SameAt(begun.accounts, l.accounts, a);
    if Effect(ctx, tx, sender, begun, capped).Done? {
      FrameEffect(ctx, tx, sender, begun, capped, a);
    }
  }

  lemma FrameApply(ctx: Context, tx: Tx, l: Ledger, capped: bool, a: Address)
    requires a !in Written(ctx, tx, l, capped)
    ensures SameAt(Apply(ctx, tx, l, capped).ledger.accounts, l.accounts, a)
  {
    hide Effect, Execute, EffectWrites, SameAt, Begin;
    if Validate(ctx, tx, l).None? {
      FrameExecute(ctx, tx, tx.signer.value, l, capped, a);
    } else {
      assert SameAt(l.accounts, l.accounts, a) by { SameSelf(l.accounts, a); }
    }
  }

  lemma SameSelf(m: Accounts, a: Address)
    ensures SameAt(m, m, a)
  {
  }

  /** An account that nothing from `k` on writes stays as it was. */
  lemma {:induction false} FrameRun(ctx: Context, txs: seq<Tx>, l: Ledger, caps: seq<bool>, k: nat, a: Address)
    requires |caps| == |txs| && k <= |txs| && a !in WrittenFrom(ctx, txs, l, caps, k)
    ensures SameAt(RunAll(ctx, txs, l, caps).accounts, RunAll(ctx, txs[..k], l, caps[..k]).accounts, a)
  {
    hide Apply, Written;
    if |txs| <= k {
      assert txs[..k] == txs && caps[..k] == caps;
    } else {
      var n := |txs| - 1;
      FrameRun(ctx, txs[..n], l, caps[..n], k, a);
      FrameApply(ctx, txs[n], RunAll(ctx, txs[..n], l, caps[..n]), caps[n], a);
      assert txs[..n][..k] == txs[..k] && caps[..n][..k] == caps[..k];
    }
  }

  /** Whatever is lost is seen by reads and differs from what was committed. */
  lemma LostIsChanged(ctx: Context, root: Accounts, txs: seq<Tx>, l: Ledger, caps: seq<bool>)
    requires |caps| == |txs|
    ensures Lost(ctx, root, txs, l, caps) <= Changed(root, RunAll(ctx, txs, l, caps).accounts)
  {
    hide RunAll, Fails, WrittenFrom;
    var k := LastFailure(ctx, txs, l, caps);
    forall a | a in Lost(ctx, root, txs, l, caps) ensures a in Changed(root, RunAll(ctx, txs, l, caps).accounts) {
      FrameRun(ctx, txs, l, caps, k, a);
    }
  }

  // ---------- One block ----------

  function RewardWrites(producer: Address, fees: nat): set<Address> {
    {producer} + if TreasuryShare(fees) == 0 then {} else {TREASURY}
  }

  /** The state a block's transactions start from, on a store opened at the parent's root. */
  ghost function Opened(ctx: Context, parent: Accounts, pending: Tickets): Work {
    Work(Matured(Ledger(parent, pending), ctx.timestamp / 1000), {})
  }

  ghost function BlockCaps(ctx: Context, txs: seq<Tx>, parent: Accounts, pending: Tickets): (caps: seq<bool>)
    ensures |caps| == |txs|
  {
    Caps(ctx, parent, txs, Opened(ctx, parent, pending))
  }

  ghost function BlockFees(ctx: Context, txs: seq<Tx>, parent: Accounts, pending: Tickets): nat {
    Fees(ctx, txs, Opened(ctx, parent, pending).ledger, BlockCaps(ctx, txs, parent, pending))
  }

  ghost function BlockWork(ctx: Context, number: nat, txs: seq<Tx>, parent: Accounts, pending: Tickets): Work {
    var fees := BlockFees(ctx, txs, parent, pending);
    var run := RunWork(ctx, parent, txs, Opened(ctx, parent, pending));
    Work(Rewarded(run.ledger, number, ctx.producer, fees), run.stale - RewardWrites(ctx.producer, fees))
  }

  /** The accounts a block commits. */
  ghost function Committed(ctx: Context, number: nat, txs: seq<Tx>, parent: Accounts, pending: Tickets)
    : Accounts
  {
    BlockWork(ctx, number, txs, parent, pending).Trie(parent)
  }

  /** What the block loses: changed before the last failed transaction, and written neither from it on
      nor by the rewards. */
  ghost function BlockLost(ctx: Context, txs: seq<Tx>, parent: Accounts, pending: Tickets): set<Address> {
    Lost(ctx, parent, txs, Opened(ctx, parent, pending).ledger, BlockCaps(ctx, txs, parent, pending))
    - RewardWrites(ctx.producer, BlockFees(ctx, txs, parent, pending))
  }

  lemma BlockWorkIs(ctx: Context, number: nat, txs: seq<Tx>, parent: Accounts, pending: Tickets)
    ensures var w := BlockWork(ctx, number, txs, parent, pending);
            && w.stale == BlockLost(ctx, txs, parent, pending)
            && w.ledger
               == ExecuteBlock(ctx, number, txs, Ledger(parent, pending), BlockCaps(ctx, txs, parent, pending))
  {
    hide Matured, Caps, RunAll, RunWork, Fees, Lost, Rewarded, RewardWrites;
    var start := Opened(ctx, parent, pending);
    RunWorkLedger(ctx, parent, txs, start);
    StaleIsLost(ctx, parent, txs, start.ledger);
  }

  lemma FrameRewards(l: Ledger, number: nat, producer: Address, fees: nat, a: Address)
    requires a !in RewardWrites(producer, fees)
    ensures SameAt(Rewarded(l, number, producer, fees).accounts, l.accounts, a)
  {
    hide Cap256, BlockReward, ProducerShare, TreasuryShare;
  }

  lemma BlockLostIsChanged(ctx: Context, number: nat, txs: seq<Tx>, parent: Accounts, pending: Tickets)
    ensures BlockLost(ctx, txs, parent, pending)
         <= Changed(parent, BlockWork(ctx, number, txs, parent, pending).ledger.accounts)
  {
    hide Matured, Caps, RunAll, RunWork, Fees, Lost, Rewarded, RewardWrites;
    var start := Opened(ctx, parent, pending);
    var fees, caps := BlockFees(ctx, txs, parent, pending), BlockCaps(ctx, txs, parent, pending);
    var run := RunWork(ctx, parent, txs, start).ledger;
    RunWorkLedger(ctx, parent, txs, start);
    LostIsChanged(ctx, parent, txs, start.ledger, caps);
    forall a | a in BlockLost(ctx, txs, parent, pending)
      ensures a in Changed(parent, BlockWork(ctx, number, txs, parent, pending).ledger.accounts)
    {
      FrameRewards(run, number, ctx.producer, fees, a);
    }
  }

  lemma CommitsItsWorkIff(ctx: Context, number: nat, txs: seq<Tx>, parent: Accounts, pending: Tickets)
    ensures Committed(ctx, number, txs, parent, pending) == BlockWork(ctx, number, txs, parent, pending).ledger.accounts
       <==> BlockLost(ctx, txs, parent, pending) == {}
  {
    hide ExecuteBlock, BlockLost, BlockCaps, BlockWork, TrieOf, Changed;
    BlockWorkIs(ctx, number, txs, parent, pending);
    BlockLostIsChanged(ctx, number, txs, parent, pending);
    TrieIsViewIff(parent, BlockWork(ctx, number, txs, parent, pending).ledger.accounts,
                  BlockLost(ctx, txs, parent, pending));
  }

  /** A block commits what its execution left exactly when it loses nothing. */
  lemma CommitsItsExecutionIff(ctx: Context, number: nat, txs: seq<Tx>, parent: Accounts, pending: Tickets)
    ensures Committed(ctx, number, txs, parent, pending)
         == ExecuteBlock(ctx, number, txs, Ledger(parent, pending), BlockCaps(ctx, txs, parent, pending)).accounts
       <==> BlockLost(ctx, txs, parent, pending) == {}
  {
    hide ExecuteBlock, BlockLost, BlockCaps, BlockWork, Committed;
    BlockWorkIs(ctx, number, txs, parent, pending);
    CommitsItsWorkIff(ctx, number, txs, parent, pending);
  }

  // ---------- What a commit is worth ----------

  function Only(m: Accounts, s: set<Address>): Accounts {
    map a | a in m && a in s :: m[a]
  }

  lemma {:induction false} WorthSplits(m: Accounts, s: set<Address>)
    ensures Worth(m) == Worth(m - s) + Worth(Only(m, s))
    decreases s
  {
    hide MapSum, Holdings;
    if a :| a in s {
      WorthSplits(m, s - {a});
      if a in m {
        MapSumWithout(m - (s - {a}), a, Holdings);
        assert m - (s - {a}) - {a} == m - s;
        MapSumWithout(Only(m, s), a, Holdings);
        assert Only(m, s) - {a} == Only(m, s - {a});
      } else {
        assert m - (s - {a}) == m - s && Only(m, s) == Only(m, s - {a});
      }
    } else {
      assert m - s == m && Only(m, s) == map[];
      assert Worth(map[]) == 0 by { NothingWorth(); }
    }
  }

  lemma NothingWorth()
    ensures Worth(map[]) == 0
  {
  }

  lemma WorthJoins(m: Accounts, n: Accounts)
    requires m.Keys !! n.Keys
    ensures Worth(m + n) == Worth(m) + Worth(n)
  {
    hide MapSum, Worth;
    WorthSplits(m + n, n.Keys);
    assert m + n - n.Keys == m && Only(m + n, n.Keys) == n;
  }

  /** The worth of a working trie: the view's, with every stale account back at its committed value. */
  lemma TrieWorth(root: Accounts, view: Accounts, stale: set<Address>)
    ensures Worth(TrieOf(root, view, stale)) + Worth(Only(view, stale)) == Worth(view) + Worth(Only(root, stale))
  {
    hide MapSum, Worth;
    assert TrieOf(root, view, stale) == (view - stale) + Only(root, stale);
    WorthJoins(view - stale, Only(root, stale));
    WorthSplits(view, stale);
  }

  /** The exact account of a block: committed accounts and pending undelegations hold what they held
      before, plus the reward and the fee shares, with every lost account back at its old value. */
  lemma CommittedTotal(ctx: Context, number: nat, txs: seq<Tx>, parent: Accounts, pending: Tickets)
    requires var l := Ledger(parent, pending);
             && Roomy(l) && Valid(l) && FairMachine(ctx) && (forall tx | tx in txs :: Covered(tx))
             && FreshTickets(ctx, txs, Opened(ctx, parent, pending).ledger.pending)
             && var fees := BlockFees(ctx, txs, parent, pending);
                Total(l) + BlockReward(number) + ProducerShare(fees) + TreasuryShare(fees) <= U256_MAX
    ensures var w, fees := BlockWork(ctx, number, txs, parent, pending), BlockFees(ctx, txs, parent, pending);
            var lost := BlockLost(ctx, txs, parent, pending);
            Total(Ledger(Committed(ctx, number, txs, parent, pending), w.ledger.pending))
            + Worth(Only(w.ledger.accounts, lost))
            == Total(Ledger(parent, pending)) + BlockReward(number) + ProducerShare(fees) + TreasuryShare(fees)
               + Worth(Only(parent, lost))
  {
    hide Worth, MapSum, Matured, Caps, RunAll, RunWork, Fees, Rewarded, BlockLost, BlockReward, ProducerShare;
    hide TreasuryShare, FreshTickets, Covered, Valid, FairMachine, TrieOf, Only, ExecuteBlock, BlockWork;
    var w := BlockWork(ctx, number, txs, parent, pending);
    BlockWorkIs(ctx, number, txs, parent, pending);
    BlockAddsItsReward(ctx, number, txs, Ledger(parent, pending), BlockCaps(ctx, txs, parent, pending));
    TrieWorth(parent, w.ledger.accounts, w.stale);
  }

  /** A block that loses nothing adds exactly its reward and the fee shares to what is committed. */
  lemma CommittedAddsItsReward(ctx: Context, number: nat, txs: seq<Tx>, parent: Accounts, pending: Tickets)
    requires var l := Ledger(parent, pending);
             && Roomy(l) && Valid(l) && FairMachine(ctx) && (forall tx | tx in txs :: Covered(tx))
             && FreshTickets(ctx, txs, Opened(ctx, parent, pending).ledger.pending)
             && var fees := BlockFees(ctx, txs, parent, pending);
                Total(l) + BlockReward(number) + ProducerShare(fees) + TreasuryShare(fees) <= U256_MAX
    requires BlockLost(ctx, txs, parent, pending) == {}
    ensures var w, fees := BlockWork(ctx, number, txs, parent, pending), BlockFees(ctx, txs, parent, pending);
            Total(Ledger(Committed(ctx, number, txs, parent, pending), w.ledger.pending))
            == Total(Ledger(parent, pending)) + BlockReward(number) + ProducerShare(fees) + TreasuryShare(fees)
  {
    hide Total, Matured, Caps, RunAll, RunWork, Fees, Rewarded, BlockLost, BlockReward, ProducerShare, Worth;
    hide TreasuryShare, FreshTickets, Covered, Valid, FairMachine, TrieOf, ExecuteBlock, BlockWork, Roomy, BlockFees;
    CommittedTotal(ctx, number, txs, parent, pending);
    assert Only(BlockWork(ctx, number, txs, parent, pending).ledger.accounts, {}) == map[] == Only(parent, {});
  }
}
