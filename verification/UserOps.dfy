/** User operations in the style of EIP-4337: the entry point that executes them, and their pool. */
module UserOps {
  import opened Common
  import opened Sorting

  /** Paymaster data is absent, too short to name a paymaster, or names one. */
  datatype Sponsor = Unset | Unnamed | By(paymaster: Address)

  datatype UserOp = UserOp(sender: Address, nonce: nat, callGas: nat, verificationGas: nat, preGas: nat, maxFee: nat,
                           sponsor: Sponsor, signed: bool, payload: nat)
  {
    /** Sums of gas saturate at 64 bits. */
    function TotalGas(): nat { Cap64(Cap64(callGas + verificationGas) + preGas) }

    function MaxCost(): nat { TotalGas() * maxFee }
  }

  datatype Error = NonceMismatch | ValidationFailed | InvalidSignature | PaymasterNotApproved
                 | PaymasterDepositInsufficient | PoolFull | DuplicateUserOp

  // ---------- The entry point ----------

  /** An executed operation of a wallet. */
  datatype Run = Run(wallet: Address, nonce: nat)

  function NonceOf(nonces: map<Address, nat>, a: Address): nat {
    if a in nonces then nonces[a] else 0
  }

  function At(m: map<Address, nat>, a: Address): nat {
    if a in m then m[a] else 0
  }

  /** What a paymaster has deposited for gas, has staked, and when it may take the stake back. */
  datatype Paymaster = Paymaster(deposit: nat, stake: nat, unstakeAt: nat)

  function RecordOf(m: map<Address, Paymaster>, p: Address): Paymaster {
    if p in m then m[p] else Paymaster(0, 0, 0)
  }

  /** What the entry point decides from. */
  datatype State = State(nonces: map<Address, nat>, paymasters: map<Address, Paymaster>, approved: set<Address>)

  /** Why an operation is refused, if it is; checked in this order. */
  function Refused(s: State, op: UserOp): Option<Error> {
    if op.nonce != NonceOf(s.nonces, op.sender) then Some(NonceMismatch)
    else if op.callGas == 0 || op.verificationGas == 0 || op.maxFee == 0 then Some(ValidationFailed)
    else if !op.signed then Some(InvalidSignature)
    else if op.sponsor.By? && op.sponsor.paymaster !in s.approved then Some(PaymasterNotApproved)
    else if op.sponsor.By? && (op.sponsor.paymaster !in s.paymasters
                               || s.paymasters[op.sponsor.paymaster].deposit < op.MaxCost())
    then Some(PaymasterDepositInsufficient)
    else None
  }

  /** What an operation that is executed has shown: the wallet's next nonce, non-zero gas and fee, a signature,
      and a sponsor, if it names one, that is approved and can pay the most it can cost. */
  lemma ExecutedIff(s: State, op: UserOp)
    ensures Refused(s, op).None?
       <==> && op.nonce == (if op.sender in s.nonces then s.nonces[op.sender] else 0)
            && op.callGas > 0 && op.verificationGas > 0 && op.maxFee > 0 && op.signed
            && (op.sponsor.By? ==>
                  && op.sponsor.paymaster in s.approved && op.sponsor.paymaster in s.paymasters
                  && op.MaxCost() <= s.paymasters[op.sponsor.paymaster].deposit)
    ensures op.callGas + op.verificationGas + op.preGas <= U64_MAX ==>
              op.MaxCost() == (op.callGas + op.verificationGas + op.preGas) * op.maxFee
  {
  }

  /** Which reason is given when several hold: nonce before content before signature before sponsor. */
  lemma ReasonsInOrder(s: State, op: UserOp)
    ensures op.nonce != NonceOf(s.nonces, op.sender) <==> Refused(s, op) == Some(NonceMismatch)
    ensures op.nonce == NonceOf(s.nonces, op.sender) && (op.callGas == 0 || op.verificationGas == 0 || op.maxFee == 0)
       <==> Refused(s, op) == Some(ValidationFailed)
    ensures Refused(s, op) in {Some(InvalidSignature)} ==> !op.signed
    ensures Refused(s, op) in {Some(PaymasterNotApproved), Some(PaymasterDepositInsufficient)} ==>
              op.signed && op.sponsor.By?
    ensures Refused(s, op) == Some(PaymasterNotApproved) ==> op.sponsor.paymaster !in s.approved
    ensures Refused(s, op) == Some(PaymasterDepositInsufficient) ==> op.sponsor.paymaster in s.approved
  {
  }

  /** An operation that is not refused charges its paymaster and advances its wallet's nonce. */
  function Executed(s: State, op: UserOp): State {
    if Refused(s, op).Some? then s
    else
      var paid :=
        if !op.sponsor.By? then s.paymasters
        else
          var p := op.sponsor.paymaster;
          s.paymasters[p := s.paymasters[p].(deposit := s.paymasters[p].deposit - op.MaxCost())];
      State(s.nonces[op.sender := op.nonce + 1], paid, s.approved)
  }

  function ExecutedAll(s: State, ops: seq<UserOp>): State {
    if ops == [] then s else Executed(ExecutedAll(s, ops[..|ops| - 1]), ops[|ops| - 1])
  }

  /** What each operation of a list is answered. */
  function Answers(s: State, ops: seq<UserOp>): (r: seq<Option<Error>>)
    ensures |r| == |ops|
  {
    if ops == [] then [] else
      var n := |ops| - 1;
      Answers(s, ops[..n]) + [Refused(ExecutedAll(s, ops[..n]), ops[n])]
  }

  /** The operations of a list that execute, in order. */
  function RunsOf(s: State, ops: seq<UserOp>): seq<Run> {
    if ops == [] then [] else
      var n := |ops| - 1;
      RunsOf(s, ops[..n])
      + if Refused(ExecutedAll(s, ops[..n]), ops[n]).None? then [Run(ops[n].sender, ops[n].nonce)] else []
  }

  /** Each wallet's nonces were executed once each, without gaps, up to its next. */
  ghost predicate OnceEach(runs: seq<Run>, nonces: map<Address, nat>) {
    && Distinct(runs)
    && forall w, n: nat :: Run(w, n) in runs <==> n < NonceOf(nonces, w)
  }

  lemma RunNext(runs: seq<Run>, nonces: map<Address, nat>, w: Address)
    requires OnceEach(runs, nonces)
    ensures OnceEach(runs + [Run(w, NonceOf(nonces, w))], nonces[w := NonceOf(nonces, w) + 1])
  {
    assert Run(w, NonceOf(nonces, w)) !in runs;
  }

  class EntryPoint {
    var nonces: map<Address, nat>
    var paymasters: map<Address, Paymaster>
    var approved: set<Address>
    /** What was deposited and charged for each paymaster, and every executed operation. */
    ghost var added: map<Address, nat>
    ghost var charged: map<Address, nat>
    ghost var runs: seq<Run>

    ghost predicate Valid()
      reads this
    {
      && OnceEach(runs, nonces)
      && forall p :: RecordOf(paymasters, p).deposit + At(charged, p) == At(added, p)
    }

    function Current(): State
      reads this
    {
      State(nonces, paymasters, approved)
    }

    constructor ()
      ensures Valid() && runs == [] && Current() == State(map[], map[], {})
    {
      nonces, paymasters, approved, added, charged, runs := map[], map[], {}, map[], map[], [];
    }

    /** Execute an operation that passes validation: its paymaster pays, its wallet's nonce advances. */
    method ExecuteUserOp(op: UserOp) returns (e: Option<Error>)
      requires Valid()
      modifies this
      ensures Valid() && e == old(Refused(Current(), op)) && Current() == old(Executed(Current(), op))
      ensures added == old(added)
      ensures runs == if e.None? then old(runs) + [Run(op.sender, op.nonce)] else old(runs)
      ensures e.None? ==>
                forall p :: RecordOf(paymasters, p)
                         == RecordOf(old(paymasters), p).(deposit := RecordOf(old(paymasters), p).deposit
                                                                     - if op.sponsor == By(p) then op.MaxCost() else 0)
      ensures e.Some? ==> unchanged(this)
    {
      hide OnceEach, UserOp.MaxCost;
      e := Refused(Current(), op);
      if e.Some? {
        return;
      }
      if op.sponsor.By? {
        var p := op.sponsor.paymaster;
        paymasters := paymasters[p := paymasters[p].(deposit := paymasters[p].deposit - op.MaxCost())];
        charged := charged[p := At(charged, p) + op.MaxCost()];
      }
      RunNext(runs, nonces, op.sender);
      runs := runs + [Run(op.sender, op.nonce)];
      nonces := nonces[op.sender := NonceOf(nonces, op.sender) + 1];
    }

    method AddPaymasterDeposit(p: Address, amount: nat)
      requires Valid()
      modifies this`paymasters, this`approved, this`added
      ensures Valid() && approved == old(approved) + {p}
      ensures var was := RecordOf(old(paymasters), p);
              paymasters == old(paymasters)[p := was.(deposit := was.deposit + amount)]
      ensures added == old(added)[p := At(old(added), p) + amount]
    {
      hide OnceEach;
      var was := RecordOf(paymasters, p);
      paymasters, approved := paymasters[p := was.(deposit := was.deposit + amount)], approved + {p};
      added := added[p := At(added, p) + amount];
    }

    /** Staking approves a paymaster without depositing anything for gas; the delay runs anew. */
    method StakePaymaster(p: Address, stake: nat, delay: nat, now: nat)
      requires Valid()
      modifies this`paymasters, this`approved
      ensures Valid() && approved == old(approved) + {p}
      ensures var was := RecordOf(old(paymasters), p);
              paymasters == old(paymasters)[p := Paymaster(was.deposit, was.stake + stake, now + delay)]
    {
      hide OnceEach;
      var was := RecordOf(paymasters, p);
      paymasters, approved := paymasters[p := Paymaster(was.deposit, was.stake + stake, now + delay)], approved + {p};
    }
  }

  // ---------- The pool ----------

  datatype Pooled = Pooled(op: UserOp, addedAt: nat)

  type Ops = map<Hash, Pooled>
  type SenderOps = map<Address, seq<Hash>>

  /** The per-sender index lists exactly the operations of the table, each once under its sender. */
  ghost predicate Agrees(ops: Ops, index: SenderOps) {
    && (forall h | h in ops :: ops[h].op.sender in index && h in index[ops[h].op.sender])
    && (forall s, h | s in index && h in index[s] :: h in ops && ops[h].op.sender == s)
    && (forall s | s in index :: Distinct(index[s]))
  }

  function ListOf(index: SenderOps, s: Address): seq<Hash> {
    if s in index then index[s] else []
  }

  lemma AddAgrees(ops: Ops, index: SenderOps, h: Hash, p: Pooled)
    requires Agrees(ops, index) && h !in ops
    ensures Agrees(ops[h := p], index[p.op.sender := ListOf(index, p.op.sender) + [h]])
  {
    assert h !in ListOf(index, p.op.sender);
  }

  lemma OpenAgrees(ops: Ops, index: SenderOps, s: Address)
    requires Agrees(ops, index)
    ensures Agrees(ops, index[s := ListOf(index, s)])
  {
  }

  function Without(list: seq<Hash>, h: Hash): seq<Hash> {
    if list == [] then [] else
      Without(list[..|list| - 1], h) + if list[|list| - 1] == h then [] else [list[|list| - 1]]
  }

  lemma {:induction false} WithoutIs(list: seq<Hash>, h: Hash)
    requires Distinct(list)
    ensures Distinct(Without(list, h)) && |Without(list, h)| <= |list|
    ensures forall x :: x in Without(list, h) <==> x in list && x != h
  {
    if list != [] {
      var front, last := list[..|list| - 1], list[|list| - 1];
      WithoutIs(front, h);
      assert list == front + [last] && last !in front;
    }
  }

  /** Taking one operation out of table and index, and the list out of the index once it is empty. */
  function Dropped(index: SenderOps, s: Address, h: Hash): SenderOps
    requires s in index
  {
    var list := Without(index[s], h);
    if list == [] then index - {s} else index[s := list]
  }

  lemma RemoveAgrees(ops: Ops, index: SenderOps, h: Hash)
    requires Agrees(ops, index) && h in ops
    ensures ops[h].op.sender in index && Agrees(ops - {h}, Dropped(index, ops[h].op.sender, h))
  {
    hide Without;
    var s := ops[h].op.sender;
    WithoutIs(index[s], h);
    var list := Without(index[s], h);
    forall x | x in ops - {h}
      ensures ops[x].op.sender in Dropped(index, s, h) && x in Dropped(index, s, h)[ops[x].op.sender]
    {
      if ops[x].op.sender == s {
        assert x in list;
      }
    }
  }

  class UserOpPool {
    var ops: Ops
    var index: SenderOps
    const maxSize: nat
    const maxPerSender: nat

    ghost predicate Valid()
      reads this
    {
      && Agrees(ops, index) && |ops| <= maxSize
      && forall s | s in index :: |index[s]| <= maxPerSender
    }

    constructor (size: nat, perSender: nat)
      ensures Valid() && ops == map[] && index == map[] && maxSize == size && maxPerSender == perSender
    {
      ops, index, maxSize, maxPerSender := map[], map[], size, perSender;
    }

    /** Add an operation under its hash, within the limits of the pool and of its sender. */
    method Add(op: UserOp, h: Hash, now: nat) returns (e: Option<Error>)
      requires Valid()
      modifies this
      ensures Valid()
      ensures e == if |old(ops)| >= maxSize then Some(PoolFull)
                   else if h in old(ops) then Some(DuplicateUserOp)
                   else if |ListOf(old(index), op.sender)| >= maxPerSender then Some(PoolFull) else None
      ensures ops == if e.None? then old(ops)[h := Pooled(op, now)] else old(ops)
    {
      hide Agrees;
      if |ops| >= maxSize {
        return Some(PoolFull);
      }
      if h in ops {
        return Some(DuplicateUserOp);
      }
      var list := ListOf(index, op.sender);
      OpenAgrees(ops, index, op.sender);
      AddAgrees(ops, index, h, Pooled(op, now));
      if |list| >= maxPerSender {
        index := index[op.sender := list];
        return Some(PoolFull);
      }
      index := index[op.sender := list + [h]];
      ops := ops[h := Pooled(op, now)];
      e := None;
    }

    method Remove(h: Hash) returns (r: Option<Pooled>)
      requires Valid()
      modifies this
      ensures Valid() && ops == old(ops) - {h}
      ensures r == if h in old(ops) then Some(old(ops)[h]) else None
    {
      hide Agrees, Without;
      r := None;
      if h !in ops {
        assert ops - {h} == ops;
        return;
      }
      RemoveAgrees(ops, index, h);
      Listed(ops, index, ops[h].op.sender);
      r := Some(ops[h]);
      var s := ops[h].op.sender;
      WithoutIs(index[s], h);
      var list := Without(index[s], h);
      Fewer(ops, h);
      ops := ops - {h};
      index := if list == [] then index - {s} else index[s := list];
    }

    /** Up to `max` pending operations, whichever they are. */
    method GetPending(max: nat) returns (list: seq<Hash>)
      ensures Distinct(list) && |list| <= max && (forall h | h in list :: h in ops)
      ensures |list| < max ==> forall h | h in ops :: h in list
    {
      list := [];
      var rest := ops.Keys;
      while rest != {} && |list| < max
        invariant rest <= ops.Keys && Distinct(list) && |list| <= max
        invariant forall h :: h in list <==> h in ops && h !in rest
        decreases rest
      {
        var h :| h in rest;
        list := list + [h];
        rest := rest - {h};
      }
    }

    /** Drop every operation added before the deadline. */
    method PruneExpired(deadline: nat)
      requires Valid()
      modifies this
      ensures Valid() && ops == old(ops) - Expired(old(ops), deadline)
      ensures forall h | h in old(ops) :: h in ops <==> deadline <= old(ops)[h].addedAt
    {
      hide UserOpPool.Valid, Expired;
      var rest := Expired(ops, deadline);
      ghost var gone: set<Hash> := {};
      assert ops - gone == ops;
      while rest != {}
        invariant Valid() && gone + rest == Expired(old(ops), deadline) && ops == old(ops) - gone
        decreases rest
      {
        var h :| h in rest;
        var removed := Remove(h);
        Regroup(old(ops), gone, h);
        gone, rest := gone + {h}, rest - {h};
      }
      ExpiredAre(old(ops), deadline);
    }
  }

  function Expired(ops: Ops, deadline: nat): set<Hash> {
    set h | h in ops && ops[h].addedAt < deadline
  }

  lemma ExpiredAre(ops: Ops, deadline: nat)
    ensures forall h | h in ops :: h in Expired(ops, deadline) <==> ops[h].addedAt < deadline
  {
  }

  lemma Regroup(ops: Ops, gone: set<Hash>, h: Hash)
    ensures ops - gone - {h} == ops - (gone + {h})
  {
  }

  lemma Listed(ops: Ops, index: SenderOps, s: Address)
    requires Agrees(ops, index) && s in index
    ensures Distinct(index[s])
  {
  }

  lemma Fewer(ops: Ops, h: Hash)
    requires h in ops
    ensures |ops - {h}| <= |ops|
  {
    assert ops.Keys == (ops - {h}).Keys + {h} && |ops| == |ops.Keys| && |ops - {h}| == |(ops - {h}).Keys|;
  }
}
