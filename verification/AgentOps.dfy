/** Agents submitting user operations: the guard, the entry point and the pool in sequence. */
module AgentOps {
  import opened Common
  import opened Agents
  import opened Sorting
  import opened UserOps

  const AGENT_PAYMASTER: Address := 0x4337_AA00_0000_0000_0000_0000_0000_0000_0000_0002

  datatype Failure = Guard(guard: Agents.Error) | Operation(operation: UserOps.Error)

  datatype Submission = Accepted(hash: Hash) | Rejected(failure: Failure)

  /** The agents' paymaster sponsors operations that name none. */
  function Sponsored(op: UserOp): UserOp {
    if op.sponsor.Unset? then op.(sponsor := By(AGENT_PAYMASTER)) else op
  }

  /** The agent was allowed the spend, paid exactly that from its deposit, and has it in its books. */
  ghost predicate Charged(before: map<Id, Agent>, after: map<Id, Agent>,
                          booked: map<Id, seq<Spend>>, books: map<Id, seq<Spend>>,
                          id: Id, perm: bv8, amount: nat, now: nat) {
    && id in before && id in booked
    && Refusal(Refreshed(before[id], now), perm, amount, now).None?
    && after == before[id := Spent(Refreshed(before[id], now), amount, now)]
    && after[id].deposit == before[id].deposit - amount
    && books == booked[id := booked[id] + [Spend(Refreshed(before[id], now).lastReset, amount, now)]]
  }

  ghost predicate NothingSpent(before: map<Id, Agent>, after: map<Id, Agent>) {
    after.Keys == before.Keys && forall id | id in after :: after[id].deposit == before[id].deposit
  }

  /** Starting a new day spends nothing. */
  lemma AlwaysUnspent(before: map<Id, Agent>, now: nat)
    ensures forall id | id in before :: Refreshed(before[id], now).deposit == before[id].deposit
  {
  }

  /** What stands behind the agents' paymaster. */
  function Deposited(paymasters: map<Address, Paymaster>): nat {
    RecordOf(paymasters, AGENT_PAYMASTER).deposit
  }

  class AgentAA {
    const guard: AgentGuard
    const entryPoint: EntryPoint
    const pool: UserOpPool

    ghost predicate Valid()
      reads this, guard, entryPoint, pool
    {
      guard.Valid() && entryPoint.Valid() && pool.Valid()
    }

    constructor ()
      ensures Valid() && fresh(guard) && fresh(entryPoint) && fresh(pool)
      ensures guard.agents == map[] && pool.ops == map[] && entryPoint.runs == []
      ensures entryPoint.approved == {AGENT_PAYMASTER} && pool.maxSize == 1000 && pool.maxPerSender == 20
      ensures entryPoint.paymasters == map[AGENT_PAYMASTER := Paymaster(0, 1_000_000, 86_400)]
    {
      hide AgentGuard.Valid, EntryPoint.Valid, UserOpPool.Valid, RecordOf;
      guard := new AgentGuard();
      entryPoint := new EntryPoint();
      pool := new UserOpPool(1000, 20);
      new;
      NoRecord(AGENT_PAYMASTER);
      entryPoint.StakePaymaster(AGENT_PAYMASTER, 1_000_000, 86_400, 0);
    }

    /** Register an agent and put its deposit behind the agents' paymaster. */
    method RegisterAgent(id: Id, a: Agent)
      requires Valid()
      modifies guard, entryPoint
      ensures Valid() && guard.agents == old(guard.agents)[id := a]
      ensures Deposited(entryPoint.paymasters) == Deposited(old(entryPoint.paymasters)) + a.deposit
    {
      hide AgentGuard.Valid, EntryPoint.Valid, UserOpPool.Valid;
      guard.RegisterAgent(id, a);
      if a.deposit > 0 {
        entryPoint.AddPaymasterDeposit(AGENT_PAYMASTER, a.deposit);
      }
    }

    /** Submit an operation under a session key. It is pooled, charged to the agent and counted against the
        key's nonce all together, or nothing is spent and the nonce stays. */
    method SubmitAgentUserOp(op: UserOp, hash: UserOp -> Hash, k: Address, perm: bv8, amount: nat, nonce: nat, now: nat)
      returns (r: Submission)
      requires Valid()
      modifies guard, pool
      ensures Valid()
      ensures r.Accepted? ==>
                && op.nonce == NonceOf(entryPoint.nonces, op.sender) && op.signed
                && Sponsored(op) == op.(sponsor := if op.sponsor == Unset then By(AGENT_PAYMASTER) else op.sponsor)
                && k in old(guard.keys) && r.hash == hash(Sponsored(op)) && r.hash !in old(pool.ops)
                && pool.ops == old(pool.ops)[r.hash := Pooled(Sponsored(op), now)]
                && guard.uses == old(guard.uses) + [Use(k, IssueOf(guard.issues, k), nonce)]
                && guard.keys == old(guard.keys)[k := old(guard.keys)[k].(nonce := nonce + 1)]
                && Charged(old(guard.agents), guard.agents, old(guard.spends), guard.spends, old(guard.keys)[k].agent,
                           perm, amount, now)
                && guard.overrun == old(guard.overrun)
      ensures r.Rejected? ==>
                && pool.ops == old(pool.ops) && guard.uses == old(guard.uses) && guard.keys == old(guard.keys)
                && guard.spends == old(guard.spends) && guard.overrun == old(guard.overrun)
                && NothingSpent(old(guard.agents), guard.agents)
    {
      hide AgentGuard.Valid, EntryPoint.Valid, UserOpPool.Valid, Refusal, Refreshed, Spent, Refused, IssueOf, Covers;
      AlwaysUnspent(guard.agents, now);
      var checked := guard.ValidateAgentOperation(k, perm, amount, nonce, now);
      if checked.Err? {
        return Rejected(Guard(checked.error));
      }
      var id := checked.value;
      var sponsored := Sponsored(op);
      var refused := Refused(entryPoint.Current(), sponsored);
      if refused.Some? {
        return Rejected(Operation(refused.value));
      }
      ExecutedIff(entryPoint.Current(), sponsored);
      var h := hash(sponsored);
      var e := pool.Add(sponsored, h, now);
      if e.Some? {
        return Rejected(Operation(e.value));
      }
      SpendIsExact(guard.agents[id], perm, amount, now);
      SameDay(old(guard.agents)[id], now);
      AllowedIsCovered(guard.agents[id], perm, amount, now);
      var spent := guard.RecordSpend(id, amount, now);
      var counted := guard.IncrementSessionKeyNonce(k);
      r := Accepted(h);
    }

    /** Execute up to `max` pooled operations in turn; each is answered as the entry point stands by then,
        and leaves the pool whether it executes or not. */
    method ExecutePendingOps(max: nat) returns (results: seq<(Hash, Option<UserOps.Error>)>)
      requires Valid()
      modifies entryPoint, pool
      ensures Valid() && |results| <= max && Distinct(HashesOf(results))
      ensures forall h | h in HashesOf(results) :: h in old(pool.ops)
      ensures pool.ops == Left(old(pool.ops), HashesOf(results))
      ensures |results| < max ==> pool.ops == map[]
      ensures var ops := OpsOf(old(pool.ops), HashesOf(results));
              && AnswersOf(results) == Answers(old(entryPoint.Current()), ops)
              && entryPoint.Current() == ExecutedAll(old(entryPoint.Current()), ops)
              && entryPoint.runs == old(entryPoint.runs) + RunsOf(old(entryPoint.Current()), ops)
    {
      hide AgentGuard.Valid, EntryPoint.Valid, UserOpPool.Valid, Refused, Executed, Answers, ExecutedAll, RunsOf, Left;
      hide HashesOf, AnswersOf, OpsOf;
      var todo := pool.GetPending(max);
      ghost var start, ops := entryPoint.Current(), OpsOf(pool.ops, todo);
      results := [];
      NothingDone(start, pool.ops);
      for i := 0 to |todo|
        invariant Valid() && unchanged(guard) && HashesOf(results) == todo[..i]
        invariant pool.ops == Left(old(pool.ops), todo[..i])
        invariant AnswersOf(results) == Answers(start, ops[..i])
        invariant entryPoint.Current() == ExecutedAll(start, ops[..i])
        invariant entryPoint.runs == old(entryPoint.runs) + RunsOf(start, ops[..i])
      {
        OneMoreDone(old(pool.ops), todo, i);
        OneMoreOp(start, ops, i);
        var op := pool.ops[todo[i]].op;
        var e := entryPoint.ExecuteUserOp(op);
        var gone := pool.Remove(todo[i]);
        ResultsGrow(results, todo[i], e);
        results := results + [(todo[i], e)];
      }
      assert todo[..|todo|] == todo && ops[..|todo|] == ops;
      NoneLeft(old(pool.ops), todo);
    }

    method FundAgentPaymaster(id: Id, amount: nat) returns (e: Option<Agents.Error>)
      requires Valid()
      modifies guard, entryPoint
      ensures Valid() && e == (if id in old(guard.agents) then None else Some(AgentNotFound))
      ensures e.None? ==>
                && (var a := old(guard.agents)[id];
                    guard.agents == old(guard.agents)[id := a.(deposit := a.deposit + amount)])
                && Deposited(entryPoint.paymasters) == Deposited(old(entryPoint.paymasters)) + amount
      ensures e.Some? ==> guard.agents == old(guard.agents) && entryPoint.paymasters == old(entryPoint.paymasters)
    {
      hide AgentGuard.Valid, EntryPoint.Valid, UserOpPool.Valid;
      if id !in guard.agents {
        return Some(AgentNotFound);
      }
      guard.Fund(id, amount);
      entryPoint.AddPaymasterDeposit(AGENT_PAYMASTER, amount);
      e := None;
    }
  }

  function HashesOf(results: seq<(Hash, Option<UserOps.Error>)>): (hs: seq<Hash>)
    ensures |hs| == |results|
  {
    seq(|results|, i requires 0 <= i < |results| => results[i].0)
  }

  function AnswersOf(results: seq<(Hash, Option<UserOps.Error>)>): (es: seq<Option<UserOps.Error>>)
    ensures |es| == |results|
  {
    seq(|results|, i requires 0 <= i < |results| => results[i].1)
  }

  function OpsOf(ops: Ops, hs: seq<Hash>): (r: seq<UserOp>)
    requires forall h | h in hs :: h in ops
    ensures |r| == |hs|
  {
    seq(|hs|, i requires 0 <= i < |hs| => ops[hs[i]].op)
  }

  /** The pool without the operations taken. */
  function Left(ops: Ops, taken: seq<Hash>): Ops {
    map h | h in ops && h !in taken :: ops[h]
  }

  lemma NoRecord(p: Address)
    ensures RecordOf(map[], p) == Paymaster(0, 0, 0)
  {
  }

  lemma NothingDone(s: State, ops: Ops)
    ensures HashesOf([]) == [] && AnswersOf([]) == [] && Left(ops, []) == ops
    ensures Answers(s, []) == [] && ExecutedAll(s, []) == s && RunsOf(s, []) == []
  {
  }

  lemma OneMoreDone(ops: Ops, todo: seq<Hash>, i: nat)
    requires i < |todo| && Distinct(todo) && forall h | h in todo :: h in ops
    ensures todo[i] in Left(ops, todo[..i]) && Left(ops, todo[..i])[todo[i]].op == OpsOf(ops, todo)[i]
    ensures Left(ops, todo[..i]) - {todo[i]} == Left(ops, todo[..i + 1]) && todo[..i + 1] == todo[..i] + [todo[i]]
  {
    assert todo[i] in todo && todo[i] !in todo[..i];
    assert todo[..i + 1] == todo[..i] + [todo[i]];
  }

  lemma OneMoreOp(s: State, ops: seq<UserOp>, i: nat)
    requires i < |ops|
    ensures var before := ExecutedAll(s, ops[..i]);
            && ExecutedAll(s, ops[..i + 1]) == Executed(before, ops[i])
            && Answers(s, ops[..i + 1]) == Answers(s, ops[..i]) + [Refused(before, ops[i])]
            && RunsOf(s, ops[..i + 1])
               == RunsOf(s, ops[..i])
                  + if Refused(before, ops[i]).None? then [Run(ops[i].sender, ops[i].nonce)] else []
  {
    hide Refused, Executed;
    assert ops[..i + 1][..i] == ops[..i];
  }

  lemma NoneLeft(ops: Ops, todo: seq<Hash>)
    ensures (forall h | h in ops :: h in todo) ==> Left(ops, todo) == map[]
  {
  }

  lemma ResultsGrow(results: seq<(Hash, Option<UserOps.Error>)>, h: Hash, e: Option<UserOps.Error>)
    ensures HashesOf(results + [(h, e)]) == HashesOf(results) + [h]
    ensures AnswersOf(results + [(h, e)]) == AnswersOf(results) + [e]
  {
  }

  lemma SameDay(a: Agent, now: nat)
    ensures Refreshed(Refreshed(a, now), now) == Refreshed(a, now) && Refreshed(a, now).deposit == a.deposit
  {
  }

  lemma SpendIsExact(a: Agent, perm: bv8, amount: nat, now: nat)
    requires Refusal(a, perm, amount, now).None?
    ensures Spent(a, amount, now).deposit == a.deposit - amount
  {
  }
}
