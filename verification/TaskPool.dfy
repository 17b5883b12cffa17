/** The pool of inference tasks: fair assignment to miners, and its books. */
module TaskPool {
  import opened Common
  import opened CostMeter
  import opened Quota
  import opened RoundRobin
  import opened Sorting
  import opened Sums

  /** A task with what it requires of a miner. */
  datatype Task = Task(id: Hash, deadline: nat, minTier: GpuTier, minMemory: nat, flops: nat)

  datatype Status = Pending | Assigned | Completed(miner: Address) | Expired

  datatype PublicTask = PublicTask(task: Task, submitter: Address, maxFee: nat, status: Status)

  datatype Assignment = Assignment(task: Task, miner: Address, assignedAt: nat)

  type Public = map<Hash, PublicTask>

  predicate Matches(t: Task, tier: GpuTier, memory: nat) {
    TierCanRun(tier, t.minTier) && t.minMemory <= memory
  }

  /** The tiers by power. */
  function Power(t: GpuTier): nat {
    match t
    case Cold => 1
    case Warm => 2
    case Hot => 3
  }

  /** A miner can be handed exactly the tasks that ask for no higher tier and no more memory than it has. */
  lemma MatchesIff(t: Task, tier: GpuTier, memory: nat)
    ensures Matches(t, tier, memory) <==> Power(t.minTier) <= Power(tier) && t.minMemory <= memory
  {
  }

  // ---------- The fair choice ----------

  /** Tasks that nobody submitted belong to the zero address and pay nothing. */
  function Tenant(public: Public, t: Task): Address {
    if t.id in public then public[t.id].submitter else 0
  }

  function Fee(public: Public, t: Task): nat {
    if t.id in public then public[t.id].maxFee else 0
  }

  function Priority(config: Option<Config>, a: Address): nat {
    if config.Some? then config.value.TierFor(a).ClampedPriority() else 1
  }

  datatype Candidate = Candidate(index: nat, tenant: Address, priority: nat, fee: nat)

  predicate IsCandidate(c: Candidate, pending: seq<Task>, public: Public, config: Option<Config>, tier: GpuTier,
                        memory: nat) {
    && c.index < |pending|
    && Matches(pending[c.index], tier, memory)
    && c.tenant == Tenant(public, pending[c.index])
    && c.priority == Priority(config, c.tenant)
    && c.fee == Fee(public, pending[c.index])
  }

  /** The candidates, in queue order. */
  ghost predicate Collects(cs: seq<Candidate>, pending: seq<Task>, public: Public, config: Option<Config>,
                           tier: GpuTier, memory: nat) {
    && (forall c :: c in cs <==> IsCandidate(c, pending, public, config, tier, memory))
    && (forall i, j | 0 <= i < j < |cs| :: cs[i].index < cs[j].index)
  }

  function Tenants(cs: seq<Candidate>, priority: nat): set<Address> {
    set c | c in cs && c.priority == priority :: c.tenant
  }

  /** Of the candidates at the highest priority, the tenant whose turn it is; of its tasks the one with
      the highest fee, the most recently queued among equals. */
  ghost predicate Fair(best: Candidate, cs: seq<Candidate>, last: Option<Address>) {
    && best in cs
    && (forall c | c in cs :: c.priority <= best.priority)
    && IsNext(last, Tenants(cs, best.priority), best.tenant)
    && (forall c | c in cs && c.tenant == best.tenant ::
          c.fee < best.fee || (c.fee == best.fee && c.index <= best.index))
  }

  method Collect(pending: seq<Task>, public: Public, config: Option<Config>, tier: GpuTier, memory: nat)
    returns (cs: seq<Candidate>)
    ensures Collects(cs, pending, public, config, tier, memory)
  {
    hide Tenant, Fee, Priority, Matches;
    cs := [];
    for i := 0 to |pending|
      invariant forall c :: c in cs <==> IsCandidate(c, pending, public, config, tier, memory) && c.index < i
      invariant forall i, j | 0 <= i < j < |cs| :: cs[i].index < cs[j].index
    {
      if Matches(pending[i], tier, memory) {
        var tenant := Tenant(public, pending[i]);
        assert forall k | 0 <= k < |cs| :: cs[k] in cs;
        cs := cs + [Candidate(i, tenant, Priority(config, tenant), Fee(public, pending[i]))];
      }
    }
  }

  method TopPriority(cs: seq<Candidate>) returns (p: nat)
    requires cs != []
    ensures (exists c :: c in cs && c.priority == p) && forall c | c in cs :: c.priority <= p
  {
    p := cs[0].priority;
    for i := 1 to |cs|
      invariant exists c :: c in cs && c.priority == p
      invariant forall k | 0 <= k < i :: cs[k].priority <= p
    {
      if cs[i].priority > p {
        p := cs[i].priority;
        assert cs[i] in cs;
      }
    }
  }

  /** The last of the highest fees of a tenant. */
  method BestFee(cs: seq<Candidate>, tenant: Address) returns (best: Candidate)
    requires exists c :: c in cs && c.tenant == tenant
    requires forall i, j | 0 <= i < j < |cs| :: cs[i].index < cs[j].index
    ensures best in cs && best.tenant == tenant
    ensures forall c | c in cs && c.tenant == tenant :: c.fee < best.fee || (c.fee == best.fee && c.index <= best.index)
  {
    var found := false;
    best := cs[0];
    for i := 0 to |cs|
      invariant found ==> best in cs[..i] && best.tenant == tenant
      invariant forall k | 0 <= k < i && cs[k].tenant == tenant ::
                  found && (cs[k].fee < best.fee || (cs[k].fee == best.fee && cs[k].index <= best.index))
    {
      if cs[i].tenant == tenant && (!found || cs[i].fee >= best.fee) {
        assert best in cs[..i] ==> best.index < cs[i].index;
        found, best := true, cs[i];
      }
      assert cs[..i + 1] == cs[..i] + [cs[i]];
    }
  }

  method Select(cs: seq<Candidate>, last: Option<Address>) returns (best: Candidate)
    requires cs != []
    requires forall i, j | 0 <= i < j < |cs| :: cs[i].index < cs[j].index
    requires forall c, d | c in cs && d in cs && c.tenant == d.tenant :: c.priority == d.priority
    ensures Fair(best, cs, last)
  {
    hide IsNext;
    var p := TopPriority(cs);
    var tenants := Tenants(cs, p);
    ghost var c :| c in cs && c.priority == p;
    assert c.tenant in tenants;
    var tenant := Choose(last, tenants);
    NextIsOne(last, tenants, tenant);
    best := BestFee(cs, tenant);
  }

  lemma NextIsOne(last: Option<Address>, tenants: set<Address>, chosen: Address)
    requires IsNext(last, tenants, chosen)
    ensures chosen in tenants
  {
  }

  lemma TenantDecidesPriority(cs: seq<Candidate>, pending: seq<Task>, public: Public, config: Option<Config>,
                              tier: GpuTier, memory: nat)
    requires Collects(cs, pending, public, config, tier, memory)
    ensures forall c, d | c in cs && d in cs && c.tenant == d.tenant :: c.priority == d.priority
  {
  }

  /** A run of fetches: the candidates each found and the one it handed out. What is submitted, completed
      or requeued in between shows only in the candidates. */
  ghost predicate Fetches(start: Option<Address>, found: seq<seq<Candidate>>, handed: seq<Candidate>) {
    && |found| == |handed|
    && forall i {:trigger found[i]} | 0 <= i < |handed| ::
         Fair(handed[i], found[i], if i == 0 then start else Some(handed[i - 1].tenant))
  }

  /** A tenant that has a candidate at the highest priority in every fetch is handed work within as many
      fetches as there are tenants. */
  lemma NobodyStarves(start: Option<Address>, found: seq<seq<Candidate>>, handed: seq<Candidate>,
                      w: Address, all: set<Address>)
    requires Fetches(start, found, handed) && |found| == |handed| >= |all| > 0
    requires forall i | 0 <= i < |found| ::
               w in Tenants(found[i], handed[i].priority) && Tenants(found[i], handed[i].priority) <= all
    ensures exists i :: 0 <= i < |handed| && handed[i].tenant == w
  {
    hide Fetches, Serves, Tenants, WaitingTenants, ServedTenants;
    FetchesServe(start, found, handed);
    forall k | 0 <= k < |handed|
      ensures w in WaitingTenants(found, handed)[k] && WaitingTenants(found, handed)[k] <= all
    {
      WaitingAt(found, handed, k);
    }
    ServedWithin(start, WaitingTenants(found, handed), ServedTenants(handed), w, all);
    ServedAt(handed, w);
  }

  ghost function WaitingTenants(found: seq<seq<Candidate>>, handed: seq<Candidate>): (r: seq<set<Address>>)
    requires |found| == |handed|
    ensures |r| == |handed|
  {
    seq(|handed|, i requires 0 <= i < |handed| => Tenants(found[i], handed[i].priority))
  }

  function ServedTenants(handed: seq<Candidate>): (r: seq<Address>)
    ensures |r| == |handed|
  {
    seq(|handed|, i requires 0 <= i < |handed| => handed[i].tenant)
  }

  lemma WaitingAt(found: seq<seq<Candidate>>, handed: seq<Candidate>, i: nat)
    requires |found| == |handed| && i < |handed|
    ensures WaitingTenants(found, handed)[i] == Tenants(found[i], handed[i].priority)
  {
  }

  lemma ServedAt(handed: seq<Candidate>, w: Address)
    requires w in ServedTenants(handed)
    ensures exists i :: 0 <= i < |handed| && handed[i].tenant == w
  {
    var i :| 0 <= i < |handed| && ServedTenants(handed)[i] == w;
    assert handed[i].tenant == w;
  }

  lemma FetchesServe(start: Option<Address>, found: seq<seq<Candidate>>, handed: seq<Candidate>)
    requires Fetches(start, found, handed)
    ensures Serves(start, WaitingTenants(found, handed), ServedTenants(handed))
  {
    hide IsNext, Tenants, Fair;
    var waiting, served := WaitingTenants(found, handed), ServedTenants(handed);
    forall i {:trigger waiting[i]} | 0 <= i < |served|
      ensures IsNext(if i == 0 then start else Some(served[i - 1]), waiting[i], served[i])
    {
      var last := if i == 0 then start else Some(handed[i - 1].tenant);
      assert Fair(handed[i], found[i], last);
      FairIsNext(handed[i], found[i], last);
      assert last == if i == 0 then start else Some(served[i - 1]);
    }
  }

  /** Task `i` can be run, and of the tasks that can, none is of a tenant with a higher priority, and none of
      the same tenant pays more, or pays the same and was queued later. */
  ghost predicate NoneBefore(pending: seq<Task>, public: Public, config: Option<Config>, tier: GpuTier, memory: nat,
                             i: nat) {
    && i < |pending| && Power(pending[i].minTier) <= Power(tier) && pending[i].minMemory <= memory
    && forall k | 0 <= k < |pending| && Power(pending[k].minTier) <= Power(tier) && pending[k].minMemory <= memory ::
         var t, u := pending[i], pending[k];
         && Priority(config, Tenant(public, u)) <= Priority(config, Tenant(public, t))
         && (Tenant(public, u) == Tenant(public, t) ==>
               Fee(public, u) < Fee(public, t) || (Fee(public, u) == Fee(public, t) && k <= i))
  }

  lemma FairIsFirst(best: Candidate, cs: seq<Candidate>, last: Option<Address>, pending: seq<Task>, public: Public,
                    config: Option<Config>, tier: GpuTier, memory: nat)
    requires Fair(best, cs, last) && Collects(cs, pending, public, config, tier, memory)
    ensures NoneBefore(pending, public, config, tier, memory, best.index)
  {
    hide Tenant, Fee, Priority, IsNext, Tenants;
    assert IsCandidate(best, pending, public, config, tier, memory);
    MatchesIff(pending[best.index], tier, memory);
    forall k | 0 <= k < |pending| && Power(pending[k].minTier) <= Power(tier) && pending[k].minMemory <= memory
      ensures var t, u := pending[best.index], pending[k];
              && Priority(config, Tenant(public, u)) <= Priority(config, Tenant(public, t))
              && (Tenant(public, u) == Tenant(public, t) ==>
                    Fee(public, u) < Fee(public, t) || (Fee(public, u) == Fee(public, t) && k <= best.index))
    {
      MatchesIff(pending[k], tier, memory);
      var tenant := Tenant(public, pending[k]);
      var c := Candidate(k, tenant, Priority(config, tenant), Fee(public, pending[k]));
      assert IsCandidate(c, pending, public, config, tier, memory);
    }
  }

  /** Without quotas, and among tasks nobody submitted, all have the same standing: no fee and priority one. */
  lemma Unsubmitted(public: Public, t: Task, a: Address)
    requires t.id !in public
    ensures Fee(public, t) == 0 && Tenant(public, t) == 0 && Priority(None, a) == 1
  {
  }

  /** Priorities are zero, one and two; whatever is configured above counts as two. */
  lemma PriorityIs(config: Config, a: Address)
    ensures Priority(Some(config), a) <= 2
    ensures config.TierFor(a).priority <= 2 ==> Priority(Some(config), a) == config.TierFor(a).priority
    ensures config.TierFor(a).priority > 2 ==> Priority(Some(config), a) == 2
  {
  }

  lemma FairIsNext(best: Candidate, cs: seq<Candidate>, last: Option<Address>)
    requires Fair(best, cs, last)
    ensures IsNext(last, Tenants(cs, best.priority), best.tenant)
  {
  }

  // ---------- Queue and books ----------

  type Assignments = map<Hash, Assignment>

  /** No task is queued twice, or both queued and assigned. */
  ghost predicate Queued(pending: seq<Task>, taken: Assignments) {
    && (forall i, j | 0 <= i < j < |pending| :: pending[i].id != pending[j].id)
    && (forall t | t in pending :: t.id !in taken)
    && (forall id | id in taken :: taken[id].task.id == id)
  }

  /** The open public tasks of a tenant. */
  function OpenOf(public: Public, a: Address): set<Hash> {
    set id | id in public && public[id].submitter == a
  }

  function InFlightOf(tenants: map<Address, State>, a: Address): nat {
    if a in tenants then tenants[a].inFlight else 0
  }

  /** Every tenant's in-flight counter is the number of its open public tasks. */
  ghost predicate Counted(tenants: map<Address, State>, public: Public) {
    && (forall a :: InFlightOf(tenants, a) == |OpenOf(public, a)|)
    && (forall id | id in public ::
          public[id].task.id == id && (public[id].status.Pending? || public[id].status.Assigned?))
  }

  /** A completed task with the miner that executed it. */
  datatype Completion = Completion(task: PublicTask, miner: Address)

  function ChargeOf(f: Completion): Charge {
    Charge(f.task.submitter, f.miner, f.task.task.flops, f.task.maxFee)
  }

  function Charges(finished: seq<Completion>): seq<Charge> {
    seq(|finished|, i requires 0 <= i < |finished| => ChargeOf(finished[i]))
  }

  /** Each completed task was metered once, and is no longer open. */
  ghost predicate Metered(finished: seq<Completion>, log: seq<Charge>, public: Public) {
    && log == Charges(finished)
    && (forall i, j | 0 <= i < j < |finished| :: finished[i].task.task.id != finished[j].task.task.id)
    && (forall f | f in finished :: f.task.task.id !in public)
  }

  /** Every identifier in the pool was used by a submission. */
  ghost predicate Known(used: set<Hash>, pending: seq<Task>, taken: Assignments, public: Public,
                        finished: seq<Completion>) {
    && (forall t | t in pending :: t.id in used)
    && taken.Keys <= used && public.Keys <= used
    && (forall f | f in finished :: f.task.task.id in used)
  }

  lemma OpenMore(public: Public, id: Hash, p: PublicTask, a: Address)
    requires id !in public
    ensures |OpenOf(public[id := p], a)| == |OpenOf(public, a)| + if a == p.submitter then 1 else 0
  {
    if a == p.submitter {
      assert OpenOf(public[id := p], a) == OpenOf(public, a) + {id};
    } else {
      assert OpenOf(public[id := p], a) == OpenOf(public, a);
    }
  }

  lemma OpenLess(public: Public, id: Hash, a: Address)
    requires id in public
    ensures |OpenOf(public, a)| == |OpenOf(public - {id}, a)| + if a == public[id].submitter then 1 else 0
  {
    if a == public[id].submitter {
      assert OpenOf(public, a) == OpenOf(public - {id}, a) + {id};
    } else {
      assert OpenOf(public, a) == OpenOf(public - {id}, a);
    }
  }

  lemma OpenSame(public: Public, id: Hash, p: PublicTask, a: Address)
    requires id in public && public[id].submitter == p.submitter
    ensures OpenOf(public[id := p], a) == OpenOf(public, a)
  {
  }

  lemma OpenAtMost(public: Public, a: Address)
    ensures |OpenOf(public, a)| <= |public|
  {
    assert OpenOf(public, a) <= public.Keys;
    SubsetSize(OpenOf(public, a), public.Keys);
  }

  lemma CountStart(tenants: map<Address, State>, after: map<Address, State>, public: Public, id: Hash, p: PublicTask)
    requires Counted(tenants, public) && id !in public && p.task.id == id && p.status.Pending?
      && |public| < U64_MAX
    requires forall a :: InFlightOf(after, a)
                      == if a == p.submitter then Cap64(InFlightOf(tenants, a) + 1) else InFlightOf(tenants, a)
    ensures Counted(after, public[id := p])
  {
    forall a ensures InFlightOf(after, a) == |OpenOf(public[id := p], a)| {
      OpenMore(public, id, p, a);
      OpenAtMost(public, a);
    }
  }

  lemma CountFinish(tenants: map<Address, State>, after: map<Address, State>, public: Public, id: Hash)
    requires Counted(tenants, public) && id in public
    requires forall a :: InFlightOf(after, a)
                      == if a == public[id].submitter then Minus(InFlightOf(tenants, a), 1) else InFlightOf(tenants, a)
    ensures Counted(after, public - {id})
  {
    forall a ensures InFlightOf(after, a) == |OpenOf(public - {id}, a)| {
      OpenLess(public, id, a);
    }
  }

  lemma CountStatus(tenants: map<Address, State>, public: Public, id: Hash, status: Status)
    requires Counted(tenants, public) && id in public && (status.Pending? || status.Assigned?)
    ensures Counted(tenants, public[id := public[id].(status := status)])
  {
    forall a ensures InFlightOf(tenants, a) == |OpenOf(public[id := public[id].(status := status)], a)| {
      OpenSame(public, id, public[id].(status := status), a);
    }
  }

  lemma QueueMore(pending: seq<Task>, taken: Assignments, t: Task)
    requires Queued(pending, taken) && t.id !in taken && forall u | u in pending :: u.id != t.id
    ensures Queued(pending + [t], taken)
  {
    forall i, j | 0 <= i < j < |pending| + 1 ensures (pending + [t])[i].id != (pending + [t])[j].id {
      if j == |pending| {
        assert pending[i] in pending;
      }
    }
  }

  lemma QueueTake(pending: seq<Task>, taken: Assignments, i: nat, a: Assignment)
    requires Queued(pending, taken) && i < |pending| && a.task == pending[i]
    ensures Queued(pending[..i] + pending[i + 1..], taken[pending[i].id := a])
  {
    var rest := pending[..i] + pending[i + 1..];
    forall t | t in rest ensures t in pending && t.id != pending[i].id {
    }
  }

  lemma QueueDrop(pending: seq<Task>, taken: Assignments, id: Hash)
    requires Queued(pending, taken)
    ensures Queued(pending, taken - {id})
  {
  }

  lemma MeterMore(finished: seq<Completion>, log: seq<Charge>, public: Public, id: Hash, miner: Address)
    requires Metered(finished, log, public) && id in public && public[id].task.id == id
    ensures var f := Completion(public[id], miner);
            Metered(finished + [f], log + [ChargeOf(f)], public - {id})
  {
    var f := Completion(public[id], miner);
    assert Charges(finished + [f]) == Charges(finished) + [ChargeOf(f)];
    forall i | 0 <= i < |finished| ensures finished[i].task.task.id != id {
      assert finished[i] in finished;
    }
  }

  /** An admission check never moves an in-flight counter. */
  lemma AdmitKeepsInFlight(cfg: Config, q: Tier, s: Option<State>, flops: nat, pending: nat, now: nat)
    ensures var s' := Admit(cfg, q, s, flops, pending, now).0;
            (if s'.Some? then s'.value.inFlight else 0) == if s.Some? then s.value.inFlight else 0
  {
    hide Gain, Hint, Tier.Capacity;
  }

  lemma OpenIsInFlight(tenants: map<Address, State>, public: Public, a: Address)
    requires Counted(tenants, public)
    ensures |OpenOf(public, a)| == InFlightOf(tenants, a)
  {
  }

  lemma NotOpenYet(used: set<Hash>, pending: seq<Task>, taken: Assignments, public: Public, finished: seq<Completion>,
                   id: Hash)
    requires Known(used, pending, taken, public, finished) && id !in used
    ensures id !in public
  {
  }

  class TaskPool {
    var pending: seq<Task>
    var public: Public
    var taken: Assignments
    /** Completed and expired tasks, with the time until which they can be queried. */
    var completed: map<Hash, (PublicTask, nat)>
    var rrLast: Option<Address>
    const quota: QuotaEnforcer
    const cost: CostMeter
    /** Every identifier ever submitted, and every completed task. */
    ghost var used: set<Hash>
    ghost var finished: seq<Completion>

    ghost predicate Valid()
      reads this, quota, cost
    {
      && cost.Valid()
      && Queued(pending, taken)
      && Counted(quota.tenants, public)
      && Metered(finished, cost.Log(), public)
      && Known(used, pending, taken, public, finished)
    }

    constructor ()
      ensures Valid() && fresh(quota) && fresh(cost)
      ensures pending == [] && public == map[] && taken == map[] && rrLast.None? && used == {} && finished == []
    {
      pending, public, taken, completed, rrLast := [], map[], map[], map[], None;
      quota := new QuotaEnforcer();
      cost := new CostMeter();
      used, finished := {}, [];
      new;
      assert cost.Log() == [];
      assert forall a :: OpenOf(public, a) == {};
    }

    /** Turn quotas on, off or over to other tiers: what is queued, held and counted stays. */
    method SetQuotaConfig(config: Option<Config>)
      requires Valid()
      modifies quota`config
      ensures Valid() && quota.config == config
    {
      hide Counted, Metered, Queued, Known, CostMeter.Valid, CostMeter.Log;
      quota.SetConfig(config);
    }

    /** Queue a task that nobody pays for. */
    method SubmitTask(t: Task)
      requires Valid() && t.id !in used
      modifies this`pending, this`used
      ensures Valid() && pending == old(pending) + [t] && used == old(used) + {t.id}
    {
      hide Counted, Metered;
      QueueMore(pending, taken, t);
      pending, used := pending + [t], used + {t.id};
    }

    /** Queue a paid task, open it for its submitter and count it in flight. */
    method SubmitPublicTask(submitter: Address, t: Task, maxFee: nat, now: nat)
      requires Valid() && t.id !in used && |public| < U64_MAX
      modifies this`pending, this`public, this`used, quota
      ensures Valid() && quota.config == old(quota.config)
      ensures pending == old(pending) + [t] && used == old(used) + {t.id}
      ensures public == old(public)[t.id := PublicTask(t, submitter, maxFee, Pending)]
    {
      hide Counted, Metered, Queued, NewState;
      ghost var before := quota.tenants;
      quota.TaskStarted(submitter, now);
      StartCounts(before, quota.tenants, submitter, quota.TierFor(submitter), now);
      var p := PublicTask(t, submitter, maxFee, Pending);
      CountStart(before, quota.tenants, public, t.id, p);
      QueueMore(pending, taken, t);
      OpenNew(finished, cost.Log(), public, t.id, p);
      public := public[t.id := p];
      pending, used := pending + [t], used + {t.id};
    }

    /** Submit with admission: a rejected submission leaves queue and books as they were. */
    method TrySubmitPublicTask(submitter: Address, t: Task, maxFee: nat, now: nat) returns (v: Verdict)
      requires Valid() && t.id !in used && |public| < U64_MAX
      modifies this`pending, this`public, this`used, quota
      ensures Valid() && quota.config == old(quota.config)
      ensures quota.config.None? ==> v.Admitted?
      ensures quota.config.Some? ==>
                v == Admit(quota.config.value, quota.TierFor(submitter), old(quota.StateOf(submitter)), t.flops,
                           old(|pending|), now).1
      ensures v.Admitted? ==> pending == old(pending) + [t]
                              && public == old(public)[t.id := PublicTask(t, submitter, maxFee, Pending)]
      ensures !v.Admitted? ==> pending == old(pending) && public == old(public)
      ensures v.Admitted? && quota.config.Some? && quota.TierFor(submitter).maxInflight > 0 ==>
                |OpenOf(public, submitter)| <= quota.TierFor(submitter).maxInflight
    {
      hide Counted, Metered, Queued, Admit;
      ghost var before := quota.tenants;
      ghost var state := quota.StateOf(submitter);
      v := quota.AdmitTask(submitter, t.flops, |pending|, now);
      if quota.config.Some? {
        AdmitKeepsInFlight(quota.config.value, quota.TierFor(submitter), state, t.flops, |pending|, now);
        AdmittedHasRoom(quota.config.value, quota.TierFor(submitter), state, t.flops, |pending|, now);
      }
      OpenIsInFlight(before, public, submitter);
      forall a ensures InFlightOf(quota.tenants, a) == InFlightOf(before, a) {
        assert a == submitter || quota.StateOf(a) == old(quota.StateOf(a));
      }
      SameCounts(before, quota.tenants, public);
      if v.Admitted? {
        NotOpenYet(used, pending, taken, public, finished, t.id);
        OpenMore(public, t.id, PublicTask(t, submitter, maxFee, Pending), submitter);
        SubmitPublicTask(submitter, t, maxFee, now);
      }
    }

    /** Hand the fair choice among the matching tasks to a miner, if there is one. */
    method FetchTaskFor(tier: GpuTier, memory: nat, miner: Address, now: nat)
      returns (r: Option<Task>, ghost cs: seq<Candidate>, ghost best: Candidate)
      requires Valid()
      modifies this`pending, this`public, this`taken, this`rrLast
      ensures Valid() && Collects(cs, old(pending), old(public), quota.config, tier, memory)
      ensures r.None? <==> cs == []
      ensures r.None? ==> unchanged(this)
      ensures r.Some? ==>
                && Fair(best, cs, old(rrLast))
                && IsCandidate(best, old(pending), old(public), quota.config, tier, memory)
                && r.value == old(pending)[best.index] && rrLast == Some(best.tenant)
                && Power(r.value.minTier) <= Power(tier) && r.value.minMemory <= memory
                && NoneBefore(old(pending), old(public), quota.config, tier, memory, best.index)
                && pending == old(pending)[..best.index] + old(pending)[best.index + 1..]
                && taken == old(taken)[r.value.id := Assignment(r.value, miner, now)]
                && public == WithStatus(old(public), r.value.id, Assigned)
    {
      hide Counted, Metered, Queued, Fair, Tenant, Fee, Priority, Matches;
      var found := Collect(pending, public, quota.config, tier, memory);
      cs := found;
      if found == [] {
        r, best := None, Candidate(0, 0, 0, 0);
        return;
      }
      TenantDecidesPriority(found, pending, public, quota.config, tier, memory);
      var chosen := Select(found, rrLast);
      FairIsCandidate(chosen, found, rrLast);
      best := chosen;
      FairIsFirst(chosen, found, rrLast, pending, public, quota.config, tier, memory);
      rrLast := Some(chosen.tenant);
      var t := pending[chosen.index];
      MatchesIff(t, tier, memory);
      QueueTake(pending, taken, chosen.index, Assignment(t, miner, now));
      StatusKeeps(quota.tenants, public, finished, cost.Log(), t.id, Assigned);
      assert t in pending;
      pending := pending[..chosen.index] + pending[chosen.index + 1..];
      taken := taken[t.id := Assignment(t, miner, now)];
      public := WithStatus(public, t.id, Assigned);
      r := Some(t);
    }

    /** Close an open task: it leaves the tenant's in-flight count and is charged once to its submitter
        and to the miner. */
    method CompletePublicTask(id: Hash, miner: Address, now: nat) returns (ok: bool)
      requires Valid()
      modifies this`public, this`taken, this`completed, this`finished, quota, cost
      ensures Valid() && ok == (id in old(public)) && taken == old(taken) - {id}
      ensures ok ==> public == old(public) - {id} && finished == old(finished) + [Completion(old(public)[id], miner)]
      ensures ok ==> completed == old(completed)[id := (old(public)[id].(status := Completed(miner)),
                                                        now + COMPLETED_RETENTION_MS)]
      ensures !ok ==> public == old(public) && finished == old(finished) && completed == old(completed)
    {
      hide Counted, Metered, Queued, Charges, CostMeter.Valid, CostMeter.Log, Finished;
      QueueDrop(pending, taken, id);
      taken := taken - {id};
      if id !in public {
        return false;
      }
      var p := public[id];
      ghost var before := quota.tenants;
      OpenTaskIsItself(before, public, id);
      quota.TaskFinished(p.submitter);
      FinishCounts(before, quota.tenants, p.submitter, quota);
      CountFinish(before, quota.tenants, public, id);
      MeterMore(finished, cost.Log(), public, id, miner);
      cost.Record(p.submitter, miner, p.task.flops, p.maxFee);
      public := public - {id};
      finished := finished + [Completion(p, miner)];
      completed := completed[id := (p.(status := Completed(miner)), now + COMPLETED_RETENTION_MS)];
      ok := true;
    }

    /** Take one assignment back: queue its task again unless its deadline has passed. */
    method TakeBack(id: Hash, now: nat) returns (again: seq<Task>)
      requires Valid() && id in taken
      modifies this`pending, this`public, this`taken
      ensures Valid() && taken == old(taken) - {id} && pending == old(pending) + again
      ensures again == if old(taken)[id].task.deadline > now then [old(taken)[id].task] else []
      ensures public == if again != [] && id in old(public) && old(public)[id].status.Assigned?
                        then WithStatus(old(public), id, Pending) else old(public)
    {
      hide Counted, Metered, Queued, CostMeter.Valid, CostMeter.Log;
      var t := taken[id].task;
      TakenIsNotQueued(pending, taken, id);
      QueueDrop(pending, taken, id);
      taken := taken - {id};
      again := [];
      if t.deadline > now {
        if id in public && public[id].status.Assigned? {
          StatusKeeps(quota.tenants, public, finished, cost.Log(), id, Pending);
          public := WithStatus(public, id, Pending);
        }
        QueueMore(pending, taken, t);
        pending := pending + [t];
        again := [t];
      }
    }

    /** Queue again every task whose assignment timed out before its deadline; forget the others. */
    method ReassignStaleTasks(now: nat) returns (requeued: seq<Task>)
      requires Valid()
      modifies this`pending, this`public, this`taken
      ensures Valid() && pending == old(pending) + requeued
      ensures TookBack(old(taken), old(public), {}, now, taken, public, requeued)
      ensures forall id | id in old(taken) :: id in taken <==> now <= old(taken)[id].assignedAt + 30_000
    {
      hide TookBack, Stale, Counted, Metered, Queued, Known, WithStatus, CostMeter.Valid, CostMeter.Log;
      requeued := [];
      var stale := StaleIn(taken, now);
      NothingTakenBack(taken, public, now);
      while stale != {}
        invariant Valid() && pending == old(pending) + requeued
        invariant TookBack(old(taken), old(public), stale, now, taken, public, requeued)
        decreases stale
      {
        var id :| id in stale;
        StaleIsTaken(old(taken), old(public), stale, now, taken, public, requeued, id);
        ghost var t, p := taken, public;
        var again := TakeBack(id, now);
        OneTakenBack(old(taken), old(public), stale, now, t, p, requeued, id, again);
        requeued := requeued + again;
        stale := stale - {id};
      }
      TakenBackInTime(old(taken), old(public), now, taken, public, requeued);
    }

    /** Drop queued tasks whose deadline has come. */
    method PruneExpired(now: nat)
      requires Valid()
      modifies this`pending
      ensures Valid() && pending == Live(old(pending), now)
      ensures forall t :: t in pending <==> t in old(pending) && now < t.deadline
    {
      hide Counted, Metered, Queued, CostMeter.Valid, CostMeter.Log;
      var kept: seq<Task> := [];
      for i := 0 to |pending|
        invariant kept == Live(pending[..i], now)
      {
        assert pending[..i + 1][..i] == pending[..i];
        if pending[i].deadline > now {
          kept := kept + [pending[i]];
        }
      }
      assert pending[..|pending|] == pending;
      LiveIsQueued(pending, taken, now);
      LiveAre(pending, now);
      pending := kept;
    }

    /** Close one overdue task without charging anybody. */
    method Expire(id: Hash, now: nat) returns (p: PublicTask)
      requires Valid() && id in public
      modifies this`public, this`taken, this`completed, quota
      ensures Valid() && public == old(public) - {id} && taken == old(taken) - {id}
      ensures p == old(public)[id].(status := Expired)
      ensures completed == old(completed)[id := (p, now + COMPLETED_RETENTION_MS)]
    {
      hide Counted, Metered, Queued, CostMeter.Valid, CostMeter.Log, Finished;
      p := public[id];
      ghost var before := quota.tenants;
      QueueDrop(pending, taken, id);
      CloseUnmetered(finished, cost.Log(), public, id);
      quota.TaskFinished(p.submitter);
      FinishCounts(before, quota.tenants, p.submitter, quota);
      CountFinish(before, quota.tenants, public, id);
      public, taken := public - {id}, taken - {id};
      p := p.(status := Expired);
      completed := completed[id := (p, now + COMPLETED_RETENTION_MS)];
    }

    /** Close every open task past its deadline and return them all for refund. */
    method PruneExpiredPublic(now: nat) returns (expired: seq<PublicTask>)
      requires Valid()
      modifies this`public, this`taken, this`completed, quota
      ensures Valid() && finished == old(finished)
      ensures public == old(public) - Overdue(old(public), now) && taken == old(taken) - Overdue(old(public), now)
      ensures forall id | id in old(public) :: id in public <==> now <= old(public)[id].task.deadline
      ensures |expired| == |Overdue(old(public), now)|
      ensures forall p :: p in expired <==>
                exists id :: id in Overdue(old(public), now) && p == old(public)[id].(status := Expired)
    {
      hide Counted, Metered, Queued, Known, CostMeter.Valid, CostMeter.Log, Closed;
      expired := [];
      var rest := Overdue(public, now);
      ghost var all := rest;
      NothingClosed(public, taken, all);
      while rest != {}
        invariant Valid() && rest <= all && all == Overdue(old(public), now)
        invariant Closed(old(public), old(taken), all, rest, public, taken, expired)
        decreases rest
      {
        var id :| id in rest;
        IsStillOpen(old(public), old(taken), all, rest, public, taken, expired, id);
        ghost var p0, t0 := public, taken;
        var p := Expire(id, now);
        OneClosed(old(public), old(taken), all, rest, p0, t0, expired, id);
        expired := expired + [p];
        rest := rest - {id};
      }
      AllClosed(old(public), old(taken), all, public, taken, expired);
    }

    /** Report the costs of the interval; the books do not change. */
    method GenerateCostReport(now: nat) returns (report: Report)
      requires Valid()
      modifies cost
      ensures Valid() && cost.Log() == old(cost.Log())
      ensures cost.reported == old(cost.reported) + [old(cost.current)]
      ensures report.intervalTotal == Cost(old(cost.current)) && report.cumulativeTotal == Cost(Charges(finished))
    {
      hide Counted, Queued, Charges, CostMeter.Valid;
      report := cost.GenerateReport(now);
    }
  }

  const COMPLETED_RETENTION_MS := 3_600_000
  const ASSIGNMENT_TIMEOUT_MS := 30_000

  function Live(pending: seq<Task>, now: nat): seq<Task> {
    if pending == [] then [] else
      var front, last := pending[..|pending| - 1], pending[|pending| - 1];
      if last.deadline > now then Live(front, now) + [last] else Live(front, now)
  }

  lemma {:induction false} LiveAre(pending: seq<Task>, now: nat)
    ensures forall t :: t in Live(pending, now) <==> t in pending && now < t.deadline
  {
    if pending != [] {
      LiveAre(pending[..|pending| - 1], now);
    }
  }

  /** What stays in the queue stays once, in order, and is exactly what is not overdue. */
  lemma {:induction false} LiveIsQueued(pending: seq<Task>, taken: Assignments, now: nat)
    requires Queued(pending, taken)
    ensures Queued(Live(pending, now), taken)
    ensures forall t :: t in Live(pending, now) <==> t in pending && t.deadline > now
  {
    if pending != [] {
      var front, last := pending[..|pending| - 1], pending[|pending| - 1];
      assert pending == front + [last];
      LiveIsQueued(front, taken, now);
      assert last in pending;
      if last.deadline > now {
        forall u | u in Live(front, now) ensures u.id != last.id {
          assert u in front;
        }
        QueueMore(Live(front, now), taken, last);
      }
    }
  }

  function Overdue(public: Public, now: nat): set<Hash> {
    set id | id in public && now > public[id].task.deadline
  }

  /** All of `all` except `rest` have been closed and listed once. */
  ghost predicate Closed(open: Public, before: Assignments, all: set<Hash>, rest: set<Hash>,
                         public: Public, taken: Assignments, expired: seq<PublicTask>) {
    && all <= open.Keys && rest <= all
    && public == open - (all - rest) && taken == before - (all - rest)
    && |expired| + |rest| == |all|
    && (forall p :: p in expired <==> exists id :: id in all - rest && p == open[id].(status := Expired))
  }

  lemma NothingClosed(open: Public, before: Assignments, all: set<Hash>)
    requires all <= open.Keys
    ensures Closed(open, before, all, all, open, before, [])
  {
    assert all - all == {} && open - {} == open && before - {} == before;
  }

  lemma IsStillOpen(open: Public, before: Assignments, all: set<Hash>, rest: set<Hash>,
                    public: Public, taken: Assignments, expired: seq<PublicTask>, id: Hash)
    requires Closed(open, before, all, rest, public, taken, expired) && id in rest
    ensures id in public && public[id] == open[id]
  {
  }

  lemma OneClosed(open: Public, before: Assignments, all: set<Hash>, rest: set<Hash>,
                  public: Public, taken: Assignments, expired: seq<PublicTask>, id: Hash)
    requires Closed(open, before, all, rest, public, taken, expired) && id in rest
    ensures Closed(open, before, all, rest - {id}, public - {id}, taken - {id},
                   expired + [open[id].(status := Expired)])
  {
    assert all - (rest - {id}) == (all - rest) + {id};
    assert public - {id} == open - ((all - rest) + {id});
    assert taken - {id} == before - ((all - rest) + {id});
  }

  lemma AllClosed(open: Public, before: Assignments, all: set<Hash>,
                  public: Public, taken: Assignments, expired: seq<PublicTask>)
    requires Closed(open, before, all, {}, public, taken, expired)
    ensures public == open - all && taken == before - all && |expired| == |all|
    ensures forall p :: p in expired <==> exists id :: id in all && p == open[id].(status := Expired)
  {
    assert all - {} == all;
  }

  lemma CloseUnmetered(finished: seq<Completion>, log: seq<Charge>, public: Public, id: Hash)
    requires Metered(finished, log, public)
    ensures Metered(finished, log, public - {id})
  {
  }

  /** In every reachable pool state, tenant totals and miner totals each add up to the cost of exactly the
      completed tasks, and so do the report intervals. */
  lemma BooksAreComplete(finished: seq<Completion>, log: seq<Charge>, public: Public, reported: seq<seq<Charge>>,
                         current: seq<Charge>)
    requires Metered(finished, log, public) && log == Joined(reported) + current && Fits(log)
    ensures MapSum(Table(log, TenantOf()), FlopsIn()) == MapSum(Table(log, MinerOf()), FlopsIn())
         == Cost(Charges(finished)).flops
    ensures MapSum(Table(log, TenantOf()), FeesIn()) == MapSum(Table(log, MinerOf()), FeesIn())
         == Cost(Charges(finished)).fees
    ensures MapSum(Table(log, TenantOf()), TasksIn()) == MapSum(Table(log, MinerOf()), TasksIn()) == |finished|
    ensures Sum(reported + [current], FlopsOf()) == Cost(Charges(finished)).flops
    ensures Sum(reported + [current], FeesOf()) == Cost(Charges(finished)).fees
    ensures Sum(reported + [current], TasksOf()) == |finished|
  {
    hide MapSum, Sum, Table;
    BooksBalance(log, TenantOf());
    BooksBalance(log, MinerOf());
    JoinedSnoc(reported, current);
    assert Joined(reported + [current]) + [] == Joined(reported + [current]);
    IntervalsAddUp(reported + [current]);
  }

  predicate Stale(a: Assignment, now: nat) {
    Minus(now, a.assignedAt) > ASSIGNMENT_TIMEOUT_MS
  }

  /** An assigned task that is queued again is pending again. */
  function Reopened(p: PublicTask, taken: Assignments, id: Hash, now: nat): PublicTask {
    if id in taken && Stale(taken[id], now) && taken[id].task.deadline > now && p.status.Assigned?
    then p.(status := Pending) else p
  }

  function StaleIn(taken: Assignments, now: nat): set<Hash> {
    set id | id in taken && Stale(taken[id], now)
  }

  /** All stale assignments except `left` have been taken back: they are no longer assigned, exactly their
      tasks before their deadline were queued again, and those that were assigned are pending again. */
  ghost predicate TookBack(before: Assignments, open: Public, left: set<Hash>, now: nat,
                           taken: Assignments, public: Public, requeued: seq<Task>) {
    && left <= StaleIn(before, now)
    && taken == before - (StaleIn(before, now) - left)
    && (forall t :: t in requeued <==>
          t.deadline > now && exists id :: id in StaleIn(before, now) - left && before[id].task == t)
    && public.Keys == open.Keys
    && (forall id | id in open :: public[id] == if id in left then open[id] else Reopened(open[id], before, id, now))
  }

  /** An assignment lasts thirty seconds. */
  lemma TakenBackInTime(before: Assignments, open: Public, now: nat, taken: Assignments, public: Public,
                        requeued: seq<Task>)
    requires TookBack(before, open, {}, now, taken, public, requeued)
    ensures forall id | id in before :: id in taken <==> now <= before[id].assignedAt + 30_000
  {
  }

  lemma NothingTakenBack(taken: Assignments, public: Public, now: nat)
    ensures TookBack(taken, public, StaleIn(taken, now), now, taken, public, [])
  {
    hide Stale;
    assert taken - {} == taken;
  }

  lemma StaleIsTaken(before: Assignments, open: Public, left: set<Hash>, now: nat,
                     taken: Assignments, public: Public, requeued: seq<Task>, id: Hash)
    requires TookBack(before, open, left, now, taken, public, requeued) && id in left
    ensures id in taken
  {
  }

  lemma OneTakenBack(before: Assignments, open: Public, left: set<Hash>, now: nat,
                     taken: Assignments, public: Public, requeued: seq<Task>, id: Hash, again: seq<Task>)
    requires TookBack(before, open, left, now, taken, public, requeued) && id in left && id in taken
    requires again == if taken[id].task.deadline > now then [taken[id].task] else []
    ensures TookBack(before, open, left - {id}, now, taken - {id},
                     if again != [] && id in public && public[id].status.Assigned?
                     then WithStatus(public, id, Pending) else public,
                     requeued + again)
  {
    hide Stale;
    var done := StaleIn(before, now) - left;
    assert StaleIn(before, now) - (left - {id}) == done + {id};
    assert taken - {id} == before - (done + {id});
    forall t
      ensures t in requeued + again <==> t.deadline > now && exists x :: x in done + {id} && before[x].task == t
    {
      if t in again {
        assert before[id].task == t;
      }
    }
  }

  lemma TakenIsNotQueued(pending: seq<Task>, taken: Assignments, id: Hash)
    requires Queued(pending, taken) && id in taken
    ensures taken[id].task.id == id && forall t | t in pending :: t.id != id
  {
  }

  function WithStatus(public: Public, id: Hash, status: Status): Public {
    if id in public then public[id := public[id].(status := status)] else public
  }

  lemma StatusKeeps(tenants: map<Address, State>, public: Public, finished: seq<Completion>, log: seq<Charge>,
                    id: Hash, status: Status)
    requires Counted(tenants, public) && Metered(finished, log, public) && (status.Pending? || status.Assigned?)
    ensures Counted(tenants, WithStatus(public, id, status)) && Metered(finished, log, WithStatus(public, id, status))
    ensures WithStatus(public, id, status).Keys == public.Keys
  {
    if id in public {
      CountStatus(tenants, public, id, status);
    }
  }

  lemma FairIsCandidate(best: Candidate, cs: seq<Candidate>, last: Option<Address>)
    requires Fair(best, cs, last)
    ensures best in cs
  {
  }

  lemma OpenTaskIsItself(tenants: map<Address, State>, public: Public, id: Hash)
    requires Counted(tenants, public) && id in public
    ensures public[id].task.id == id
  {
  }

  lemma FinishCounts(before: map<Address, State>, after: map<Address, State>, submitter: Address, quota: QuotaEnforcer)
    requires after == quota.tenants
    requires quota.StateOf(submitter) == Finished(StateIn(before, submitter))
    requires forall a | a != submitter :: quota.StateOf(a) == StateIn(before, a)
    ensures forall a :: InFlightOf(after, a)
                     == if a == submitter then Minus(InFlightOf(before, a), 1) else InFlightOf(before, a)
  {
    forall a
      ensures InFlightOf(after, a) == if a == submitter then Minus(InFlightOf(before, a), 1) else InFlightOf(before, a)
    {
      assert quota.StateOf(a) == StateIn(after, a);
    }
  }

  function StateIn(tenants: map<Address, State>, a: Address): Option<State> {
    if a in tenants then Some(tenants[a]) else None
  }

  lemma StartCounts(before: map<Address, State>, after: map<Address, State>, submitter: Address, q: Tier, now: nat)
    requires after == before[submitter := Started(q, StateIn(before, submitter), now)]
    ensures forall a :: InFlightOf(after, a)
                     == if a == submitter then Cap64(InFlightOf(before, a) + 1) else InFlightOf(before, a)
  {
    hide Tier.Capacity;
  }

  lemma SameCounts(before: map<Address, State>, after: map<Address, State>, public: Public)
    requires Counted(before, public) && forall a :: InFlightOf(after, a) == InFlightOf(before, a)
    ensures Counted(after, public)
  {
  }

  lemma OpenNew(finished: seq<Completion>, log: seq<Charge>, public: Public, id: Hash, p: PublicTask)
    requires Metered(finished, log, public) && forall f | f in finished :: f.task.task.id != id
    ensures Metered(finished, log, public[id := p])
  {
  }
}
