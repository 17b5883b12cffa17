/** Training jobs: validation of their specifications, selection of workers, and epochs in order. */
module Training {
  import opened Common
  import opened Rotation
  import opened Sorting
  import opened Sums

  const MAX_RANGE_PARTITION_LEN := 4096
  const MAX_DATA_SHARDS := 65536
  const MAX_JOBS := 1024
  const PARAM_COUNT_MAX: nat := 1_000_000_000_000

  datatype Backend = Cpu | Cuda | Metal

  datatype Range = Range(start: nat, end: nat)

  datatype Spec = Spec(job: Hash, paramCount: nat, epochs: nat, stepsPerEpoch: nat, tokensPerStep: nat,
                       perStepReward: nat, backend: Backend, minTier: GpuTier, minMemory: nat,
                       shards: nat, uploaded: bool, partition: seq<Range>)

  /** `minUpdates` is the aggregation rule's minimum number of workers. */
  datatype PsConfig = PsConfig(slashMultiple: nat, minUpdates: nat, maxWorkers: nat)

  // ---------- The range partition ----------

  function EndBefore(partition: seq<Range>, i: nat): nat
    requires i <= |partition|
  {
    if i == 0 then 0 else partition[i - 1].end
  }

  /** The first `n` ranges are non-empty and contiguous from 0. */
  predicate TilesUpTo(partition: seq<Range>, n: nat)
    requires n <= |partition|
  {
    n == 0
    || (TilesUpTo(partition, n - 1) && EndBefore(partition, n - 1) == partition[n - 1].start < partition[n - 1].end)
  }

  /** Sorted, non-empty, contiguous ranges from 0 to `total`. */
  predicate Tiles(partition: seq<Range>, total: nat) {
    partition != [] && TilesUpTo(partition, |partition|) && EndBefore(partition, |partition|) == total
  }

  lemma {:induction false} PrefixTiles(partition: seq<Range>, n: nat, m: nat)
    requires m <= n <= |partition| && TilesUpTo(partition, n)
    ensures TilesUpTo(partition, m)
  {
    if m < n {
      PrefixTiles(partition, n - 1, m);
    }
  }

  method ChecksTiling(partition: seq<Range>, total: nat) returns (ok: bool)
    ensures ok <==> Tiles(partition, total)
  {
    ok := false;
    if partition == [] {
      return;
    }
    if partition[0].start != 0 {
      if TilesUpTo(partition, |partition|) {
        PrefixTiles(partition, |partition|, 1);
      }
      return;
    }
    var prevEnd := 0;
    for i := 0 to |partition|
      invariant prevEnd == EndBefore(partition, i) && TilesUpTo(partition, i)
    {
      if partition[i].start >= partition[i].end || partition[i].start != prevEnd {
        if TilesUpTo(partition, |partition|) {
          PrefixTiles(partition, |partition|, i + 1);
        }
        return;
      }
      prevEnd := partition[i].end;
    }
    ok := prevEnd == total;
  }

  /** Ranges of a tiling are ordered and disjoint. */
  lemma {:induction false} RangesAscend(partition: seq<Range>, n: nat, i: nat, j: nat)
    requires n <= |partition| && TilesUpTo(partition, n) && i < j < n
    ensures partition[i].end <= partition[j].start
    decreases n
  {
    if j < n - 1 {
      RangesAscend(partition, n - 1, i, j);
    } else if i < j - 1 {
      RangesAscend(partition, n - 1, i, j - 1);
    }
  }

  /** Every parameter belongs to exactly one range. */
  lemma EachParameterOnce(partition: seq<Range>, total: nat, x: nat) returns (i: nat)
    requires Tiles(partition, total) && x < total
    ensures i < |partition| && partition[i].start <= x < partition[i].end
    ensures forall j | 0 <= j < |partition| && partition[j].start <= x < partition[j].end :: j == i
  {
    i := Find(partition, x, |partition|);
    forall j | 0 <= j < |partition| && partition[j].start <= x < partition[j].end ensures j == i {
      if j < i {
        RangesAscend(partition, |partition|, j, i);
      } else if i < j {
        RangesAscend(partition, |partition|, i, j);
      }
    }
  }

  lemma {:induction false} Find(partition: seq<Range>, x: nat, n: nat) returns (i: nat)
    requires n <= |partition| && TilesUpTo(partition, n) && x < EndBefore(partition, n)
    ensures i < n && partition[i].start <= x < partition[i].end
    decreases n
  {
    if partition[n - 1].start <= x {
      i := n - 1;
    } else {
      i := Find(partition, x, n - 1);
    }
  }

  // ---------- Specifications ----------

  /** The stake that covers the slash of every step of an epoch, saturating at 128 bits. */
  function StakeFloor(spec: Spec, cfg: PsConfig): nat {
    Cap128(Cap128(cfg.slashMultiple * spec.perStepReward) * spec.stepsPerEpoch)
  }

  predicate FloorFits(spec: Spec, cfg: PsConfig) {
    && cfg.slashMultiple * spec.perStepReward <= U128_MAX
    && cfg.slashMultiple * spec.perStepReward * spec.stepsPerEpoch <= U128_MAX
  }

  predicate ValidSpec(spec: Spec, cfg: PsConfig) {
    && 0 < spec.paramCount <= PARAM_COUNT_MAX
    && spec.paramCount * 4 / (1024 * 1024) <= spec.minMemory
    && spec.epochs > 0 && spec.stepsPerEpoch > 0 && spec.tokensPerStep > 0 && spec.perStepReward > 0
    && spec.backend == Cpu
    && cfg.minUpdates <= spec.shards <= MAX_DATA_SHARDS && spec.uploaded
    && |spec.partition| <= MAX_RANGE_PARTITION_LEN && Tiles(spec.partition, spec.paramCount)
    && FloorFits(spec, cfg)
  }

  method Validate(spec: Spec, cfg: PsConfig) returns (ok: bool)
    ensures ok <==> ValidSpec(spec, cfg)
  {
    hide Tiles, FloorFits;
    if spec.paramCount == 0 || spec.paramCount > PARAM_COUNT_MAX {
      return false;
    }
    if spec.minMemory < spec.paramCount * 4 / (1024 * 1024) {
      return false;
    }
    if spec.epochs == 0 || spec.stepsPerEpoch == 0 || spec.tokensPerStep == 0 || spec.perStepReward == 0 {
      return false;
    }
    if spec.backend != Cpu || spec.shards > MAX_DATA_SHARDS || !spec.uploaded || spec.shards < cfg.minUpdates {
      return false;
    }
    if |spec.partition| > MAX_RANGE_PARTITION_LEN {
      return false;
    }
    var tiled := ChecksTiling(spec.partition, spec.paramCount);
    ok := tiled && FloorFits(spec, cfg);
  }

  /** For a validated specification the floor is the exact product. */
  lemma FloorIsExact(spec: Spec, cfg: PsConfig)
    requires ValidSpec(spec, cfg)
    ensures StakeFloor(spec, cfg) == cfg.slashMultiple * spec.perStepReward * spec.stepsPerEpoch
  {
    hide Tiles;
  }

  // ---------- Miners ----------

  datatype Miner = Miner(address: Address, backend: Backend, tier: GpuTier, memory: nat, lastSeen: nat, stake: nat)

  predicate Active(m: Miner, now: nat) {
    now < m.lastSeen + 60_000
  }

  predicate Eligible(m: Miner, spec: Spec, floor: nat, now: nat) {
    Active(m, now) && m.backend == spec.backend && TierCanRun(m.tier, spec.minTier)
    && m.memory >= spec.minMemory && m.stake >= floor
  }

  ghost predicate OneEach(miners: seq<Miner>) {
    forall i, j | 0 <= i < j < |miners| :: miners[i].address != miners[j].address
  }

  class MinerRegistry {
    var miners: seq<Miner>

    ghost predicate Valid()
      reads this
    {
      OneEach(miners)
    }

    constructor ()
      ensures Valid() && miners == []
    {
      miners := [];
    }

    /** Register a miner or replace what it registered before. */
    method Register(m: Miner)
      requires Valid()
      modifies this
      ensures Valid() && m in miners
      ensures forall x: Miner | x.address != m.address :: x in miners <==> x in old(miners)
      ensures forall x | x in miners && x.address == m.address :: x == m
    {
      for i := 0 to |miners|
        invariant miners == old(miners) && forall k | 0 <= k < i :: miners[k].address != m.address
      {
        if miners[i].address == m.address {
          miners := miners[i := m];
          assert miners[i] in miners;
          forall x: Miner | x.address != m.address ensures x in miners <==> x in old(miners) {
            if x in old(miners) {
              var k :| 0 <= k < |old(miners)| && old(miners)[k] == x;
              assert miners[k] == x;
            }
          }
          return;
        }
      }
      miners := miners + [m];
    }
  }

  // ---------- Worker selection ----------

  function EligibleIn(miners: seq<Miner>, spec: Spec, floor: nat, now: nat): set<Address> {
    set m | m in miners && Eligible(m, spec, floor, now) :: m.address
  }

  /** The smallest eligible addresses, as many as the cap allows, in order. */
  ghost predicate Selects(workers: seq<Address>, eligible: set<Address>, max: nat) {
    && Ascending(workers)
    && (forall w | w in workers :: w in eligible)
    && |workers| <= max
    && (|workers| < max ==> forall a | a in eligible :: a in workers)
    && (forall a, w | a in eligible && a !in workers && w in workers :: w < a)
  }

  method SelectWorkers(miners: seq<Miner>, spec: Spec, floor: nat, now: nat, max: nat) returns (workers: seq<Address>)
    ensures Selects(workers, EligibleIn(miners, spec, floor, now), max)
    ensures |workers| <= max && forall w | w in workers :: exists m | m in miners :: Fits(m, w, spec, floor, now)
    ensures |workers| < max ==> forall m | m in miners && Fits(m, m.address, spec, floor, now) :: m.address in workers
  {
    hide Eligible;
    var eligible: set<Address> := {};
    for i := 0 to |miners|
      invariant eligible == EligibleIn(miners[..i], spec, floor, now)
    {
      assert miners[..i + 1] == miners[..i] + [miners[i]];
      if Eligible(miners[i], spec, floor, now) {
        eligible := eligible + {miners[i].address};
      }
    }
    assert miners[..|miners|] == miners;
    var sorted := InOrder(eligible);
    workers := if |sorted| <= max then sorted else sorted[..max];
    Truncated(sorted, max);
    EligibleFits(miners, spec, floor, now);
  }

  /** What a job asks of a worker: seen within the last minute, of the job's backend, tier and memory, and
      with a stake that covers the floor. */
  ghost predicate Fits(m: Miner, w: Address, spec: Spec, floor: nat, now: nat) {
    && m.address == w && now < m.lastSeen + 60_000 && m.backend == spec.backend
    && (spec.minTier == Hot ==> m.tier == Hot) && (spec.minTier == Warm ==> m.tier != Cold)
    && spec.minMemory <= m.memory && floor <= m.stake
  }

  lemma EligibleFits(miners: seq<Miner>, spec: Spec, floor: nat, now: nat)
    ensures forall w | w in EligibleIn(miners, spec, floor, now) ::
              exists m | m in miners :: Fits(m, w, spec, floor, now)
    ensures forall m | m in miners && Fits(m, m.address, spec, floor, now) ::
              m.address in EligibleIn(miners, spec, floor, now)
  {
    forall w | w in EligibleIn(miners, spec, floor, now)
      ensures exists m | m in miners :: Fits(m, w, spec, floor, now)
    {
      var m :| m in miners && Eligible(m, spec, floor, now) && m.address == w;
      assert Fits(m, w, spec, floor, now);
    }
  }

  /** Whoever fits a validated job has the memory for the model's 32-bit parameters, to the megabyte, and a stake
      that covers the slash of every step of an epoch; at least the needed number of shards is there to serve. */
  lemma WorkersCanServe(m: Miner, w: Address, spec: Spec, cfg: PsConfig, now: nat)
    requires ValidSpec(spec, cfg) && Fits(m, w, spec, StakeFloor(spec, cfg), now)
    ensures m.backend == Cpu && 4 * spec.paramCount < (m.memory + 1) * 0x10_0000
    ensures cfg.slashMultiple * spec.perStepReward * spec.stepsPerEpoch <= m.stake
    ensures cfg.minUpdates <= spec.shards
    ensures 0 < spec.epochs * spec.stepsPerEpoch * spec.tokensPerStep * spec.perStepReward
  {
    hide Tiles, StakeFloor;
    FloorIsExact(spec, cfg);
    ProductPositive(spec.epochs, spec.stepsPerEpoch);
    ProductPositive(spec.epochs * spec.stepsPerEpoch, spec.tokensPerStep);
    ProductPositive(spec.epochs * spec.stepsPerEpoch * spec.tokensPerStep, spec.perStepReward);
  }

  lemma ProductPositive(a: nat, b: nat)
    requires 0 < a && 0 < b
    ensures 0 < a * b
  {
  }

  lemma Truncated(sorted: seq<Address>, max: nat)
    requires Ascending(sorted)
    ensures var workers := if |sorted| <= max then sorted else sorted[..max];
            Selects(workers, Elements(sorted), max)
  {
    var workers := if |sorted| <= max then sorted else sorted[..max];
    forall a, w | a in Elements(sorted) && a !in workers && w in workers ensures w < a {
      var i :| 0 <= i < |sorted| && sorted[i] == a;
      var j :| 0 <= j < |workers| && workers[j] == w;
      assert forall k | 0 <= k < |workers| :: workers[k] == sorted[k];
    }
  }

  /** The selection depends on the eligible set alone. */
  lemma SelectionIsUnique(a: seq<Address>, b: seq<Address>, eligible: set<Address>, max: nat)
    requires Selects(a, eligible, max) && Selects(b, eligible, max)
    ensures a == b
  {
    NoneOutside(a, b, eligible, max);
    NoneOutside(b, a, eligible, max);
    AscendingIsUnique(a, b);
  }

  lemma NoneOutside(a: seq<Address>, b: seq<Address>, eligible: set<Address>, max: nat)
    requires Selects(a, eligible, max) && Selects(b, eligible, max)
    ensures forall x | x in a :: x in b
  {
    forall x | x in a ensures x in b {
      if x !in b {
        // Then `b` is full of smaller eligible addresses, all of which `a` holds besides `x`.
        assert |b| == max;
        forall y | y in b ensures y in a {
          assert y < x;
        }
        MoreElements(a, b, x);
      }
    }
  }

  lemma MoreElements(a: seq<Address>, b: seq<Address>, x: Address)
    requires Ascending(a) && Ascending(b) && x in a && x !in b && forall y | y in b :: y in a
    ensures |a| > |b|
  {
    assert Distinct(a) && Distinct(b);
    DistinctSize(a);
    DistinctSize(b);
    Larger(Elements(a), Elements(b), x);
  }

  lemma Larger(a: set<Address>, b: set<Address>, x: Address)
    requires b <= a && x in a && x !in b
    ensures |a| > |b|
  {
    assert a == b + (a - b) && x in a - b;
  }

  /** Registration order does not matter. */
  lemma SelectionIgnoresOrder(miners: seq<Miner>, others: seq<Miner>, spec: Spec, floor: nat, now: nat, max: nat,
                              a: seq<Address>, b: seq<Address>)
    requires multiset(miners) == multiset(others)
    requires Selects(a, EligibleIn(miners, spec, floor, now), max)
    requires Selects(b, EligibleIn(others, spec, floor, now), max)
    ensures a == b
  {
    hide Eligible, Selects;
    assert forall m :: m in miners <==> m in multiset(miners);
    assert forall m :: m in others <==> m in multiset(others);
    assert EligibleIn(miners, spec, floor, now) == EligibleIn(others, spec, floor, now);
    SelectionIsUnique(a, b, EligibleIn(miners, spec, floor, now), max);
  }

  // ---------- Jobs ----------

  datatype Status = Pending | Running(epoch: nat) | Suspended | Completed | Failed

  datatype Job = Job(spec: Spec, status: Status, nextEpoch: nat)

  datatype Assignment = Assignment(job: Hash, epoch: nat, worker: Address, shards: seq<nat>, seed: nat, assignedAt: nat)

  datatype Error =
    | PoolFull | InvalidSpec | DuplicateJob | JobNotFound | JobNotAssignable | JobExhausted
    | EpochOutOfOrder(expected: nat) | InsufficientWorkers(need: nat, have: nat) | InvalidTransition

  datatype Result<T> = Ok(value: T) | Err(error: Error)

  /** What every job keeps: its epochs were assigned as 0, 1, 2 and so on, once each. */
  ghost predicate InOrderSoFar(job: Job, done: seq<nat>) {
    && done == UpTo(job.nextEpoch) && job.nextEpoch <= job.spec.epochs
    && (job.status.Running? ==> job.nextEpoch == job.status.epoch + 1)
    && (job.status.Completed? ==> job.nextEpoch == job.spec.epochs)
  }

  function UpTo(n: nat): seq<nat> {
    seq(n, i => i)
  }

  /** The assignments of an epoch: one per worker, in worker order, with its shards and seed. */
  ghost predicate Assigns(list: seq<Assignment>, workers: seq<Address>, job: Hash, shards: nat, epoch: nat, now: nat,
                          seed: (Hash, nat, Address) -> nat) {
    && workers != [] && |list| == |workers|
    && forall k | 0 <= k < |workers| ::
         list[k] == Assignment(job, epoch, workers[k], ShardsOf(shards, epoch, |workers|, k),
                               seed(job, epoch, workers[k]), now)
  }

  /** In an assigned epoch every shard is trained by exactly one worker, and loads differ by at most one. */
  lemma EpochIsCovered(list: seq<Assignment>, workers: seq<Address>, job: Hash, shards: nat, epoch: nat, now: nat,
                       seed: (Hash, nat, Address) -> nat)
    requires Assigns(list, workers, job, shards, epoch, now, seed)
    ensures forall i, k | 0 <= i < shards && 0 <= k < |list| ::
              i in list[k].shards <==> k == WorkerOf(i, epoch, |workers|)
    ensures forall j, k | 0 <= j < |list| && 0 <= k < |list| :: |list[j].shards| <= |list[k].shards| + 1
  {
    forall i, k | 0 <= i < shards && 0 <= k < |list|
      ensures i in list[k].shards <==> k == WorkerOf(i, epoch, |workers|)
    {
      ShardHasOneWorker(shards, epoch, |workers|, k, i);
    }
    forall j, k | 0 <= j < |list| && 0 <= k < |list| ensures |list[j].shards| <= |list[k].shards| + 1 {
      LoadsAreBalanced(shards, epoch, |workers|, j, k);
    }
  }

  method Assemble(workers: seq<Address>, job: Hash, shards: nat, epoch: nat, now: nat,
                  seed: (Hash, nat, Address) -> nat)
    returns (list: seq<Assignment>)
    requires workers != []
    ensures Assigns(list, workers, job, shards, epoch, now, seed)
  {
    var n := |workers|;
    var lists := Distribute(shards, epoch, n);
    list := seq(n, k requires 0 <= k < n =>
                  Assignment(job, epoch, workers[k], lists[k], seed(job, epoch, workers[k]), now));
  }

  class TrainingPool {
    var jobs: map<Hash, Job>
    const cfg: PsConfig
    /** The epochs assigned for each job, in the order they were assigned. */
    ghost var history: map<Hash, seq<nat>>

    ghost predicate Valid()
      reads this
    {
      && cfg.minUpdates > 0
      && history.Keys == jobs.Keys
      && forall id | id in jobs :: InOrderSoFar(jobs[id], history[id]) && ValidSpec(jobs[id].spec, cfg)
    }

    constructor (c: PsConfig)
      requires c.minUpdates > 0
      ensures Valid() && jobs == map[] && cfg == c
    {
      jobs, cfg, history := map[], c, map[];
    }

    method Submit(spec: Spec) returns (r: Result<()>)
      requires Valid()
      modifies this
      ensures Valid()
      ensures r == if |old(jobs)| >= MAX_JOBS then Err(PoolFull)
                   else if !ValidSpec(spec, cfg) then Err(InvalidSpec)
                   else if spec.job in old(jobs) then Err(DuplicateJob) else Ok(())
      ensures jobs == if r.Ok? then old(jobs)[spec.job := Job(spec, Pending, 0)] else old(jobs)
    {
      hide ValidSpec;
      if |jobs| >= MAX_JOBS {
        return Err(PoolFull);
      }
      var valid := Validate(spec, cfg);
      if !valid {
        return Err(InvalidSpec);
      }
      if spec.job in jobs {
        return Err(DuplicateJob);
      }
      assert UpTo(0) == [];
      jobs, history := jobs[spec.job := Job(spec, Pending, 0)], history[spec.job := []];
      r := Ok(());
    }

    /** Why an epoch cannot be assigned, apart from a lack of workers. */
    function Refusal(id: Hash, epoch: nat): Result<()>
      reads this
    {
      if id !in jobs then Err(JobNotFound)
      else if jobs[id].status.Completed? || jobs[id].status.Failed? then Err(JobNotAssignable)
      else if jobs[id].nextEpoch >= jobs[id].spec.epochs then Err(JobExhausted)
      else if epoch != jobs[id].nextEpoch then Err(EpochOutOfOrder(jobs[id].nextEpoch))
      else Ok(())
    }

    /** Assign the job's next epoch to the selected workers, or suspend it for lack of them. */
    method AssignEpoch(id: Hash, epoch: nat, registry: MinerRegistry, now: nat, seed: (Hash, nat, Address) -> nat)
      returns (r: Result<seq<Assignment>>, ghost workers: seq<Address>)
      requires Valid()
      modifies this
      ensures Valid() && jobs.Keys == old(jobs).Keys
      ensures forall x | x in jobs && x != id :: jobs[x] == old(jobs)[x] && history[x] == old(history)[x]
      ensures old(Refusal(id, epoch)).Err? ==>
                r == Err(old(Refusal(id, epoch)).error) && jobs == old(jobs) && history == old(history)
      ensures r.Ok? || r.error.InsufficientWorkers?
         <==> && id in old(jobs) && old(jobs)[id].nextEpoch == epoch < old(jobs)[id].spec.epochs
              && !old(jobs)[id].status.Completed? && !old(jobs)[id].status.Failed?
      ensures old(Refusal(id, epoch)).Ok? ==>
                var job := old(jobs)[id];
                && Selects(workers, EligibleIn(registry.miners, job.spec, StakeFloor(job.spec, cfg), now),
                           cfg.maxWorkers)
                && (r.Ok? <==> |workers| >= cfg.minUpdates)
                && (r.Ok? ==> Assigns(r.value, workers, id, job.spec.shards, epoch, now, seed)
                              && jobs[id] == job.(status := Running(epoch), nextEpoch := epoch + 1)
                              && history[id] == old(history)[id] + [epoch])
                && (r.Err? ==> r.error == InsufficientWorkers(cfg.minUpdates, |workers|)
                               && jobs[id] == job.(status := Suspended) && history[id] == old(history)[id])
    {
      hide ValidSpec, Selects, EligibleIn, StakeFloor, Assigns, UpTo;
      workers := [];
      var refusal := Refusal(id, epoch);
      if refusal.Err? {
        r := Err(refusal.error);
        return;
      }
      var job := jobs[id];
      var floor := StakeFloor(job.spec, cfg);
      var chosen := SelectWorkers(registry.miners, job.spec, floor, now, cfg.maxWorkers);
      workers := chosen;
      if |chosen| < cfg.minUpdates {
        jobs := jobs[id := job.(status := Suspended)];
        r := Err(InsufficientWorkers(cfg.minUpdates, |chosen|));
        return;
      }
      var out := Assemble(chosen, id, job.spec.shards, epoch, now, seed);
      OneEpochMore(job, history[id]);
      jobs := jobs[id := job.(status := Running(epoch), nextEpoch := epoch + 1)];
      history := history[id := history[id] + [epoch]];
      r := Ok(out);
    }

    /** Complete a running job, only once all its epochs have been assigned. */
    method CompleteJob(id: Hash) returns (r: Result<()>)
      requires Valid()
      modifies this`jobs
      ensures Valid()
      ensures r.Ok? <==> id in old(jobs) && old(jobs)[id].status.Running?
                         && old(jobs)[id].nextEpoch == old(jobs)[id].spec.epochs
      ensures r.Err? ==> r.error == if id in old(jobs) then InvalidTransition else JobNotFound
      ensures jobs == if r.Ok? then old(jobs)[id := old(jobs)[id].(status := Completed)] else old(jobs)
    {
      hide ValidSpec;
      if id !in jobs {
        return Err(JobNotFound);
      }
      if !jobs[id].status.Running? || jobs[id].nextEpoch != jobs[id].spec.epochs {
        return Err(InvalidTransition);
      }
      jobs := jobs[id := jobs[id].(status := Completed)];
      r := Ok(());
    }

    method FailJob(id: Hash) returns (r: Result<()>)
      requires Valid()
      modifies this`jobs
      ensures Valid()
      ensures r.Ok? <==> id in old(jobs) && !old(jobs)[id].status.Completed? && !old(jobs)[id].status.Failed?
      ensures r.Err? ==> r.error == if id in old(jobs) then InvalidTransition else JobNotFound
      ensures jobs == if r.Ok? then old(jobs)[id := old(jobs)[id].(status := Failed)] else old(jobs)
    {
      hide ValidSpec;
      if id !in jobs {
        return Err(JobNotFound);
      }
      if jobs[id].status.Completed? || jobs[id].status.Failed? {
        return Err(InvalidTransition);
      }
      jobs := jobs[id := jobs[id].(status := Failed)];
      r := Ok(());
    }
  }

  lemma OneEpochMore(job: Job, so: seq<nat>)
    requires InOrderSoFar(job, so) && job.nextEpoch < job.spec.epochs && !job.status.Completed?
    ensures InOrderSoFar(job.(status := Running(job.nextEpoch), nextEpoch := job.nextEpoch + 1), so + [job.nextEpoch])
  {
    assert UpTo(job.nextEpoch + 1) == UpTo(job.nextEpoch) + [job.nextEpoch];
  }
}
