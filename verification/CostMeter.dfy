/** Double-entry metering of completed tasks: by tenant, by miner, and by report interval. */
module CostMeter {
  import opened Common
  import opened Sorting
  import opened Sums

  /** One completed task. */
  datatype Charge = Charge(tenant: Address, miner: Address, flops: nat, fee: nat)

  datatype Entry = Entry(tasks: nat, flops: nat, fees: nat)

  const ZERO: Entry := Entry(0, 0, 0)

  /** FLOPs and fees saturate at 128 bits. */
  function Add(e: Entry, c: Charge): Entry {
    Entry(e.tasks + 1, Cap128(e.flops + c.flops), Cap128(e.fees + c.fee))
  }

  function Flops(): Charge -> nat { (c: Charge) => c.flops }

  function Fees(): Charge -> nat { (c: Charge) => c.fee }

  function TenantOf(): Charge -> Address { (c: Charge) => c.tenant }

  function MinerOf(): Charge -> Address { (c: Charge) => c.miner }

  /** The cost of a list of completed tasks. */
  function Cost(log: seq<Charge>): Entry {
    Entry(|log|, Cap128(Sum(log, Flops())), Cap128(Sum(log, Fees())))
  }

  /** The charges of one party. */
  function Picked(log: seq<Charge>, key: Charge -> Address, a: Address): seq<Charge> {
    if log == [] then [] else
      var front, last := log[..|log| - 1], log[|log| - 1];
      if key(last) == a then Picked(front, key, a) + [last] else Picked(front, key, a)
  }

  function Parties(log: seq<Charge>, key: Charge -> Address): set<Address> {
    set c | c in log :: key(c)
  }

  /** What a per-party table should hold. */
  function Table(log: seq<Charge>, key: Charge -> Address): map<Address, Entry> {
    map a | a in Parties(log, key) :: Cost(Picked(log, key, a))
  }

  function Lookup(table: map<Address, Entry>, a: Address): Entry {
    if a in table then table[a] else ZERO
  }

  lemma CostSnoc(log: seq<Charge>, c: Charge)
    ensures Cost(log + [c]) == Add(Cost(log), c)
  {
    SumSnoc(log, c, Flops());
    SumSnoc(log, c, Fees());
  }

  lemma {:induction false} PickedNone(log: seq<Charge>, key: Charge -> Address, a: Address)
    requires a !in Parties(log, key)
    ensures Picked(log, key, a) == []
  {
    if log != [] {
      var front, last := log[..|log| - 1], log[|log| - 1];
      assert last in log;
      PickedNone(front, key, a);
    }
  }

  /** A lookup in the table is the cost of that party's charges, seen or not. */
  lemma TableIs(log: seq<Charge>, key: Charge -> Address, a: Address)
    ensures Lookup(Table(log, key), a) == Cost(Picked(log, key, a))
  {
    if a !in Parties(log, key) {
      PickedNone(log, key, a);
    }
  }

  lemma PickedSnoc(log: seq<Charge>, c: Charge, key: Charge -> Address, a: Address)
    ensures Picked(log + [c], key, a) == if key(c) == a then Picked(log, key, a) + [c] else Picked(log, key, a)
  {
    assert (log + [c])[..|log|] == log;
  }

  /** Recording one charge in a table. */
  lemma TableSnoc(log: seq<Charge>, c: Charge, key: Charge -> Address)
    ensures Table(log + [c], key) == Table(log, key)[key(c) := Add(Lookup(Table(log, key), key(c)), c)]
  {
    hide Cost, Picked;
    var before, after := Table(log, key), Table(log + [c], key);
    assert Parties(log + [c], key) == Parties(log, key) + {key(c)};
    forall a | a in after ensures after[a] == before[key(c) := Add(Lookup(before, key(c)), c)][a] {
      PickedSnoc(log, c, key, a);
      TableIs(log, key, a);
      if a == key(c) {
        CostSnoc(Picked(log, key, a), c);
      }
    }
  }

  // ---------- The books balance ----------

  function TasksIn(): Entry -> nat { (e: Entry) => e.tasks }

  function FlopsIn(): Entry -> nat { (e: Entry) => e.flops }

  function FeesIn(): Entry -> nat { (e: Entry) => e.fees }

  lemma {:induction false} PickedAtMost(log: seq<Charge>, key: Charge -> Address, a: Address, f: Charge -> nat)
    ensures Sum(Picked(log, key, a), f) <= Sum(log, f)
  {
    if log != [] {
      var front, last := log[..|log| - 1], log[|log| - 1];
      PickedAtMost(front, key, a, f);
      SumSnoc(Picked(front, key, a), last, f);
    }
  }

  /** Nothing saturates. */
  predicate Fits(log: seq<Charge>) {
    Sum(log, Flops()) <= U128_MAX && Sum(log, Fees()) <= U128_MAX
  }

  /** Whether kept by tenant or by miner, the entries add up to the cost of all completed tasks. */
  lemma {:induction false} BooksBalance(log: seq<Charge>, key: Charge -> Address)
    requires Fits(log)
    ensures MapSum(Table(log, key), TasksIn()) == Cost(log).tasks
    ensures MapSum(Table(log, key), FlopsIn()) == Cost(log).flops
    ensures MapSum(Table(log, key), FeesIn()) == Cost(log).fees
  {
    if log == [] {
      assert Table(log, key) == map[];
    } else {
      var front, last := log[..|log| - 1], log[|log| - 1];
      assert log == front + [last];
      SumSnoc(front, last, Flops());
      SumSnoc(front, last, Fees());
      BooksBalance(front, key);
      BalanceStep(front, last, key);
      CostSnoc(front, last);
    }
  }

  lemma BalanceStep(log: seq<Charge>, c: Charge, key: Charge -> Address)
    requires Fits(log) && Fits(log + [c])
    ensures MapSum(Table(log + [c], key), TasksIn()) == MapSum(Table(log, key), TasksIn()) + 1
    ensures MapSum(Table(log + [c], key), FlopsIn()) == MapSum(Table(log, key), FlopsIn()) + c.flops
    ensures MapSum(Table(log + [c], key), FeesIn()) == MapSum(Table(log, key), FeesIn()) + c.fee
  {
    var t, a := Table(log, key), key(c);
    EntryGrows(log, c, key);
    TableSnoc(log, c, key);
    hide MapSum, Table, Cap128;
    var e := Add(Lookup(t, a), c);
    MapSumPut(t, a, e, TasksIn());
    MapSumPut(t, a, e, FlopsIn());
    MapSumPut(t, a, e, FeesIn());
  }

  lemma EntryGrows(log: seq<Charge>, c: Charge, key: Charge -> Address)
    requires Fits(log) && Fits(log + [c])
    ensures var e := Lookup(Table(log, key), key(c));
            Add(e, c) == Entry(e.tasks + 1, e.flops + c.flops, e.fees + c.fee)
  {
    var a := key(c);
    TableIs(log, key, a);
    PickedAtMost(log, key, a, Flops());
    PickedAtMost(log, key, a, Fees());
    SumSnoc(log, c, Flops());
    SumSnoc(log, c, Fees());
  }

  // ---------- Intervals ----------

  function Joined(intervals: seq<seq<Charge>>): seq<Charge> {
    if intervals == [] then [] else Joined(intervals[..|intervals| - 1]) + intervals[|intervals| - 1]
  }

  function TasksOf(): seq<Charge> -> nat { (interval: seq<Charge>) => Cost(interval).tasks }

  function FlopsOf(): seq<Charge> -> nat { (interval: seq<Charge>) => Cost(interval).flops }

  function FeesOf(): seq<Charge> -> nat { (interval: seq<Charge>) => Cost(interval).fees }

  /** The totals of all report intervals add up to the cumulative cost. */
  lemma {:induction false} IntervalsAddUp(intervals: seq<seq<Charge>>)
    requires Fits(Joined(intervals))
    ensures Sum(intervals, TasksOf()) == Cost(Joined(intervals)).tasks
    ensures Sum(intervals, FlopsOf()) == Cost(Joined(intervals)).flops
    ensures Sum(intervals, FeesOf()) == Cost(Joined(intervals)).fees
  {
    if intervals != [] {
      var front, last := intervals[..|intervals| - 1], intervals[|intervals| - 1];
      SumConcat(Joined(front), last, Flops());
      SumConcat(Joined(front), last, Fees());
      IntervalsAddUp(front);
      OneInterval(last);
      OneInterval(Joined(front));
      OneInterval(Joined(intervals));
    }
  }

  lemma OneInterval(interval: seq<Charge>)
    ensures TasksOf()(interval) == |interval|
    ensures Fits(interval) ==> FlopsOf()(interval) == Sum(interval, Flops())
    ensures Fits(interval) ==> FeesOf()(interval) == Sum(interval, Fees())
  {
  }

  lemma JoinedSnoc(intervals: seq<seq<Charge>>, interval: seq<Charge>)
    ensures Joined(intervals + [interval]) + [] == Joined(intervals) + interval
  {
    assert (intervals + [interval])[..|intervals|] == intervals;
  }

  // ---------- The meter ----------

  datatype Line = Line(address: Address, interval: Entry, cumulative: Entry)

  datatype Report = Report(generatedAt: nat, periodStart: nat, tenants: seq<Line>, miners: seq<Line>,
                           intervalTotal: Entry, cumulativeTotal: Entry)

  predicate ByFlopsDescending(a: Line, b: Line) {
    a.interval.flops >= b.interval.flops
  }

  /** One line for every party of the interval, the costliest first. */
  ghost predicate Lists(lines: seq<Line>, interval: map<Address, Entry>, cumulative: map<Address, Entry>) {
    && (forall l :: l in lines <==>
          l.address in interval && l == Line(l.address, interval[l.address], Lookup(cumulative, l.address)))
    && |lines| == |interval|
    && Sorted(lines, ByFlopsDescending)
  }

  method Lines(interval: map<Address, Entry>, cumulative: map<Address, Entry>) returns (lines: seq<Line>)
    ensures Lists(lines, interval, cumulative)
  {
    var rest := interval;
    var out: seq<Line> := [];
    while rest != map[]
      invariant forall a | a in rest :: a in interval && rest[a] == interval[a]
      invariant forall l :: l in out <==>
                  l.address in interval && l.address !in rest
                  && l == Line(l.address, interval[l.address], Lookup(cumulative, l.address))
      invariant |out| + |rest| == |interval|
      decreases |rest|
    {
      var a :| a in rest;
      out := out + [Line(a, rest[a], Lookup(cumulative, a))];
      ghost var less := rest - {a};
      assert rest.Keys == less.Keys + {a} && |rest| == |rest.Keys| && |less| == |less.Keys|;
      rest := rest - {a};
    }
    lines := Sort(out, ByFlopsDescending);
    SortPermutes(out, ByFlopsDescending);
    SortSorts(out, ByFlopsDescending);
    forall l ensures l in lines <==> l in out {
      assert l in multiset(lines) <==> l in multiset(out);
    }
  }

  class CostMeter {
    var intervalTenants: map<Address, Entry>
    var intervalMiners: map<Address, Entry>
    var cumulativeTenants: map<Address, Entry>
    var cumulativeMiners: map<Address, Entry>
    var intervalTotal: Entry
    var cumulativeTotal: Entry
    var periodStart: nat
    /** The charges of every report so far, and those since the last one. */
    ghost var reported: seq<seq<Charge>>
    ghost var current: seq<Charge>

    ghost function Log(): seq<Charge>
      reads this
    {
      Joined(reported) + current
    }

    ghost predicate Valid()
      reads this
    {
      && intervalTenants == Table(current, TenantOf()) && intervalMiners == Table(current, MinerOf())
      && intervalTotal == Cost(current)
      && cumulativeTenants == Table(Log(), TenantOf()) && cumulativeMiners == Table(Log(), MinerOf())
      && cumulativeTotal == Cost(Log())
    }

    constructor ()
      ensures Valid() && reported == [] && current == []
    {
      intervalTenants, intervalMiners, cumulativeTenants, cumulativeMiners := map[], map[], map[], map[];
      intervalTotal, cumulativeTotal, periodStart := ZERO, ZERO, 0;
      reported, current := [], [];
      new;
      assert Log() == [];
      assert Table([], TenantOf()) == map[] && Table([], MinerOf()) == map[];
    }

    method Record(tenant: Address, miner: Address, flops: nat, fee: nat)
      requires Valid()
      modifies this
      ensures Valid() && Log() == old(Log()) + [Charge(tenant, miner, flops, fee)]
      ensures reported == old(reported)
    {
      hide Table, Cost, Add;
      var c := Charge(tenant, miner, flops, fee);
      TableSnoc(current, c, TenantOf());
      TableSnoc(current, c, MinerOf());
      TableSnoc(Log(), c, TenantOf());
      TableSnoc(Log(), c, MinerOf());
      CostSnoc(current, c);
      CostSnoc(Log(), c);
      intervalTenants := intervalTenants[tenant := Add(Lookup(intervalTenants, tenant), c)];
      intervalMiners := intervalMiners[miner := Add(Lookup(intervalMiners, miner), c)];
      cumulativeTenants := cumulativeTenants[tenant := Add(Lookup(cumulativeTenants, tenant), c)];
      cumulativeMiners := cumulativeMiners[miner := Add(Lookup(cumulativeMiners, miner), c)];
      intervalTotal := Add(intervalTotal, c);
      cumulativeTotal := Add(cumulativeTotal, c);
      current := current + [c];
      assert Log() == old(Log()) + [c];
    }

    /** Cumulative totals of one tenant and of one miner: exactly their completed tasks. */
    method TenantTotal(tenant: Address) returns (e: Entry)
      requires Valid()
      ensures e == Cost(Picked(Log(), TenantOf(), tenant))
    {
      TableIs(Log(), TenantOf(), tenant);
      e := Lookup(cumulativeTenants, tenant);
    }

    method MinerTotal(miner: Address) returns (e: Entry)
      requires Valid()
      ensures e == Cost(Picked(Log(), MinerOf(), miner))
    {
      TableIs(Log(), MinerOf(), miner);
      e := Lookup(cumulativeMiners, miner);
    }

    /** Report the interval since the last report and start the next. */
    method GenerateReport(now: nat) returns (report: Report)
      requires Valid()
      modifies this
      ensures Valid() && Log() == old(Log())
      ensures reported == old(reported) + [old(current)] && current == [] && periodStart == now
      ensures report.intervalTotal == Cost(old(current)) && report.cumulativeTotal == Cost(Log())
      ensures report.generatedAt == now && report.periodStart == old(periodStart)
      ensures Lists(report.tenants, Table(old(current), TenantOf()), Table(Log(), TenantOf()))
      ensures Lists(report.miners, Table(old(current), MinerOf()), Table(Log(), MinerOf()))
    {
      hide Lists, Cost, Table, Joined;
      JoinedSnoc(reported, current);
      var tenants := Lines(intervalTenants, cumulativeTenants);
      var miners := Lines(intervalMiners, cumulativeMiners);
      report := Report(now, periodStart, tenants, miners, intervalTotal, cumulativeTotal);
      intervalTenants, intervalMiners, intervalTotal, periodStart := map[], map[], ZERO, now;
      reported, current := reported + [current], [];
      assert Log() == old(Log());
      NoCharges();
    }
  }

  lemma NoCharges()
    ensures Table([], TenantOf()) == map[] && Table([], MinerOf()) == map[] && Cost([]) == ZERO
  {
  }
}
