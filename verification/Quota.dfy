/** Per-tenant admission: pool pressure, a token bucket in exact arithmetic, an in-flight limit and a
    FLOPs budget per window. */
module Quota {
  import opened Common
  import opened Sums

  /** A rate of zero or less disables the token bucket; zero limits are unlimited. */
  datatype Tier = Tier(maxQps: real, burst: Option<nat>, maxInflight: nat, flopsPerWindow: nat, priority: nat)
  {
    predicate Limited() { maxQps > 0.0 }

    function Capacity(): real {
      var c := if burst.Some? then burst.value as real else Ceil(maxQps) as real;
      if c < 1.0 then 1.0 else c
    }

    function ClampedPriority(): nat { if priority < 2 then priority else 2 }
  }

  const DEFAULT_TIER: Tier := Tier(10.0, None, 100, 0, 1)

  datatype Config = Config(windowSecs: nat, maxPending: nat, defaultTier: Tier, tenants: map<Address, Tier>)
  {
    function TierFor(a: Address): Tier { if a in tenants then tenants[a] else defaultTier }

    function WindowMs(): nat { Cap64(windowSecs * 1000) }

    /** Lower priorities are shed at a lower queue length. */
    function ShedThreshold(priority: nat): nat {
      if priority == 0 then maxPending / 2 else if priority == 1 then maxPending * 3 / 4 else maxPending
    }
  }

  function Ceil(x: real): int {
    -((-x).Floor)
  }

  datatype State = State(tokens: real, lastRefill: nat, inFlight: nat, windowStart: nat, flopsUsed: nat)

  function NewState(q: Tier, now: nat): State {
    State(q.Capacity(), now, 0, now, 0)
  }

  /** What the bucket gains in `ms` milliseconds. */
  function Gain(q: Tier, ms: nat): real {
    ms as real / 1000.0 * q.maxQps
  }

  function Smaller(x: real, y: real): real {
    if x < y then x else y
  }

  function Refilled(q: Tier, s: State, now: nat): State {
    if q.Limited()
    then s.(tokens := Smaller(s.tokens + Gain(q, Minus(now, s.lastRefill)), q.Capacity()), lastRefill := now)
    else s
  }

  function Rolled(windowMs: nat, s: State, now: nat): State {
    if windowMs > 0 && Minus(now, s.windowStart) >= windowMs then s.(windowStart := now, flopsUsed := 0) else s
  }

  datatype Verdict =
    | Admitted
    | PoolPressure(retryAfter: nat) | QpsExceeded(retryAfter: nat)
    | InFlightExceeded(retryAfter: nat) | FlopsExceeded(retryAfter: nat)

  /** How long until the bucket holds a whole token. */
  function Hint(q: Tier, tokens: real): nat
    requires q.Limited() && tokens < 1.0
  {
    HintIsPositive(q, tokens);
    Ceil((1.0 - tokens) / q.maxQps * 1000.0)
  }

  lemma HintIsPositive(q: Tier, tokens: real)
    requires q.Limited() && tokens < 1.0
    ensures Ceil((1.0 - tokens) / q.maxQps * 1000.0) >= 0
  {
    assert (1.0 - tokens) / q.maxQps >= 0.0;
  }

  /** The checks on a refilled state, in order. */
  function Decide(q: Tier, windowMs: nat, s: State, flops: nat, now: nat): Verdict {
    if q.Limited() && s.tokens < 1.0 then QpsExceeded(Hint(q, s.tokens))
    else if q.maxInflight > 0 && s.inFlight >= q.maxInflight then InFlightExceeded(1000)
    else if q.flopsPerWindow > 0 && Cap64(s.flopsUsed + flops) > q.flopsPerWindow then
      var left := Minus(s.windowStart + windowMs, now);
      FlopsExceeded(if left > 1 then left else 1)
    else Admitted
  }

  function Ready(cfg: Config, q: Tier, s: Option<State>, now: nat): State {
    Rolled(cfg.WindowMs(), Refilled(q, if s.Some? then s.value else NewState(q, now), now), now)
  }

  function Charged(q: Tier, s: State, flops: nat): State {
    s.(tokens := if q.Limited() then s.tokens - 1.0 else s.tokens, flopsUsed := Cap64(s.flopsUsed + flops))
  }

  /** Admission of one submission: the verdict and the tenant's new state. */
  function Admit(cfg: Config, q: Tier, s: Option<State>, flops: nat, pending: nat, now: nat): (Option<State>, Verdict) {
    if pending >= cfg.ShedThreshold(q.ClampedPriority()) then (s, PoolPressure(1000)) else
      var ready := Ready(cfg, q, s, now);
      var v := Decide(q, cfg.WindowMs(), ready, flops, now);
      (Some(if v.Admitted? then Charged(q, ready, flops) else ready), v)
  }

  function Started(q: Tier, s: Option<State>, now: nat): State {
    var t := if s.Some? then s.value else NewState(q, now);
    t.(inFlight := Cap64(t.inFlight + 1))
  }

  function Finished(s: Option<State>): Option<State> {
    if s.Some? then Some(s.value.(inFlight := Minus(s.value.inFlight, 1))) else None
  }

  /** What the window that holds time `now` has used so far. */
  function UsedAt(windowMs: nat, s: Option<State>, now: nat): nat {
    if s.None? || (windowMs > 0 && s.value.windowStart + windowMs <= now) then 0 else s.value.flopsUsed
  }

  /** How long the queue may be for each priority: half, three quarters or all of the limit. */
  function QueueRoom(cfg: Config, q: Tier): nat {
    if q.priority >= 2 then cfg.maxPending
    else if q.priority == 1 then cfg.maxPending * 3 / 4
    else cfg.maxPending / 2
  }

  /** Who is admitted: exactly those whose priority still has room in the queue, with a whole token if the
      rate is limited, below the limit of tasks in flight if there is one, and within the budget of the window
      if there is one. */
  lemma AdmittedIff(cfg: Config, q: Tier, s: Option<State>, flops: nat, pending: nat, now: nat)
    ensures Admit(cfg, q, s, flops, pending, now).1.Admitted?
       <==> && pending < QueueRoom(cfg, q)
            && (q.maxQps > 0.0 ==> Available(q, s, now) >= 1.0)
            && (q.maxInflight > 0 ==> InFlight(s) < q.maxInflight)
            && (q.flopsPerWindow > 0 ==>
                  Cap64(UsedAt(Cap64(cfg.windowSecs * 1000), s, now) + flops) <= q.flopsPerWindow)
  {
    hide Hint, Tier.Capacity;
    GainAdds(q, 0, 0);
  }

  /** A refusal for want of budget says when the window is over. */
  lemma WindowHintSuffices(cfg: Config, q: Tier, s: Option<State>, flops: nat, pending: nat, now: nat)
    requires cfg.WindowMs() > 0 && Admit(cfg, q, s, flops, pending, now).1.FlopsExceeded?
    ensures var (s', v) := Admit(cfg, q, s, flops, pending, now);
            v.retryAfter >= 1 && UsedAt(cfg.WindowMs(), s', now + v.retryAfter) == 0
  {
    hide Hint, Tier.Capacity, Gain, Smaller, Cap64, Config.ShedThreshold;
  }

  // ---------- The token bucket ----------

  /** The tokens a submission at time `t` would find. */
  function Available(q: Tier, s: Option<State>, t: nat): real {
    if s.None? then q.Capacity() else Smaller(s.value.tokens + Gain(q, Minus(t, s.value.lastRefill)), q.Capacity())
  }

  predicate Sound(q: Tier, s: Option<State>, now: nat) {
    s.Some? ==> 0.0 <= s.value.tokens <= q.Capacity() && s.value.lastRefill <= now && s.value.windowStart <= now
  }

  lemma GainAdds(q: Tier, a: nat, b: nat)
    ensures Gain(q, a + b) == Gain(q, a) + Gain(q, b)
    ensures q.Limited() ==> Gain(q, a) >= 0.0
  {
    assert (a + b) as real == a as real + b as real;
    var x, y := a as real / 1000.0, b as real / 1000.0;
    assert (x + y) * q.maxQps == x * q.maxQps + y * q.maxQps;
    assert (a + b) as real / 1000.0 == x + y;
  }

  /** Refilling at one time and asking later is the same as asking later. */
  lemma RefillIsInvisible(q: Tier, s: State, now: nat, t: nat)
    requires q.Limited() && Sound(q, Some(s), now) && now <= t
    ensures Available(q, Some(Refilled(q, s, now)), t) == Available(q, Some(s), t)
  {
    GainAdds(q, now - s.lastRefill, t - now);
    GainAdds(q, t - now, 0);
  }

  /** One submission takes exactly one token if it is admitted and none otherwise, now and at every
      later time up to the bucket's capacity. */
  lemma AdmitTakesOneToken(cfg: Config, q: Tier, s: Option<State>, flops: nat, pending: nat, now: nat)
    requires q.Limited() && Sound(q, s, now)
    ensures var (s', v) := Admit(cfg, q, s, flops, pending, now);
            && Sound(q, s', now)
            && Available(q, s', now) == Available(q, s, now) - (if v.Admitted? then 1.0 else 0.0)
            && Available(q, s', now) >= 0.0
  {
    hide Gain;
    GainAdds(q, 0, 0);
    if s.Some? {
      GainAdds(q, now - s.value.lastRefill, 0);
    }
  }

  /** A rejected submission never changes the tokens available later. */
  lemma RejectionCostsNothing(cfg: Config, q: Tier, s: Option<State>, flops: nat, pending: nat, now: nat, t: nat)
    requires q.Limited() && Sound(q, s, now) && now <= t
    requires !Admit(cfg, q, s, flops, pending, now).1.Admitted?
    ensures Available(q, Admit(cfg, q, s, flops, pending, now).0, t) == Available(q, s, t)
  {
    hide Gain;
    if s.Some? {
      RefillIsInvisible(q, s.value, now, t);
    } else {
      GainAdds(q, t - now, 0);
      GainAdds(q, 0, 0);
    }
  }

  /** Waiting the returned hint is always enough. */
  lemma HintSuffices(cfg: Config, q: Tier, s: Option<State>, flops: nat, pending: nat, now: nat)
    requires Sound(q, s, now)
    requires Admit(cfg, q, s, flops, pending, now).1.QpsExceeded?
    ensures var (s', v) := Admit(cfg, q, s, flops, pending, now);
            Available(q, s', now + v.retryAfter) >= 1.0
  {
    var ready := Ready(cfg, q, s, now);
    var h := Hint(q, ready.tokens);
    WaitFills(q, ready.tokens, h);
  }

  /** And no shorter wait is. */
  lemma HintIsLeast(cfg: Config, q: Tier, s: Option<State>, flops: nat, pending: nat, now: nat, wait: nat)
    requires Sound(q, s, now) && Admit(cfg, q, s, flops, pending, now).1.QpsExceeded?
    requires wait < Admit(cfg, q, s, flops, pending, now).1.retryAfter
    ensures Available(q, Admit(cfg, q, s, flops, pending, now).0, now + wait) < 1.0
  {
    hide Gain, Hint, Tier.Capacity, Config.WindowMs, Config.ShedThreshold;
    var ready := Ready(cfg, q, s, now);
    TooEarly(q, ready.tokens, wait);
  }

  lemma TooEarly(q: Tier, tokens: real, wait: nat)
    requires q.Limited() && tokens < 1.0 && wait < Hint(q, tokens)
    ensures tokens + Gain(q, wait) < 1.0
  {
    var need := (1.0 - tokens) / q.maxQps * 1000.0;
    assert (wait as real) < need;
    var r := wait as real / 1000.0;
    assert r < (1.0 - tokens) / q.maxQps;
    ScaleStrictly(r, (1.0 - tokens) / q.maxQps, q.maxQps);
  }

  lemma ScaleStrictly(x: real, y: real, k: real)
    requires x < y && k > 0.0
    ensures x * k < y * k
  {
  }

  lemma WaitFills(q: Tier, tokens: real, h: nat)
    requires q.Limited() && tokens < 1.0 && h == Hint(q, tokens)
    ensures tokens + Gain(q, h) >= 1.0
  {
    var need := (1.0 - tokens) / q.maxQps * 1000.0;
    assert h as real >= need;
    var r := h as real / 1000.0;
    assert r >= (1.0 - tokens) / q.maxQps;
    Scale(r, (1.0 - tokens) / q.maxQps, q.maxQps);
  }

  lemma Scale(x: real, y: real, k: real)
    requires x >= y && k > 0.0
    ensures x * k >= y * k
  {
  }

  // ---------- Runs ----------

  datatype Event = Submit(flops: nat, pending: nat, now: nat) | Start(now: nat) | Finish

  function After(cfg: Config, q: Tier, s: Option<State>, e: Event): Option<State> {
    match e
    case Submit(flops, pending, now) => Admit(cfg, q, s, flops, pending, now).0
    case Start(now) => Some(Started(q, s, now))
    case Finish => Finished(s)
  }

  predicate Admits(cfg: Config, q: Tier, s: Option<State>, e: Event) {
    e.Submit? && Admit(cfg, q, s, e.flops, e.pending, e.now).1.Admitted?
  }

  function Run(cfg: Config, q: Tier, s: Option<State>, es: seq<Event>): Option<State> {
    if es == [] then s else After(cfg, q, Run(cfg, q, s, es[..|es| - 1]), es[|es| - 1])
  }

  function Admissions(cfg: Config, q: Tier, s: Option<State>, es: seq<Event>): nat {
    if es == [] then 0 else
      var front, last := es[..|es| - 1], es[|es| - 1];
      Admissions(cfg, q, s, front) + if Admits(cfg, q, Run(cfg, q, s, front), last) then 1 else 0
  }

  /** Time from `from` on, never going back: the time of the last event, or `from`. */
  function Clock(from: nat, es: seq<Event>): nat {
    if es == [] then from else
      var e := es[|es| - 1];
      if e.Finish? then Clock(from, es[..|es| - 1]) else e.now
  }

  predicate Ordered(from: nat, es: seq<Event>) {
    es == [] || (Ordered(from, es[..|es| - 1]) && Clock(from, es[..|es| - 1]) <= Clock(from, es))
  }

  /** What was admitted plus what is left never exceeds what there was plus what flowed in. */
  lemma {:induction false} BucketConserves(cfg: Config, q: Tier, s: Option<State>, es: seq<Event>, from: nat)
    requires q.Limited() && Sound(q, s, from) && Ordered(from, es)
    ensures var end := Clock(from, es); var s' := Run(cfg, q, s, es);
            && from <= end && Sound(q, s', end) && Available(q, s', end) >= 0.0
            && Admissions(cfg, q, s, es) as real + Available(q, s', end) <= Available(q, s, from) + Gain(q, end - from)
  {
    hide Gain, Admit, Tier.Capacity;
    if es == [] {
      GainAdds(q, 0, 0);
      AvailableIsNatural(q, s, from);
    } else {
      var front, last := es[..|es| - 1], es[|es| - 1];
      BucketConserves(cfg, q, s, front, from);
      var mid, end := Clock(from, front), Clock(from, es);
      var m := Run(cfg, q, s, front);
      BucketStep(cfg, q, m, last, mid, end);
      GainAdds(q, mid - from, end - mid);
    }
  }

  lemma AvailableIsNatural(q: Tier, s: Option<State>, t: nat)
    requires q.Limited() && Sound(q, s, t)
    ensures Available(q, s, t) >= 0.0
  {
    hide Gain;
    if s.Some? {
      GainAdds(q, t - s.value.lastRefill, 0);
    }
  }

  lemma Flows(q: Tier, s: Option<State>, mid: nat, end: nat)
    requires q.Limited() && Sound(q, s, mid) && mid <= end
    ensures Available(q, s, end) <= Available(q, s, mid) + Gain(q, end - mid)
    ensures Available(q, s, mid) <= Available(q, s, end)
  {
    hide Gain;
    GainAdds(q, end - mid, 0);
    if s.Some? {
      GainAdds(q, mid - s.value.lastRefill, end - mid);
    }
  }

  lemma BucketStep(cfg: Config, q: Tier, m: Option<State>, e: Event, mid: nat, end: nat)
    requires q.Limited() && Sound(q, m, mid) && mid <= end && (if e.Finish? then end == mid else end == e.now)
    ensures var m' := After(cfg, q, m, e);
            && Sound(q, m', end) && Available(q, m', end) >= 0.0
            && (if Admits(cfg, q, m, e) then 1.0 else 0.0) + Available(q, m', end)
               <= Available(q, m, mid) + Gain(q, end - mid)
  {
    Flows(q, m, mid, end);
    AvailableIsNatural(q, m, mid);
    match e
    case Submit(flops, pending, now) =>
      AdmitTakesOneToken(cfg, q, m, flops, pending, now);
    case Start(now) =>
      hide Gain;
      GainAdds(q, 0, 0);
    case Finish =>
  }

  /** Admissions in any interval are at most the burst plus the rate times its length, whatever state
      the interval starts in. */
  lemma BurstPlusRate(cfg: Config, q: Tier, s: Option<State>, es: seq<Event>, from: nat, to: nat)
    requires q.Limited() && Sound(q, s, from) && Ordered(from, es) && from <= to && Clock(from, es) <= to
    ensures Admissions(cfg, q, s, es) as real <= q.Capacity() + Gain(q, to - from)
  {
    hide Gain, Run, Admissions;
    BucketConserves(cfg, q, s, es, from);
    var end := Clock(from, es);
    GainAdds(q, end - from, to - end);
    GainAdds(q, to - end, 0);
  }

  // ---------- Tasks in flight ----------

  function InFlight(s: Option<State>): nat {
    if s.Some? then s.value.inFlight else 0
  }

  /** Whoever is admitted has room for one more task in flight. */
  lemma AdmittedHasRoom(cfg: Config, q: Tier, s: Option<State>, flops: nat, pending: nat, now: nat)
    ensures Admit(cfg, q, s, flops, pending, now).1.Admitted? && q.maxInflight > 0 ==> InFlight(s) < q.maxInflight
    ensures InFlight(Admit(cfg, q, s, flops, pending, now).0) == InFlight(s)
  {
    hide Gain, Hint, Tier.Capacity;
  }

  /** Every start comes right after the admission of its submission. */
  predicate StartsAdmitted(cfg: Config, q: Tier, es: seq<Event>) {
    es == [] ||
    var n := |es| - 1;
    && StartsAdmitted(cfg, q, es[..n])
    && (es[n].Start? ==> n > 0 && Admits(cfg, q, Run(cfg, q, None, es[..n - 1]), es[n - 1]))
  }

  /** Over any run that starts only what was admitted, a tenant never has more tasks in flight than its
      limit. */
  lemma {:induction false} InFlightStaysLimited(cfg: Config, q: Tier, es: seq<Event>)
    requires 0 < q.maxInflight && StartsAdmitted(cfg, q, es)
    ensures InFlight(Run(cfg, q, None, es)) <= q.maxInflight
  {
    hide Admit, Tier.Capacity;
    if es != [] {
      var n := |es| - 1;
      InFlightStaysLimited(cfg, q, es[..n]);
      var m := Run(cfg, q, None, es[..n]);
      match es[n]
      case Submit(flops, pending, now) => AdmittedHasRoom(cfg, q, m, flops, pending, now);
      case Start(now) =>
        var e, before := es[n - 1], Run(cfg, q, None, es[..n - 1]);
        assert es[..n][..n - 1] == es[..n - 1] && es[..n][n - 1] == e;
        AdmittedHasRoom(cfg, q, before, e.flops, e.pending, e.now);
      case Finish =>
    }
  }

  // ---------- The FLOPs budget ----------

  /** An admitted submission, with the start of the window it was charged to. */
  datatype Admission = Admission(window: nat, flops: nat)

  function Ledger(cfg: Config, q: Tier, s: Option<State>, es: seq<Event>): seq<Admission> {
    if es == [] then [] else
      var front, last := es[..|es| - 1], es[|es| - 1];
      var m := Run(cfg, q, s, front);
      Ledger(cfg, q, s, front)
      + if Admits(cfg, q, m, last) then [Admission(After(cfg, q, m, last).value.windowStart, last.flops)] else []
  }

  function InWindow(w: nat): Admission -> nat {
    (a: Admission) => if a.window == w then a.flops else 0
  }

  lemma {:induction false} LaterWindowIsEmpty(admissions: seq<Admission>, w: nat)
    requires forall a | a in admissions :: a.window < w
    ensures Sum(admissions, InWindow(w)) == 0
  {
    if admissions != [] {
      LaterWindowIsEmpty(admissions[..|admissions| - 1], w);
    }
  }

  /** The books of a tenant: no window after the current one, the current one as recorded, and every
      one within the budget. */
  ghost predicate Books(q: Tier, s: Option<State>, admissions: seq<Admission>) {
    && (s.None? ==> admissions == [])
    && (s.Some? ==> forall a | a in admissions :: a.window <= s.value.windowStart)
    && (s.Some? ==> Sum(admissions, InWindow(s.value.windowStart)) == s.value.flopsUsed <= q.flopsPerWindow)
    && (forall w :: Sum(admissions, InWindow(w)) <= q.flopsPerWindow)
  }

  lemma ReadyKeepsBooks(cfg: Config, q: Tier, s: Option<State>, admissions: seq<Admission>, now: nat)
    requires Books(q, s, admissions) && (s.Some? ==> s.value.windowStart <= now)
    ensures Books(q, Some(Ready(cfg, q, s, now)), admissions)
    ensures Ready(cfg, q, s, now).windowStart <= now
  {
    hide Gain, Tier.Capacity;
    var r := Ready(cfg, q, s, now);
    if s.None? || r.windowStart != s.value.windowStart {
      LaterWindowIsEmpty(admissions, r.windowStart);
    }
  }

  lemma ChargeKeepsBooks(q: Tier, s: State, admissions: seq<Admission>, flops: nat)
    requires Books(q, Some(s), admissions) && s.flopsUsed + flops <= q.flopsPerWindow < U64_MAX
    ensures Books(q, Some(Charged(q, s, flops)), admissions + [Admission(s.windowStart, flops)])
  {
    var a := Admission(s.windowStart, flops);
    forall w
      ensures Sum(admissions + [a], InWindow(w))
           == Sum(admissions, InWindow(w)) + if w == s.windowStart then flops else 0
    {
      SumSnoc(admissions, a, InWindow(w));
    }
  }

  lemma {:induction false} BooksStayInBudget(cfg: Config, q: Tier, es: seq<Event>, from: nat)
    requires 0 < q.flopsPerWindow < U64_MAX && Ordered(from, es)
    ensures Books(q, Run(cfg, q, None, es), Ledger(cfg, q, None, es))
    ensures from <= Clock(from, es)
    ensures var s := Run(cfg, q, None, es); s.Some? ==> s.value.windowStart <= Clock(from, es)
  {
    if es != [] {
      var front, last := es[..|es| - 1], es[|es| - 1];
      BooksStayInBudget(cfg, q, front, from);
      var m, admissions := Run(cfg, q, None, front), Ledger(cfg, q, None, front);
      hide Run, Ledger, Books, Gain, Tier.Capacity;
      BooksStep(cfg, q, m, admissions, last, Clock(from, front));
    }
  }

  lemma BooksStep(cfg: Config, q: Tier, m: Option<State>, admissions: seq<Admission>, e: Event, mid: nat)
    requires 0 < q.flopsPerWindow < U64_MAX && Books(q, m, admissions)
    requires (m.Some? ==> m.value.windowStart <= mid) && (e.Finish? || mid <= e.now)
    ensures var m' := After(cfg, q, m, e);
            && Books(q, m', admissions
                            + (if Admits(cfg, q, m, e) then [Admission(m'.value.windowStart, e.flops)] else []))
            && (m'.Some? ==> m'.value.windowStart <= if e.Finish? then mid else e.now)
  {
    hide Gain, Tier.Capacity;
    assert admissions + [] == admissions;
    match e
    case Submit(flops, pending, now) =>
      ReadyKeepsBooks(cfg, q, m, admissions, now);
      hide Ready, Books;
      var ready := Ready(cfg, q, m, now);
      if Admits(cfg, q, m, e) {
        assert Cap64(ready.flopsUsed + flops) <= q.flopsPerWindow;
        ChargeKeepsBooks(q, ready, admissions, flops);
      }
    case Start(now) =>
    case Finish =>
  }

  /** Over any run of a tenant, the FLOPs admitted in each window stay within any budget below 2^64 - 1. */
  lemma WindowStaysInBudget(cfg: Config, q: Tier, es: seq<Event>, from: nat, w: nat)
    requires 0 < q.flopsPerWindow < U64_MAX && Ordered(from, es)
    ensures Sum(Ledger(cfg, q, None, es), InWindow(w)) <= q.flopsPerWindow
  {
    hide Run, Ledger;
    BooksStayInBudget(cfg, q, es, from);
  }

  /** A budget of 2^64 - 1 never refuses: the saturated sum cannot exceed it. */
  lemma TopBudgetNeverRefuses(q: Tier, windowMs: nat, s: State, flops: nat, now: nat)
    requires q.flopsPerWindow == U64_MAX
    ensures !Decide(q, windowMs, s, flops, now).FlopsExceeded?
  {
  }

  /** Nothing but the budget can refuse a submission to an empty pool. */
  predicate OnlyBudget(cfg: Config, q: Tier) {
    !q.Limited() && q.maxInflight == 0 && 0 < cfg.ShedThreshold(q.ClampedPriority())
  }

  /** So two submissions of 2^64 - 1 FLOPs each are admitted in one window. */
  lemma TopBudgetOverruns(cfg: Config, q: Tier, now: nat)
    requires q.flopsPerWindow == U64_MAX && OnlyBudget(cfg, q)
    ensures var e := Submit(U64_MAX, 0, now);
            && Ordered(now, [e, e])
            && Sum(Ledger(cfg, q, None, [e, e]), InWindow(now)) == 2 * U64_MAX
  {
    hide Gain, Tier.Capacity, Config.ShedThreshold, Config.WindowMs, Hint, Smaller;
    var e := Submit(U64_MAX, 0, now);
    var a := Admission(now, U64_MAX);
    assert [e, e][..1] == [e] && [e][..0] == [];
    assert Ordered(now, [e]) && Clock(now, [e]) == now;
    var first := After(cfg, q, None, e);
    assert first.Some? && first.value.windowStart == now && Admits(cfg, q, None, e);
    var second := After(cfg, q, first, e);
    assert second.Some? && second.value.windowStart == now && Admits(cfg, q, first, e);
    hide After, Admits;
    assert Run(cfg, q, None, [e]) == first;
    assert Ledger(cfg, q, None, [e]) == [a];
    assert Ledger(cfg, q, None, [e, e]) == [a] + [a];
    SumSnoc([a], a, InWindow(now));
    SumSnoc([], a, InWindow(now));
    assert [] + [a] == [a];
  }

  /** The budget holds in every window of every run exactly when it is below 2^64 - 1. */
  lemma BudgetHoldsIff(cfg: Config, q: Tier)
    requires 0 < q.flopsPerWindow <= U64_MAX && OnlyBudget(cfg, q)
    ensures (forall es, from: nat, w: nat | Ordered(from, es) ::
               Sum(Ledger(cfg, q, None, es), InWindow(w)) <= q.flopsPerWindow)
       <==> q.flopsPerWindow < U64_MAX
  {
    hide Ledger, Ordered, OnlyBudget;
    if q.flopsPerWindow < U64_MAX {
      forall es, from: nat, w: nat | Ordered(from, es)
        ensures Sum(Ledger(cfg, q, None, es), InWindow(w)) <= q.flopsPerWindow
      {
        WindowStaysInBudget(cfg, q, es, from, w);
      }
    } else {
      TopBudgetOverruns(cfg, q, 0);
      var e := Submit(U64_MAX, 0, 0);
      assert Sum(Ledger(cfg, q, None, [e, e]), InWindow(0)) > q.flopsPerWindow;
    }
  }

  // ---------- The enforcer ----------

  class QuotaEnforcer {
    var config: Option<Config>
    var tenants: map<Address, State>

    constructor ()
      ensures config == None && tenants == map[]
    {
      config, tenants := None, map[];
    }

    method SetConfig(c: Option<Config>)
      modifies this`config
      ensures config == c
    {
      config := c;
    }

    function StateOf(a: Address): Option<State>
      reads this
    {
      if a in tenants then Some(tenants[a]) else None
    }

    function TierFor(a: Address): Tier
      reads this
    {
      if config.Some? then config.value.TierFor(a) else DEFAULT_TIER
    }

    /** Look up or create the tenant's state, refill its bucket and roll its window forward. */
    method Prepare(cfg: Config, q: Tier, tenant: Address, now: nat) returns (s: State)
      modifies this`tenants
      ensures s == Ready(cfg, q, old(StateOf(tenant)), now) && tenants == old(tenants)[tenant := s]
    {
      hide Gain, Tier.Capacity, Config.WindowMs, Smaller;
      var windowMs := cfg.WindowMs();
      s := if tenant in tenants then tenants[tenant] else NewState(q, now);
      if q.maxQps > 0.0 {
        s := s.(tokens := Smaller(s.tokens + Gain(q, Minus(now, s.lastRefill)), q.Capacity()), lastRefill := now);
      }
      if windowMs > 0 && Minus(now, s.windowStart) >= windowMs {
        s := s.(windowStart := now, flopsUsed := 0);
      }
      tenants := tenants[tenant := s];
    }

    /** The checks in order, then the charge. */
    method Check(q: Tier, windowMs: nat, tenant: Address, s: State, flops: nat, now: nat) returns (v: Verdict)
      modifies this`tenants
      ensures v == Decide(q, windowMs, s, flops, now)
      ensures tenants == if v.Admitted? then old(tenants)[tenant := Charged(q, s, flops)] else old(tenants)
    {
      hide Hint, Cap64, Minus;
      if q.maxQps > 0.0 && s.tokens < 1.0 {
        return QpsExceeded(Hint(q, s.tokens));
      }
      if q.maxInflight > 0 && s.inFlight >= q.maxInflight {
        return InFlightExceeded(1000);
      }
      if q.flopsPerWindow > 0 && Cap64(s.flopsUsed + flops) > q.flopsPerWindow {
        var left := Minus(s.windowStart + windowMs, now);
        return FlopsExceeded(if left > 1 then left else 1);
      }
      tenants := tenants[tenant := s.(tokens := if q.maxQps > 0.0 then s.tokens - 1.0 else s.tokens,
                                      flopsUsed := Cap64(s.flopsUsed + flops))];
      v := Admitted;
    }

    /** Nothing is committed unless every check passes; other tenants are untouched. */
    method AdmitTask(tenant: Address, flops: nat, pending: nat, now: nat) returns (v: Verdict)
      modifies this`tenants
      ensures config.None? ==> v == Admitted && tenants == old(tenants)
      ensures config.Some? ==>
                var (s, verdict) := Admit(config.value, TierFor(tenant), old(StateOf(tenant)), flops, pending, now);
                v == verdict && StateOf(tenant) == s
      ensures forall a | a != tenant :: StateOf(a) == old(StateOf(a))
    {
      hide Ready, Decide, Charged, Config.ShedThreshold, Config.WindowMs, Tier.ClampedPriority;
      if config.None? {
        return Admitted;
      }
      var cfg := config.value;
      var q := cfg.TierFor(tenant);
      if pending >= cfg.ShedThreshold(q.ClampedPriority()) {
        return PoolPressure(1000);
      }
      var s := Prepare(cfg, q, tenant, now);
      v := Check(q, cfg.WindowMs(), tenant, s, flops, now);
    }

    method TaskStarted(tenant: Address, now: nat)
      modifies this`tenants
      ensures tenants == old(tenants)[tenant := Started(TierFor(tenant), old(StateOf(tenant)), now)]
    {
      hide Tier.Capacity;
      var s := if tenant in tenants then tenants[tenant] else NewState(TierFor(tenant), now);
      tenants := tenants[tenant := s.(inFlight := Cap64(s.inFlight + 1))];
    }

    method TaskFinished(tenant: Address)
      modifies this`tenants
      ensures StateOf(tenant) == Finished(old(StateOf(tenant)))
      ensures forall a | a != tenant :: StateOf(a) == old(StateOf(a))
    {
      if tenant in tenants {
        var s := tenants[tenant];
        tenants := tenants[tenant := s.(inFlight := Minus(s.inFlight, 1))];
      }
    }
  }
}
