/** The spending guard of agents: daily limits, deposits, and session keys used once per nonce. */
module Agents {
  import opened Common
  import opened Sorting
  import opened Sums

  type Id = nat
  type Mask = seq<bv8>

  const DAY_SECS := 86_400
  const MAX_SESSION_KEY_TTL := 7 * DAY_SECS
  const MAX_SESSION_KEYS_PER_AGENT := 10

  /** Zero limits are unlimited. */
  datatype Agent = Agent(owner: Address, permissions: Mask, dailyLimit: nat, maxPerTx: nat, deposit: nat,
                         spentToday: nat, lastReset: nat, nonce: nat, active: bool)

  datatype Key = Key(agent: Id, permissions: Mask, maxPerTx: nat, issuedAt: nat, expiresAt: nat, nonce: nat,
                     revoked: bool)
  {
    predicate IsValid(now: nat) { !revoked && issuedAt <= now < expiresAt }
  }

  datatype Error =
    | AgentNotFound | AgentNotActive | PermissionDenied | DailyLimitExceeded | PerTxLimitExceeded | InsufficientDeposit
    | KeyExpired | KeyRevoked | KeyNotFound | NonceMismatch | InvalidTTL | MaxSessionKeysReached

  datatype Result<T> = Ok(value: T) | Err(error: Error)

  predicate HasPermission(mask: Mask, perm: bv8) {
    mask != [] && mask[0] & perm != 0
  }

  /** What a key may do, the agent may do, if both masks are given. */
  predicate Within(key: Mask, agent: Mask) {
    key == [] || agent == [] || key[0] & !agent[0] == 0
  }

  lemma WithinMeans(key: Mask, agent: Mask, perm: bv8)
    requires Within(key, agent) && HasPermission(key, perm) && agent != []
    ensures HasPermission(agent, perm)
  {
    var k, a := key[0], agent[0];
    assert k & !a == 0 && k & perm != 0 ==> a & perm != 0;
  }

  /** And only then: a key beyond the agent's mask has some permission the agent lacks. */
  lemma WithinIff(key: Mask, agent: Mask)
    requires key != [] && agent != []
    ensures Within(key, agent) <==> forall perm :: HasPermission(key, perm) ==> HasPermission(agent, perm)
  {
    hide HasPermission, Within;
    if Within(key, agent) {
      forall perm | HasPermission(key, perm) ensures HasPermission(agent, perm) {
        WithinMeans(key, agent, perm);
      }
    } else {
      BeyondHasMore(key, agent);
    }
  }

  lemma ExtraBits(k: bv8, a: bv8)
    ensures k & (k & !a) == k & !a && a & (k & !a) == 0
  {
  }

  lemma BeyondHasMore(key: Mask, agent: Mask)
    requires key != [] && agent != [] && !Within(key, agent)
    ensures HasPermission(key, key[0] & !agent[0]) && !HasPermission(agent, key[0] & !agent[0])
  {
    ExtraBits(key[0], agent[0]);
  }

  // ---------- Spending ----------

  /** A new day starts the counter afresh, at a day boundary. */
  function Refreshed(a: Agent, now: nat): Agent {
    if now >= a.lastReset + DAY_SECS then a.(spentToday := 0, lastReset := now - now % DAY_SECS) else a
  }

  /** Why an agent may not do this now, if it may not; checked in this order. */
  function Refusal(a: Agent, perm: bv8, amount: nat, now: nat): Option<Error> {
    if !a.active then Some(AgentNotActive)
    else if !HasPermission(a.permissions, perm) then Some(PermissionDenied)
    else if a.maxPerTx > 0 && amount > a.maxPerTx then Some(PerTxLimitExceeded)
    else if a.dailyLimit > 0 && Cap128(Refreshed(a, now).spentToday + amount) > a.dailyLimit
    then Some(DailyLimitExceeded)
    else if amount > 0 && a.deposit < amount then Some(InsufficientDeposit)
    else None
  }

  /** What is allowed: exactly what an active agent has the permission bit for, within its limit per
      transaction, its daily limit counted from the last reset or afresh after a day, and its deposit. */
  lemma AllowedIff(a: Agent, perm: bv8, amount: nat, now: nat)
    ensures Refusal(a, perm, amount, now).None?
       <==> && a.active && |a.permissions| > 0 && a.permissions[0] & perm != 0
            && (a.maxPerTx > 0 ==> amount <= a.maxPerTx)
            && (a.dailyLimit > 0 ==>
                  Cap128((if now >= a.lastReset + 86_400 then 0 else a.spentToday) + amount) <= a.dailyLimit)
            && amount <= a.deposit
  {
  }

  /** A recorded spend is counted once: one more in the nonce, the amount in the day's total. */
  lemma SpentCounts(a: Agent, amount: nat, now: nat)
    requires a.spentToday + amount <= U128_MAX
    ensures Spent(a, amount, now).nonce == a.nonce + 1
    ensures now < a.lastReset + 86_400 ==> Spent(a, amount, now).spentToday == a.spentToday + amount
    ensures now >= a.lastReset + 86_400 ==> Spent(a, amount, now).spentToday == amount
                                            && Spent(a, amount, now).lastReset == now / 86_400 * 86_400
  {
  }

  /** The counter is refreshed only once the checks before it have passed. */
  function Checked(a: Agent, perm: bv8, amount: nat, now: nat): Agent {
    if !a.active || !HasPermission(a.permissions, perm) || (a.maxPerTx > 0 && amount > a.maxPerTx) then a
    else Refreshed(a, now)
  }

  function Spent(a: Agent, amount: nat, now: nat): Agent {
    var r := Refreshed(a, now);
    r.(spentToday := Cap128(r.spentToday + amount), deposit := Minus(r.deposit, amount), nonce := r.nonce + 1)
  }

  /** A recorded spend, the window it was charged to, and when it happened. */
  datatype Spend = Spend(window: nat, amount: nat, at: nat)

  function AmountOf(): Spend -> nat { (s: Spend) => s.amount }

  function InWindow(w: nat): Spend -> nat { (s: Spend) => if s.window == w then s.amount else 0 }

  function OnDay(d: nat): Spend -> nat { (s: Spend) => if s.at / DAY_SECS == d then s.amount else 0 }

  predicate Limited(a: Agent) {
    0 < a.dailyLimit < U128_MAX
  }

  /** An agent's books: the deposit is what was funded less what was spent, and, under a daily limit, no
      window holds more than the limit. */
  ghost predicate Books(a: Agent, funded: nat, spends: seq<Spend>) {
    && a.deposit + Sum(spends, AmountOf()) == funded
    && (forall s | s in spends :: s.window <= a.lastReset)
    && (Limited(a) ==> Sum(spends, InWindow(a.lastReset)) <= a.spentToday)
    && (Limited(a) ==> forall w :: Sum(spends, InWindow(w)) <= a.dailyLimit)
  }

  lemma {:induction false} LaterWindowIsEmpty(spends: seq<Spend>, w: nat)
    requires forall s | s in spends :: s.window < w
    ensures Sum(spends, InWindow(w)) == 0
  {
    if spends != [] {
      LaterWindowIsEmpty(spends[..|spends| - 1], w);
    }
  }

  lemma RefreshKeepsBooks(a: Agent, funded: nat, spends: seq<Spend>, now: nat)
    requires Books(a, funded, spends)
    ensures Books(Refreshed(a, now), funded, spends)
  {
    if now >= a.lastReset + DAY_SECS {
      LaterWindowIsEmpty(spends, Refreshed(a, now).lastReset);
    }
  }

  /** The daily limit and the deposit both allow the amount. */
  predicate Covers(a: Agent, amount: nat, now: nat) {
    && (a.dailyLimit > 0 ==> Cap128(Refreshed(a, now).spentToday + amount) <= a.dailyLimit)
    && amount <= a.deposit
  }

  lemma AllowedIsCovered(a: Agent, perm: bv8, amount: nat, now: nat)
    requires Refusal(a, perm, amount, now).None?
    ensures Covers(a, amount, now)
  {
  }

  /** Whatever is recorded, the deposit is never less than what was funded and not spent. */
  lemma SpendNeverOvercharges(a: Agent, funded: nat, spends: seq<Spend>, amount: nat, now: nat)
    requires Unspent(a, funded, spends)
    ensures Unspent(Spent(a, amount, now), funded, spends + [Spend(Refreshed(a, now).lastReset, amount, now)])
  {
    SumSnoc(spends, Spend(Refreshed(a, now).lastReset, amount, now), AmountOf());
  }

  /** Recording a spend that the limit and the deposit cover keeps the books, without saturation. */
  lemma SpendKeepsBooks(a: Agent, funded: nat, spends: seq<Spend>, amount: nat, now: nat)
    requires Books(a, funded, spends) && Covers(a, amount, now)
    ensures Spent(a, amount, now).deposit + amount == a.deposit
    ensures Books(Spent(a, amount, now), funded, spends + [Spend(Refreshed(a, now).lastReset, amount, now)])
  {
    RefreshKeepsBooks(a, funded, spends, now);
    var r := Refreshed(a, now);
    hide Refreshed;
    var s := Spend(r.lastReset, amount, now);
    SumSnoc(spends, s, AmountOf());
    forall w
      ensures Sum(spends + [s], InWindow(w)) == Sum(spends, InWindow(w)) + if w == r.lastReset then amount else 0
    {
      SumSnoc(spends, s, InWindow(w));
    }
  }

  /** What was funded and not spent is in the deposit. */
  ghost predicate Unspent(a: Agent, funded: nat, spends: seq<Spend>) {
    funded <= a.deposit + Sum(spends, AmountOf())
  }

  lemma BooksOpen(a: Agent)
    ensures Books(a, a.deposit, []) && Unspent(a, a.deposit, [])
  {
    assert Sum([], AmountOf()) == 0 && forall w :: Sum([], InWindow(w)) == 0;
  }

  lemma SameDeposit(a: Agent, funded: nat, spends: seq<Spend>, now: nat)
    ensures Unspent(Refreshed(a, now), funded, spends) == Unspent(a, funded, spends)
  {
  }

  lemma FundKeepsBooks(a: Agent, funded: nat, spends: seq<Spend>, amount: nat)
    ensures Books(a, funded, spends) ==> Books(a.(deposit := a.deposit + amount), funded + amount, spends)
    ensures Unspent(a, funded, spends) ==> Unspent(a.(deposit := a.deposit + amount), funded + amount, spends)
  {
  }

  /** What happens to an agent: an attempted spend, recorded if the check lets it through, or a top-up. */
  datatype Event = Attempt(perm: bv8, amount: nat, now: nat) | TopUp(amount: nat)

  /** An agent with what was put into its deposit and what it spent. */
  datatype Account = Account(agent: Agent, funded: nat, spends: seq<Spend>)

  function After(x: Account, e: Event): Account {
    match e
    case Attempt(perm, amount, now) =>
      if Refusal(x.agent, perm, amount, now).Some? then x.(agent := Checked(x.agent, perm, amount, now))
      else
        var s := Spend(Refreshed(x.agent, now).lastReset, amount, now);
        Account(Spent(x.agent, amount, now), x.funded, x.spends + [s])
    case TopUp(amount) => Account(x.agent.(deposit := x.agent.deposit + amount), x.funded + amount, x.spends)
  }

  function Run(x: Account, es: seq<Event>): Account {
    if es == [] then x else After(Run(x, es[..|es| - 1]), es[|es| - 1])
  }

  /** Over any run, whatever is attempted and when: the deposit is what was funded less what was spent, and
      no window of a limited agent holds more than the daily limit. */
  lemma {:induction false} RunKeepsBooks(a: Agent, es: seq<Event>, w: nat)
    ensures var x := Run(Account(a, a.deposit, []), es);
            && Books(x.agent, x.funded, x.spends) && x.agent.dailyLimit == a.dailyLimit
            && x.agent.deposit + Sum(x.spends, AmountOf()) == x.funded
            && (Limited(a) ==> Sum(x.spends, InWindow(w)) <= a.dailyLimit)
  {
    if es == [] {
      assert Sum([], AmountOf()) == 0 && forall v :: Sum([], InWindow(v)) == 0;
    } else {
      var front, e := es[..|es| - 1], es[|es| - 1];
      RunKeepsBooks(a, front, w);
      var x := Run(Account(a, a.deposit, []), front);
      EventKeepsBooks(x, e);
    }
  }

  lemma EventKeepsBooks(x: Account, e: Event)
    requires Books(x.agent, x.funded, x.spends)
    ensures var y := After(x, e); Books(y.agent, y.funded, y.spends) && y.agent.dailyLimit == x.agent.dailyLimit
  {
    hide Books;
    match e
    case Attempt(perm, amount, now) =>
      if Refusal(x.agent, perm, amount, now).Some? {
        RefreshKeepsBooks(x.agent, x.funded, x.spends, now);
      } else {
        AllowedIsCovered(x.agent, perm, amount, now);
        SpendKeepsBooks(x.agent, x.funded, x.spends, amount, now);
      }
    case TopUp(amount) =>
      FundKeepsBooks(x.agent, x.funded, x.spends, amount);
  }

  /** Over any run no recorded spend exceeds the agent's limit per transaction. */
  lemma {:induction false} SpendsWithinLimit(a: Agent, es: seq<Event>, s: Spend)
    requires a.maxPerTx > 0
    ensures var x := Run(Account(a, a.deposit, []), es);
            x.agent.maxPerTx == a.maxPerTx && (s in x.spends ==> s.amount <= a.maxPerTx)
  {
    hide HasPermission, Cap128;
    if es != [] {
      SpendsWithinLimit(a, es[..|es| - 1], s);
    }
  }

  /** An agent that is not active, or that is only asked for what it has no permission for, never spends. */
  lemma {:induction false} NothingWithoutPermission(a: Agent, es: seq<Event>)
    requires !a.active || forall e | e in es && e.Attempt? :: !HasPermission(a.permissions, e.perm)
    ensures var x := Run(Account(a, a.deposit, []), es);
            x.spends == [] && x.agent.active == a.active && x.agent.permissions == a.permissions
            && x.agent.deposit == x.funded
  {
    hide HasPermission, Cap128;
    if es != [] {
      NothingWithoutPermission(a, es[..|es| - 1]);
    }
  }

  // ---------- Calendar days ----------

  /** Attempts come at times that do not go back, and not before `since`. */
  predicate Ordered(es: seq<Event>, since: nat) {
    && (forall i | 0 <= i < |es| && es[i].Attempt? :: since <= es[i].now)
    && (forall i, j | 0 <= i < j < |es| && es[i].Attempt? && es[j].Attempt? :: es[i].now <= es[j].now)
  }

  /** The counter was last reset at midnight and every spend is charged to the day it happened on. */
  predicate ByTheDay(x: Account) {
    && x.agent.lastReset % DAY_SECS == 0
    && forall s | s in x.spends :: s.window == s.at - s.at % DAY_SECS
  }

  lemma WindowsAreDays(a: Agent, now: nat)
    requires a.lastReset % DAY_SECS == 0 && a.lastReset <= now
    ensures Refreshed(a, now).lastReset == now - now % DAY_SECS <= now
  {
  }

  lemma EventByTheDay(x: Account, e: Event)
    requires ByTheDay(x) && (e.Attempt? ==> x.agent.lastReset <= e.now)
    ensures ByTheDay(After(x, e))
    ensures After(x, e).agent.lastReset <= if e.Attempt? then e.now else x.agent.lastReset
  {
    hide HasPermission, Cap128;
    if e.Attempt? {
      WindowsAreDays(x.agent, e.now);
    }
  }

  lemma {:induction false} RunByTheDay(a: Agent, es: seq<Event>, until: nat)
    requires a.lastReset % DAY_SECS == 0 && Ordered(es, a.lastReset) && a.lastReset <= until
    requires forall i | 0 <= i < |es| && es[i].Attempt? :: es[i].now <= until
    ensures var x := Run(Account(a, a.deposit, []), es); ByTheDay(x) && x.agent.lastReset <= until
  {
    hide After;
    if es != [] {
      var n := |es| - 1;
      if es[n].Attempt? {
        RunByTheDay(a, es[..n], es[n].now);
      } else {
        RunByTheDay(a, es[..n], until);
      }
      EventByTheDay(Run(Account(a, a.deposit, []), es[..n]), es[n]);
    }
  }

  function Latest(es: seq<Event>, since: nat): (t: nat)
    ensures since <= t && forall i | 0 <= i < |es| && es[i].Attempt? :: es[i].now <= t
  {
    if es == [] then since else
      var t := Latest(es[..|es| - 1], since);
      if es[|es| - 1].Attempt? && es[|es| - 1].now > t then es[|es| - 1].now else t
  }

  /** No calendar day of any run holds more than the daily limit, once the counter starts at midnight. */
  lemma EveryDayWithinLimit(a: Agent, es: seq<Event>, d: nat)
    requires Limited(a) && a.lastReset % DAY_SECS == 0 && Ordered(es, a.lastReset)
    ensures Sum(Run(Account(a, a.deposit, []), es).spends, OnDay(d)) <= a.dailyLimit
  {
    hide Run, Books;
    var x := Run(Account(a, a.deposit, []), es);
    RunByTheDay(a, es, Latest(es, a.lastReset));
    RunKeepsBooks(a, es, d * DAY_SECS);
    forall s | s in x.spends ensures OnDay(d)(s) == InWindow(d * DAY_SECS)(s) {
      SameDayWindow(s.at, d);
    }
    SumAgrees(x.spends, OnDay(d), InWindow(d * DAY_SECS));
  }

  lemma SameDayWindow(at: nat, d: nat)
    ensures at / DAY_SECS == d <==> at - at % DAY_SECS == d * DAY_SECS
  {
  }

  /** Two spends of the whole limit on one day, around a reset at another time than midnight. */
  function Straddle(a: Agent, perm: bv8): seq<Event> {
    var reset := a.lastReset + DAY_SECS;
    [Attempt(perm, a.dailyLimit, reset - reset % DAY_SECS), Attempt(perm, a.dailyLimit, reset)]
  }

  /** An agent that can spend its limit twice over. */
  predicate Able(a: Agent, perm: bv8) {
    && Limited(a) && a.active && HasPermission(a.permissions, perm) && a.maxPerTx == 0 && a.spentToday == 0
    && a.deposit >= 2 * a.dailyLimit
  }

  /** The first spend goes to the old window, the second to a new one that starts earlier the same day. */
  lemma StraddleSpends(a: Agent, perm: bv8) returns (first: Spend, second: Spend)
    requires Able(a, perm) && a.lastReset % DAY_SECS != 0
    ensures var reset := a.lastReset + DAY_SECS;
            && first.amount == second.amount == a.dailyLimit
            && first.at == reset - reset % DAY_SECS && second.at == reset
            && Run(Account(a, a.deposit, []), Straddle(a, perm)).spends == [first, second]
  {
    hide HasPermission;
    var reset := a.lastReset + DAY_SECS;
    var early := reset - reset % DAY_SECS;
    var x, es := Account(a, a.deposit, []), Straddle(a, perm);
    assert Refusal(a, perm, a.dailyLimit, early).None?;
    var y := After(x, es[0]);
    first := Spend(a.lastReset, a.dailyLimit, early);
    assert y.spends == [first];
    assert Refusal(y.agent, perm, a.dailyLimit, reset).None?;
    second := Spend(Refreshed(y.agent, reset).lastReset, a.dailyLimit, reset);
    hide After;
    assert es[..1] == [es[0]] && [es[0]][..0] == [];
    assert Run(x, [es[0]]) == y;
  }

  /** A counter that starts off midnight lets one day hold twice the limit. */
  lemma StraddledDayOverspends(a: Agent, perm: bv8)
    requires Able(a, perm) && a.lastReset % DAY_SECS != 0
    ensures Ordered(Straddle(a, perm), a.lastReset)
    ensures var d := (a.lastReset + DAY_SECS) / DAY_SECS;
            Sum(Run(Account(a, a.deposit, []), Straddle(a, perm)).spends, OnDay(d)) == 2 * a.dailyLimit
  {
    hide HasPermission, Run;
    var reset := a.lastReset + DAY_SECS;
    var d := reset / DAY_SECS;
    var first, second := StraddleSpends(a, perm);
    assert a.lastReset <= first.at && first.at / DAY_SECS == d;
    assert [first, second] == [first] + [second] && [first] == [] + [first];
    SumSnoc([first], second, OnDay(d));
    SumSnoc([], first, OnDay(d));
  }

  /** So the daily limit is a limit on calendar days exactly when the counter starts at midnight. */
  lemma DailyLimitIsDailyIff(a: Agent, perm: bv8)
    requires Able(a, perm)
    ensures (forall es, d: nat | Ordered(es, a.lastReset) ::
               Sum(Run(Account(a, a.deposit, []), es).spends, OnDay(d)) <= a.dailyLimit)
       <==> a.lastReset % DAY_SECS == 0
  {
    hide Run, Ordered, HasPermission;
    if a.lastReset % DAY_SECS == 0 {
      forall es, d: nat | Ordered(es, a.lastReset)
        ensures Sum(Run(Account(a, a.deposit, []), es).spends, OnDay(d)) <= a.dailyLimit
      {
        EveryDayWithinLimit(a, es, d);
      }
    } else {
      StraddledDayOverspends(a, perm);
      var es, d := Straddle(a, perm), (a.lastReset + DAY_SECS) / DAY_SECS;
      assert Sum(Run(Account(a, a.deposit, []), es).spends, OnDay(d)) > a.dailyLimit;
    }
  }

  // ---------- The books of all agents ----------

  /** Every agent keeps its books, except those charged beyond what they could spend. */
  ghost predicate Accounted(agents: map<Id, Agent>, funded: map<Id, nat>, spends: map<Id, seq<Spend>>,
                            overrun: set<Id>) {
    && funded.Keys == agents.Keys && spends.Keys == agents.Keys
    && (forall id | id in agents && id !in overrun :: Books(agents[id], funded[id], spends[id]))
    && (forall id | id in agents :: Unspent(agents[id], funded[id], spends[id]))
  }

  lemma AccountedAt(agents: map<Id, Agent>, funded: map<Id, nat>, spends: map<Id, seq<Spend>>, overrun: set<Id>, id: Id)
    requires Accounted(agents, funded, spends, overrun) && id in agents
    ensures id in funded && id in spends && Unspent(agents[id], funded[id], spends[id])
    ensures id !in overrun ==> Books(agents[id], funded[id], spends[id])
  {
  }

  /** Replacing the record of one agent. */
  lemma AccountedWith(agents: map<Id, Agent>, funded: map<Id, nat>, spends: map<Id, seq<Spend>>, overrun: set<Id>,
                      id: Id, a: Agent, f: nat, ss: seq<Spend>, over: bool)
    requires Accounted(agents, funded, spends, overrun) && Unspent(a, f, ss) && (over || Books(a, f, ss))
    ensures Accounted(agents[id := a], funded[id := f], spends[id := ss],
                      if over then overrun + {id} else overrun - {id})
  {
    hide Books, Unspent;
  }

  lemma Rebooked(agents: map<Id, Agent>, funded: map<Id, nat>, spends: map<Id, seq<Spend>>, overrun: set<Id>, id: Id,
                 a: Agent)
    requires Accounted(agents, funded, spends, overrun) && id in agents && id in funded && id in spends
    requires Unspent(a, funded[id], spends[id]) && (id in overrun || Books(a, funded[id], spends[id]))
    ensures Accounted(agents[id := a], funded, spends, overrun)
  {
    hide Books, Unspent, Accounted;
    AccountedWith(agents, funded, spends, overrun, id, a, funded[id], spends[id], id in overrun);
    assert funded[id := funded[id]] == funded && spends[id := spends[id]] == spends;
    assert (if id in overrun then overrun + {id} else overrun - {id}) == overrun;
  }

  // ---------- Session keys ----------

  /** A use of a session key: under which issue of its address, and with which nonce. */
  datatype Use = Use(key: Address, issue: nat, nonce: nat)

  function IssueOf(issues: map<Address, nat>, k: Address): nat {
    if k in issues then issues[k] else 0
  }

  /** Under each issue of an address its nonces are used once each, from zero on without gaps, and those of
      the key now under it are the ones below its next. */
  ghost predicate UsedOnce(uses: seq<Use>, keys: map<Address, Key>, issues: map<Address, nat>) {
    && Distinct(uses)
    && (forall u | u in uses :: 1 <= u.issue <= IssueOf(issues, u.key))
    && (forall k | k in keys :: 1 <= IssueOf(issues, k))
    && (forall u | u in uses && u.key in keys && u.issue == IssueOf(issues, u.key) :: u.nonce < keys[u.key].nonce)
    && (forall k, m: nat | k in keys && m < keys[k].nonce :: Use(k, IssueOf(issues, k), m) in uses)
    && (forall u, m: nat | u in uses && m < u.nonce :: Use(u.key, u.issue, m) in uses)
  }

  /** Two uses of the address with the same nonce. */
  ghost predicate Repeats(uses: seq<Use>, k: Address) {
    exists i, j :: 0 <= i < j < |uses| && uses[i].key == uses[j].key == k && uses[i].nonce == uses[j].nonce
  }

  /** Two uses of the address under different issues of it. */
  ghost predicate UsedAcrossIssues(uses: seq<Use>, k: Address) {
    exists u, w :: u in uses && w in uses && u.key == w.key == k && u.issue != w.issue
  }

  /** A nonce of an address repeats exactly when the address was used, issued again and used again. */
  lemma RepeatsIff(uses: seq<Use>, keys: map<Address, Key>, issues: map<Address, nat>, k: Address)
    requires UsedOnce(uses, keys, issues)
    ensures Repeats(uses, k) <==> UsedAcrossIssues(uses, k)
  {
    hide Distinct;
    if Repeats(uses, k) {
      var i, j :| 0 <= i < j < |uses| && uses[i].key == uses[j].key == k && uses[i].nonce == uses[j].nonce;
      RepeatMeansReissue(uses, keys, issues, i, j);
    }
    if UsedAcrossIssues(uses, k) {
      var u, w :| u in uses && w in uses && u.key == w.key == k && u.issue != w.issue;
      FirstUse(uses, keys, issues, u);
      FirstUse(uses, keys, issues, w);
      var i, j :| 0 <= i < |uses| && 0 <= j < |uses| && uses[i] == Use(k, u.issue, 0) && uses[j] == Use(k, w.issue, 0);
      assert i < j || j < i;
    }
  }

  lemma FirstUse(uses: seq<Use>, keys: map<Address, Key>, issues: map<Address, nat>, u: Use)
    requires UsedOnce(uses, keys, issues) && u in uses
    ensures Use(u.key, u.issue, 0) in uses
  {
  }

  /** So an address issued at most once never repeats a nonce: each (address, nonce) pair is used once. */
  lemma IssuedOnceNeverRepeats(uses: seq<Use>, keys: map<Address, Key>, issues: map<Address, nat>, k: Address)
    requires UsedOnce(uses, keys, issues) && IssueOf(issues, k) <= 1
    ensures !Repeats(uses, k)
  {
    RepeatsIff(uses, keys, issues, k);
  }

  /** A nonce of an address is used again only after the address was issued again. */
  lemma RepeatMeansReissue(uses: seq<Use>, keys: map<Address, Key>, issues: map<Address, nat>, i: nat, j: nat)
    requires UsedOnce(uses, keys, issues) && i < j < |uses|
    requires uses[i].key == uses[j].key && uses[i].nonce == uses[j].nonce
    ensures uses[i].issue != uses[j].issue && 2 <= IssueOf(issues, uses[i].key)
  {
    assert uses[i] in uses && uses[j] in uses;
  }

  /** Before the call: where no nonce of an address has repeated yet, issuing the address again makes its
      next use repeat one exactly when the address was used before. */
  lemma ReissueRepeatsIff(uses: seq<Use>, keys: map<Address, Key>, issues: map<Address, nat>, k: Address)
    requires UsedOnce(uses, keys, issues) && !Repeats(uses, k)
    ensures Repeats(uses + [Use(k, IssueOf(issues, k) + 1, 0)], k) <==> exists u | u in uses :: u.key == k
  {
    hide UsedOnce;
    var more := uses + [Use(k, IssueOf(issues, k) + 1, 0)];
    if u :| u in uses && u.key == k {
      FirstUse(uses, keys, issues, u);
      var i :| 0 <= i < |uses| && uses[i] == Use(k, u.issue, 0);
      assert more[i].key == more[|uses|].key == k && more[i].nonce == more[|uses|].nonce;
    } else {
      forall i | 0 <= i < |uses| ensures more[i].key != k {
        assert uses[i] in uses;
      }
    }
  }

  /** Every key of an agent is in the agent's list. */
  ghost predicate Indexed(keys: map<Address, Key>, index: map<Id, seq<Address>>) {
    forall k | k in keys :: keys[k].agent in index && k in index[keys[k].agent]
  }

  function CountValid(list: seq<Address>, keys: map<Address, Key>, now: nat): nat {
    if list == [] then 0 else
      CountValid(list[..|list| - 1], keys, now)
      + if list[|list| - 1] in keys && keys[list[|list| - 1]].IsValid(now) then 1 else 0
  }

  /** The places in the list that hold a valid key. */
  function ValidAt(list: seq<Address>, keys: map<Address, Key>, now: nat): set<nat> {
    set i | 0 <= i < |list| && list[i] in keys && keys[list[i]].IsValid(now)
  }

  lemma {:induction false} CountsValid(list: seq<Address>, keys: map<Address, Key>, now: nat)
    ensures CountValid(list, keys, now) == |ValidAt(list, keys, now)|
  {
    hide Key.IsValid;
    if list != [] {
      var n := |list| - 1;
      CountsValid(list[..n], keys, now);
      assert forall i | 0 <= i < n :: list[..n][i] == list[i];
      if n in ValidAt(list, keys, now) {
        assert ValidAt(list, keys, now) == ValidAt(list[..n], keys, now) + {n};
      } else {
        assert ValidAt(list, keys, now) == ValidAt(list[..n], keys, now);
      }
    }
  }

  class AgentGuard {
    var agents: map<Id, Agent>
    var keys: map<Address, Key>
    var index: map<Id, seq<Address>>
    /** What was put into each agent's deposit, every spend, the agents charged with a spend that their
        limit or deposit did not cover, how often each key address was issued, and every use of one. */
    ghost var funded: map<Id, nat>
    ghost var spends: map<Id, seq<Spend>>
    ghost var overrun: set<Id>
    ghost var issues: map<Address, nat>
    ghost var uses: seq<Use>

    ghost predicate Valid()
      reads this
    {
      && Accounted(agents, funded, spends, overrun)
      && UsedOnce(uses, keys, issues)
      && Indexed(keys, index)
    }

    constructor ()
      ensures Valid() && agents == map[] && keys == map[] && uses == [] && issues == map[] && overrun == {}
    {
      agents, keys, index, funded, spends, overrun, issues, uses := map[], map[], map[], map[], map[], {}, map[], [];
    }

    /** Register an agent, or replace its record; either way its books start anew. */
    method RegisterAgent(id: Id, a: Agent)
      requires Valid()
      modifies this`agents, this`funded, this`spends, this`overrun
      ensures Valid() && agents == old(agents)[id := a] && overrun == old(overrun) - {id}
      ensures funded == old(funded)[id := a.deposit] && spends == old(spends)[id := []]
    {
      hide UsedOnce, Indexed, Books, Unspent, Accounted;
      BooksOpen(a);
      AccountedWith(agents, funded, spends, overrun, id, a, a.deposit, [], false);
      agents, funded, spends := agents[id := a], funded[id := a.deposit], spends[id := []];
      overrun := overrun - {id};
    }

    /** The check may start a new day but spends nothing. */
    method CheckPermission(id: Id, perm: bv8, amount: nat, now: nat) returns (e: Option<Error>)
      requires Valid()
      modifies this`agents
      ensures Valid()
      ensures id !in old(agents) ==> e == Some(AgentNotFound) && agents == old(agents)
      ensures id in old(agents) ==>
                e == Refusal(old(agents)[id], perm, amount, now)
                && agents == old(agents)[id := Checked(old(agents)[id], perm, amount, now)]
    {
      hide Books, HasPermission, UsedOnce, Indexed, Accounted, Unspent;
      if id !in agents {
        return Some(AgentNotFound);
      }
      var a := agents[id];
      AccountedAt(agents, funded, spends, overrun, id);
      if !a.active {
        return Some(AgentNotActive);
      }
      if !HasPermission(a.permissions, perm) {
        return Some(PermissionDenied);
      }
      if a.maxPerTx > 0 && amount > a.maxPerTx {
        return Some(PerTxLimitExceeded);
      }
      if id !in overrun {
        RefreshKeepsBooks(a, funded[id], spends[id], now);
      }
      SameDeposit(a, funded[id], spends[id], now);
      Rebooked(agents, funded, spends, overrun, id, Refreshed(a, now));
      if now >= a.lastReset + DAY_SECS {
        a := a.(spentToday := 0, lastReset := now - now % DAY_SECS);
      }
      agents := agents[id := a];
      if a.dailyLimit > 0 && Cap128(a.spentToday + amount) > a.dailyLimit {
        return Some(DailyLimitExceeded);
      }
      if amount > 0 && a.deposit < amount {
        return Some(InsufficientDeposit);
      }
      e := None;
    }

    /** Record a spend, saturating. The books keep only while what is recorded is covered, as everything
        that passed the check is. */
    method RecordSpend(id: Id, amount: nat, now: nat) returns (e: Option<Error>)
      requires Valid()
      modifies this`agents, this`spends, this`overrun
      ensures Valid() && e == if id in old(agents) then None else Some(AgentNotFound)
      ensures e.None? ==>
                && agents == old(agents)[id := Spent(old(agents)[id], amount, now)]
                && id in old(spends)
                && spends == old(spends)[id := old(spends)[id]
                                               + [Spend(Refreshed(old(agents)[id], now).lastReset, amount, now)]]
                && overrun == if Covers(old(agents)[id], amount, now) then old(overrun) else old(overrun) + {id}
      ensures e.Some? ==> unchanged(this)
    {
      hide Books, UsedOnce, Indexed, Covers, Cap128, Accounted, Unspent;
      if id !in agents {
        return Some(AgentNotFound);
      }
      var a := agents[id];
      AccountedAt(agents, funded, spends, overrun, id);
      if id !in overrun && Covers(a, amount, now) {
        SpendKeepsBooks(a, funded[id], spends[id], amount, now);
      }
      SpendNeverOvercharges(a, funded[id], spends[id], amount, now);
      ghost var window := Refreshed(a, now).lastReset;
      ghost var over := id in overrun || !Covers(a, amount, now);
      AccountedWith(agents, funded, spends, overrun, id, Spent(a, amount, now), funded[id],
                    spends[id] + [Spend(window, amount, now)], over);
      assert funded[id := funded[id]] == funded;
      overrun := if over then overrun + {id} else overrun - {id};
      if now >= a.lastReset + DAY_SECS {
        a := a.(spentToday := 0, lastReset := now - now % DAY_SECS);
      }
      agents := agents[id := a.(spentToday := Cap128(a.spentToday + amount), deposit := Minus(a.deposit, amount),
                                nonce := a.nonce + 1)];
      spends := spends[id := spends[id] + [Spend(window, amount, now)]];
      e := None;
    }

    method Fund(id: Id, amount: nat)
      requires Valid() && id in agents
      modifies this`agents, this`funded
      ensures Valid() && agents == old(agents)[id := old(agents)[id].(deposit := old(agents)[id].deposit + amount)]
      ensures funded == old(funded)[id := old(funded)[id] + amount]
    {
      hide Books, UsedOnce, Indexed, Accounted, Unspent;
      AccountedAt(agents, funded, spends, overrun, id);
      FundKeepsBooks(agents[id], funded[id], spends[id], amount);
      AccountedWith(agents, funded, spends, overrun, id, agents[id].(deposit := agents[id].deposit + amount),
                    funded[id] + amount, spends[id], id in overrun);
      assert spends[id := spends[id]] == spends;
      assert (if id in overrun then overrun + {id} else overrun - {id}) == overrun;
      agents := agents[id := agents[id].(deposit := agents[id].deposit + amount)];
      funded := funded[id := funded[id] + amount];
    }

    /** Revoke every listed key that still exists. */
    method RevokeKeys(list: seq<Address>)
      modifies this`keys
      ensures Revokes(old(keys), keys) && forall k | k in list && k in keys :: keys[k].revoked
    {
      for i := 0 to |list|
        invariant Revokes(old(keys), keys)
        invariant forall j | 0 <= j < i && list[j] in keys :: keys[list[j]].revoked
      {
        if list[i] in keys {
          keys := keys[list[i] := keys[list[i]].(revoked := true)];
        }
      }
    }

    /** Deactivate an agent and revoke every session key it has. */
    method RevokeAgent(id: Id) returns (e: Option<Error>)
      requires Valid()
      modifies this`agents, this`keys
      ensures Valid() && e == (if id in old(agents) then None else Some(AgentNotFound))
      ensures id in old(agents) ==> agents == old(agents)[id := old(agents)[id].(active := false)]
      ensures id in old(agents) ==> forall k | k in keys && keys[k].agent == id :: keys[k].revoked
      ensures id !in old(agents) ==> agents == old(agents)
      ensures Revokes(old(keys), keys)
    {
      hide Books, UsedOnce, Indexed, Accounted, Unspent;
      if id !in agents {
        return Some(AgentNotFound);
      }
      AccountedAt(agents, funded, spends, overrun, id);
      IdleKeepsBooks(agents[id], funded[id], spends[id]);
      Rebooked(agents, funded, spends, overrun, id, agents[id].(active := false));
      agents := agents[id := agents[id].(active := false)];
      ghost var before := keys;
      if id in index {
        RevokeKeys(index[id]);
      }
      RevokingKeeps(before, keys, uses, issues, index, id);
      e := None;
    }

    /** Why a key cannot be issued, if it cannot. */
    function IssueRefusal(id: Id, permissions: Mask, maxPerTx: nat, ttl: nat, now: nat): Option<Error>
      reads this
    {
      if id !in agents then Some(AgentNotFound)
      else if !agents[id].active then Some(AgentNotActive)
      else if ttl > MAX_SESSION_KEY_TTL then Some(InvalidTTL)
      else if !Within(permissions, agents[id].permissions) then Some(PermissionDenied)
      else if agents[id].maxPerTx > 0 && maxPerTx > agents[id].maxPerTx then Some(PermissionDenied)
      else if id in index && CountValid(index[id], keys, now) >= MAX_SESSION_KEYS_PER_AGENT
      then Some(MaxSessionKeysReached)
      else None
    }

    method CountActive(id: Id, now: nat) returns (n: nat)
      ensures n == if id in index then CountValid(index[id], keys, now) else 0
    {
      n := 0;
      if id in index {
        var list := index[id];
        for i := 0 to |list|
          invariant n == CountValid(list[..i], keys, now)
        {
          assert list[..i + 1][..i] == list[..i];
          if list[i] in keys && keys[list[i]].IsValid(now) {
            n := n + 1;
          }
        }
        assert list[..|list|] == list;
      }
    }

    /** Issue a key; under an address that had one, the new key replaces it. */
    method IssueSessionKey(id: Id, k: Address, permissions: Mask, maxPerTx: nat, ttl: nat, now: nat)
      returns (e: Option<Error>)
      requires Valid()
      modifies this`keys, this`index, this`issues
      ensures Valid() && e == old(IssueRefusal(id, permissions, maxPerTx, ttl, now))
      ensures e.None? ==> forall t: nat, n: nat :: KeyRefusal(k, n, t).None? <==> t < now + ttl && n == 0
      ensures e.None? ==> keys == old(keys)[k := Key(id, permissions, maxPerTx, now, now + ttl, 0, false)]
                          && index == old(index)[id := (if id in old(index) then old(index)[id] else []) + [k]]
                          && issues == old(issues)[k := IssueOf(old(issues), k) + 1]
      ensures e.Some? ==> keys == old(keys) && index == old(index) && issues == old(issues)
    {
      hide Books, Within, UsedOnce, Indexed, CountValid, Accounted;
      if id !in agents {
        return Some(AgentNotFound);
      }
      var a := agents[id];
      if !a.active {
        return Some(AgentNotActive);
      }
      if ttl > MAX_SESSION_KEY_TTL {
        return Some(InvalidTTL);
      }
      if !Within(permissions, a.permissions) {
        return Some(PermissionDenied);
      }
      if a.maxPerTx > 0 && maxPerTx > a.maxPerTx {
        return Some(PermissionDenied);
      }
      var active := CountActive(id, now);
      if active >= MAX_SESSION_KEYS_PER_AGENT {
        return Some(MaxSessionKeysReached);
      }
      IssuingKeeps(keys, uses, issues, index, id, k, Key(id, permissions, maxPerTx, now, now + ttl, 0, false));
      keys := keys[k := Key(id, permissions, maxPerTx, now, now + ttl, 0, false)];
      index := index[id := (if id in index then index[id] else []) + [k]];
      issues := issues[k := IssueOf(issues, k) + 1];
      e := None;
    }

    /** Revoke a key and issue a new one with the same powers; the old one stays revoked even when the
        new one is refused, unless the new one takes its address. */
    method RotateSessionKey(oldKey: Address, newKey: Address, ttl: nat, now: nat) returns (e: Option<Error>)
      requires Valid()
      modifies this`keys, this`index, this`issues
      ensures Valid()
      ensures oldKey !in old(keys) ==> e == Some(KeyNotFound) && keys == old(keys)
      ensures oldKey in old(keys) ==>
                var was := old(keys)[oldKey];
                var revoked := old(keys)[oldKey := was.(revoked := true)];
                keys == if e.Some? then revoked
                        else revoked[newKey := Key(was.agent, was.permissions, was.maxPerTx, now, now + ttl, 0, false)]
    {
      hide Books, Within, UsedOnce, Indexed, CountValid, Accounted;
      if oldKey !in keys {
        return Some(KeyNotFound);
      }
      var was := keys[oldKey];
      var revoked := RevokeSessionKey(oldKey);
      e := IssueSessionKey(was.agent, newKey, was.permissions, was.maxPerTx, ttl, now);
    }

    method RevokeSessionKey(k: Address) returns (e: Option<Error>)
      requires Valid()
      modifies this`keys
      ensures Valid() && e == (if k in old(keys) then None else Some(KeyNotFound))
      ensures keys == if k in old(keys) then old(keys)[k := old(keys)[k].(revoked := true)] else old(keys)
      ensures forall t: nat, n: nat :: KeyRefusal(k, n, t) == Some(if k in old(keys) then KeyRevoked else KeyNotFound)
    {
      hide Books, UsedOnce, Indexed, Accounted;
      if k !in keys {
        return Some(KeyNotFound);
      }
      RevokingOne(keys, uses, issues, index, k);
      keys := keys[k := keys[k].(revoked := true)];
      e := None;
    }

    /** Why a key cannot be used with this nonce now, if it cannot. */
    function KeyRefusal(k: Address, nonce: nat, now: nat): Option<Error>
      reads this
    {
      if k !in keys then Some(KeyNotFound)
      else if keys[k].revoked then Some(KeyRevoked)
      else if now >= keys[k].expiresAt then Some(KeyExpired)
      else if nonce != keys[k].nonce then Some(NonceMismatch)
      else None
    }

    /** Count a use of a key: its nonce moves past the one used. */
    method IncrementSessionKeyNonce(k: Address) returns (r: Result<nat>)
      requires Valid()
      modifies this`keys, this`uses
      ensures Valid() && r == if k in old(keys) then Ok(old(keys)[k].nonce + 1) else Err(KeyNotFound)
      ensures r.Ok? ==> keys == old(keys)[k := old(keys)[k].(nonce := r.value)]
                        && uses == old(uses) + [Use(k, IssueOf(issues, k), old(keys)[k].nonce)]
      ensures r.Ok? ==> forall t: nat, n: nat :: KeyRefusal(k, n, t).None? ==> n == old(keys)[k].nonce + 1
      ensures r.Err? ==> unchanged(this)
    {
      hide Books, UsedOnce, Indexed, Accounted;
      if k !in keys {
        return Err(KeyNotFound);
      }
      UsingKeeps(keys, uses, issues, index, k);
      uses := uses + [Use(k, IssueOf(issues, k), keys[k].nonce)];
      keys := keys[k := keys[k].(nonce := keys[k].nonce + 1)];
      r := Ok(keys[k].nonce);
    }

    /** Forget the keys that are no longer valid. */
    method PruneSessionKeys(now: nat)
      requires Valid()
      modifies this`keys, this`index
      ensures Valid() && keys == (map k | k in old(keys) && old(keys)[k].IsValid(now) :: old(keys)[k])
      ensures forall k | k in old(keys) ::
                k in keys <==> !old(keys)[k].revoked && old(keys)[k].issuedAt <= now < old(keys)[k].expiresAt
    {
      hide Books, UsedOnce, Indexed, Accounted, Kept;
      var dead := set k | k in keys && !keys[k].IsValid(now);
      PruningKeeps(keys, uses, issues, index, dead);
      keys := keys - dead;
      index := map id | id in index && Kept(index[id], dead) != [] :: Kept(index[id], dead);
    }

    /** An operation under a session key: the key first, then its own limits, then the agent's. */
    method ValidateAgentOperation(k: Address, perm: bv8, amount: nat, nonce: nat, now: nat) returns (r: Result<Id>)
      requires Valid()
      modifies this`agents
      ensures Valid() && agents.Keys == old(agents).Keys
      ensures r.Ok? ==> k in keys && (keys[k].permissions != [] ==> keys[k].permissions[0] & perm != 0)
                        && (keys[k].maxPerTx > 0 ==> amount <= keys[k].maxPerTx)
                        && !keys[k].revoked && now < keys[k].expiresAt && nonce == keys[k].nonce
      ensures r.Ok? <==> old(KeyRefusal(k, nonce, now)).None? && KeyAllows(keys[k], perm, amount)
                         && keys[k].agent in old(agents) && Refusal(old(agents)[keys[k].agent], perm, amount, now).None?
      ensures r.Ok? ==> r.value == keys[k].agent
                        && agents == old(agents)[r.value := Refreshed(old(agents)[r.value], now)]
                        && Refusal(agents[r.value], perm, amount, now).None?
      ensures r.Err? ==> forall id | id in agents ::
                           agents[id] == old(agents)[id] || agents[id] == Refreshed(old(agents)[id], now)
    {
      hide Books, UsedOnce, Indexed, Accounted, Cap128, Unspent, HasPermission, Refusal, Refreshed, Checked;
      var refused := KeyRefusal(k, nonce, now);
      if refused.Some? {
        return Err(refused.value);
      }
      var key := keys[k];
      KeyAllowsIff(key, perm, amount);
      hide KeyAllows;
      if key.permissions != [] && !HasPermission(key.permissions, perm) {
        return Err(PermissionDenied);
      }
      if key.maxPerTx > 0 && amount > key.maxPerTx {
        return Err(PerTxLimitExceeded);
      }
      ghost var before := agents;
      var e := CheckPermission(key.agent, perm, amount, now);
      if e.Some? {
        if key.agent in before {
          CheckedMeans(before[key.agent], perm, amount, now);
        }
        return Err(e.value);
      }
      RefreshOnce(before[key.agent], perm, amount, now);
      r := Ok(key.agent);
    }
  }

  /** Who gets a key: exactly an active agent, for at most a week, within its own permissions and limit, and
      with fewer than ten valid keys. */
  lemma IssuedIff(g: AgentGuard, id: Id, permissions: Mask, maxPerTx: nat, ttl: nat, now: nat)
    ensures g.IssueRefusal(id, permissions, maxPerTx, ttl, now).None?
       <==> && id in g.agents && g.agents[id].active && ttl <= 7 * 86_400
            && Within(permissions, g.agents[id].permissions)
            && (g.agents[id].maxPerTx > 0 ==> maxPerTx <= g.agents[id].maxPerTx)
            && (id in g.index ==> |ValidAt(g.index[id], g.keys, now)| < 10)
  {
    hide CountValid, ValidAt, Within;
    if id in g.index {
      CountsValid(g.index[id], g.keys, now);
    }
  }

  /** Issue a key and use it once. */
  method IssueAndUse(g: AgentGuard, id: Id, k: Address, permissions: Mask, maxPerTx: nat, ttl: nat, now: nat)
    returns (e: Option<Error>)
    requires g.Valid()
    modifies g`keys, g`index, g`issues, g`uses
    ensures g.Valid() && e == old(g.IssueRefusal(id, permissions, maxPerTx, ttl, now))
    ensures e.None? ==>
              && g.index == old(g.index)[id := (if id in old(g.index) then old(g.index)[id] else []) + [k]]
              && g.uses == old(g.uses) + [Use(k, IssueOf(old(g.issues), k) + 1, 0)]
    ensures e.Some? ==> unchanged(g)
  {
    hide Accounted, UsedOnce, Indexed, Within, CountValid, AgentGuard.IssueRefusal;
    e := g.IssueSessionKey(id, k, permissions, maxPerTx, ttl, now);
    if e.None? {
      var used := g.IncrementSessionKeyNonce(k);
    }
  }

  /** The failing run: an address issued, used, issued again and used again has used nonce zero twice. An
      agent that may issue the key and has none yet comes through it. */
  method ReissuedKeyRepeats(g: AgentGuard, id: Id, k: Address, permissions: Mask, maxPerTx: nat, ttl: nat, now: nat)
    returns (e: Option<Error>)
    requires g.Valid()
    modifies g`keys, g`index, g`issues, g`uses
    ensures g.Valid() && (e.None? ==> Repeats(g.uses, k))
    ensures id !in old(g.index) && old(g.IssueRefusal(id, permissions, maxPerTx, ttl, now)).None? ==> e.None?
  {
    hide Accounted, UsedOnce, Indexed, Within, CountValid, Repeats;
    e := IssueAndUse(g, id, k, permissions, maxPerTx, ttl, now);
    if e.None? {
      OneKeyCounts(k, g.keys, now);
      e := IssueAndUse(g, id, k, permissions, maxPerTx, ttl, now);
      if e.None? {
        LastTwoRepeat(g.uses, k);
      }
    }
  }

  lemma OneKeyCounts(k: Address, keys: map<Address, Key>, now: nat)
    ensures CountValid([k], keys, now) <= 1 && [] + [k] == [k]
  {
  }

  lemma LastTwoRepeat(uses: seq<Use>, k: Address)
    requires |uses| >= 2 && uses[|uses| - 2].key == uses[|uses| - 1].key == k
    requires uses[|uses| - 2].nonce == uses[|uses| - 1].nonce
    ensures Repeats(uses, k)
  {
  }

  predicate KeyAllows(key: Key, perm: bv8, amount: nat) {
    (key.permissions == [] || HasPermission(key.permissions, perm)) && (key.maxPerTx == 0 || amount <= key.maxPerTx)
  }

  /** What a key allows on its own: what its mask, if any, has the bit for, within its limit, if any. */
  lemma KeyAllowsIff(key: Key, perm: bv8, amount: nat)
    ensures KeyAllows(key, perm, amount)
       <==> && (key.permissions != [] ==> key.permissions[0] & perm != 0)
            && (key.maxPerTx > 0 ==> amount <= key.maxPerTx)
    ensures KeyAllows(key, perm, amount)
       <==> && (key.permissions != [] ==> HasPermission(key.permissions, perm))
            && (key.maxPerTx > 0 ==> amount <= key.maxPerTx)
  {
  }

  lemma CheckedMeans(a: Agent, perm: bv8, amount: nat, now: nat)
    ensures Checked(a, perm, amount, now) in {a, Refreshed(a, now)}
  {
    hide HasPermission;
  }

  /** Checking again at the same time changes nothing. */
  lemma RefreshOnce(a: Agent, perm: bv8, amount: nat, now: nat)
    requires Refusal(a, perm, amount, now).None?
    ensures Checked(a, perm, amount, now) == Refreshed(a, now)
    ensures Refusal(Refreshed(a, now), perm, amount, now).None?
  {
  }

  function Kept(list: seq<Address>, dead: set<Address>): seq<Address> {
    if list == [] then [] else
      Kept(list[..|list| - 1], dead) + if list[|list| - 1] in dead then [] else [list[|list| - 1]]
  }

  lemma {:induction false} KeptKeeps(list: seq<Address>, dead: set<Address>, k: Address)
    requires k in list && k !in dead
    ensures k in Kept(list, dead)
  {
    if list[|list| - 1] != k {
      KeptKeeps(list[..|list| - 1], dead, k);
    }
  }

  lemma PruningKeeps(keys: map<Address, Key>, uses: seq<Use>, issues: map<Address, nat>, index: map<Id, seq<Address>>,
                     dead: set<Address>)
    requires UsedOnce(uses, keys, issues) && Indexed(keys, index)
    ensures UsedOnce(uses, keys - dead, issues)
    ensures Indexed(keys - dead, map id | id in index && Kept(index[id], dead) != [] :: Kept(index[id], dead))
  {
    forall k | k in keys - dead ensures k in Kept(index[keys[k].agent], dead) {
      KeptKeeps(index[keys[k].agent], dead, k);
    }
  }

  lemma IssuingKeeps(keys: map<Address, Key>, uses: seq<Use>, issues: map<Address, nat>, index: map<Id, seq<Address>>,
                     id: Id, k: Address, key: Key)
    requires UsedOnce(uses, keys, issues) && Indexed(keys, index) && key.agent == id && key.nonce == 0
    ensures UsedOnce(uses, keys[k := key], issues[k := IssueOf(issues, k) + 1])
    ensures Indexed(keys[k := key], index[id := (if id in index then index[id] else []) + [k]])
  {
  }

  lemma RevokingOne(keys: map<Address, Key>, uses: seq<Use>, issues: map<Address, nat>, index: map<Id, seq<Address>>,
                    k: Address)
    requires UsedOnce(uses, keys, issues) && Indexed(keys, index) && k in keys
    ensures UsedOnce(uses, keys[k := keys[k].(revoked := true)], issues)
    ensures Indexed(keys[k := keys[k].(revoked := true)], index)
  {
  }

  lemma UsingKeeps(keys: map<Address, Key>, uses: seq<Use>, issues: map<Address, nat>, index: map<Id, seq<Address>>,
                   k: Address)
    requires UsedOnce(uses, keys, issues) && Indexed(keys, index) && k in keys
    ensures UsedOnce(uses + [Use(k, IssueOf(issues, k), keys[k].nonce)],
                     keys[k := keys[k].(nonce := keys[k].nonce + 1)], issues)
    ensures Indexed(keys[k := keys[k].(nonce := keys[k].nonce + 1)], index)
  {
    assert Use(k, IssueOf(issues, k), keys[k].nonce) !in uses;
  }

  /** Keys are the same up to revocation. */
  ghost predicate Revokes(before: map<Address, Key>, after: map<Address, Key>) {
    && after.Keys == before.Keys
    && forall k | k in after :: after[k] == before[k] || after[k] == before[k].(revoked := true)
  }

  lemma IdleKeepsBooks(a: Agent, funded: nat, spends: seq<Spend>)
    ensures Books(a, funded, spends) ==> Books(a.(active := false), funded, spends)
    ensures Unspent(a, funded, spends) ==> Unspent(a.(active := false), funded, spends)
  {
  }

  lemma RevokingKeeps(before: map<Address, Key>, after: map<Address, Key>, uses: seq<Use>, issues: map<Address, nat>,
                      index: map<Id, seq<Address>>, id: Id)
    requires UsedOnce(uses, before, issues) && Indexed(before, index) && Revokes(before, after)
    requires id in index ==> forall k | k in index[id] && k in after :: after[k].revoked
    ensures UsedOnce(uses, after, issues) && Indexed(after, index)
    ensures forall k | k in after && after[k].agent == id :: after[k].revoked
  {
    forall k | k in after ensures after[k].agent == before[k].agent && after[k].nonce == before[k].nonce {
    }
  }
}
