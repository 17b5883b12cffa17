/** Epoch settlement: a pure function of what was accepted and penalised, whatever the order it
    arrived in, and a pro-rata split that conserves the pool. */
module Settlement {
  import opened Common
  import opened Sorting
  import opened Sums

  const BPS: nat := 10_000

  datatype Record = Record(worker: Address, epoch: nat, clock: nat, start: nat, end: nat, update: Hash, flops: nat)
  datatype Penalty = Penalty(worker: Address, job: Hash, epoch: nat, amount: nat, voids: bool, jailMs: nat)
  datatype Slash = Slash(validator: Address, amount: nat, jailUntil: nat)
  datatype Reward = Reward(worker: Address, amount: nat)

  datatype Commit = Commit(job: Hash, epoch: nat, params: Hash, root: Hash, accepted: nat, flops: nat)
  datatype Settled = Settled(commit: Commit, rewards: seq<Reward>, slashes: seq<Slash>, reserve: nat, budget: nat)

  datatype Outcome = Outcome(epoch: nat, params: Hash, accepted: seq<Record>)

  // ---------- The records root ----------

  /** The canonical order: worker, epoch, clock, range, update hash; FLOPs are not compared. */
  predicate ByKeys(a: Record, b: Record) {
    a.worker < b.worker || (a.worker == b.worker && (
      a.epoch < b.epoch || (a.epoch == b.epoch && (
        a.clock < b.clock || (a.clock == b.clock && (
          a.start < b.start || (a.start == b.start && (
            a.end < b.end || (a.end == b.end && a.update <= b.update)))))))))
  }

  /** All six keys are the same. */
  predicate SameKeys(a: Record, b: Record) {
    && a.worker == b.worker && a.epoch == b.epoch && a.clock == b.clock && a.start == b.start && a.end == b.end
    && a.update == b.update
  }

  /** Records with the same six keys are the same record. */
  ghost predicate KeysDecide(records: seq<Record>) {
    forall x, y | x in records && y in records && SameKeys(x, y) :: x == y
  }

  /** The order compares the keys one after the other: whichever differs first decides. */
  lemma FirstDifferenceDecides(a: Record, b: Record)
    ensures a.worker < b.worker ==> ByKeys(a, b) && !ByKeys(b, a)
    ensures a.worker == b.worker && a.epoch < b.epoch ==> ByKeys(a, b) && !ByKeys(b, a)
    ensures a.worker == b.worker && a.epoch == b.epoch && a.clock < b.clock ==> ByKeys(a, b) && !ByKeys(b, a)
    ensures a.worker == b.worker && a.epoch == b.epoch && a.clock == b.clock && a.start < b.start ==>
              ByKeys(a, b) && !ByKeys(b, a)
    ensures a.worker == b.worker && a.epoch == b.epoch && a.clock == b.clock && a.start == b.start && a.end < b.end ==>
              ByKeys(a, b) && !ByKeys(b, a)
    ensures SameKeys(a, b.(update := a.update)) && a.update < b.update ==> ByKeys(a, b) && !ByKeys(b, a)
    ensures SameKeys(a, b) <==> ByKeys(a, b) && ByKeys(b, a)
  {
  }

  lemma KeysDecideIff(records: seq<Record>)
    ensures KeysDecide(records) <==> NoTies(records, ByKeys)
  {
    forall x, y | x in records && y in records ensures SameKeys(x, y) <==> ByKeys(x, y) && ByKeys(y, x) {
      FirstDifferenceDecides(x, y);
    }
  }

  lemma ByKeysIsTotal()
    ensures TotalPreorder(ByKeys)
  {
  }

  /** The root hashes the canonically ordered records; `hash` stands for the streamed hasher. */
  function RecordsRoot(hash: seq<Record> -> Hash, records: seq<Record>): Hash {
    hash(Sort(records, ByKeys))
  }

  ghost predicate Injective(hash: seq<Record> -> Hash) {
    forall a, b | hash(a) == hash(b) :: a == b
  }

  /** The root is the same for every arrival order exactly when no two different records agree on all
      six sort keys (the FLOPs, which the order leaves out, would then leak the arrival order). */
  lemma RootIgnoresOrderIff(hash: seq<Record> -> Hash, records: seq<Record>)
    requires Injective(hash)
    ensures KeysDecide(records) <==>
            forall other: seq<Record> | multiset(other) == multiset(records) ::
              RecordsRoot(hash, other) == RecordsRoot(hash, records)
  {
    hide TotalPreorder, ByKeys, Sort, KeysDecide;
    ByKeysIsTotal();
    KeysDecideIff(records);
    if NoTies(records, ByKeys) {
      forall other: seq<Record> | multiset(other) == multiset(records)
        ensures RecordsRoot(hash, other) == RecordsRoot(hash, records)
      {
        SortIgnoresOrder(records, other, ByKeys);
      }
    } else {
      var i, j := FindTie(records);
      TieLeaksOrder(records, i, j, ByKeys);
      assert RecordsRoot(hash, Swapped(records, i, j)) != RecordsRoot(hash, records);
    }
  }

  lemma FindTie(records: seq<Record>) returns (i: nat, j: nat)
    requires !NoTies(records, ByKeys) && TotalPreorder(ByKeys)
    ensures i < j < |records| && records[i] != records[j] && Ties(records[i], records[j], ByKeys)
  {
    hide ByKeys, TotalPreorder;
    var x, y :| x in records && y in records && ByKeys(x, y) && ByKeys(y, x) && x != y;
    var a :| 0 <= a < |records| && records[a] == x;
    var b :| 0 <= b < |records| && records[b] == y;
    i, j := if a < b then a else b, if a < b then b else a;
  }

  // ---------- Slashes ----------

  function PenaltyToSlash(p: Penalty, now: nat): Slash {
    Slash(p.worker, p.amount, if now + p.jailMs < U64_MAX then now + p.jailMs else U64_MAX)
  }

  predicate BySlash(a: Slash, b: Slash) {
    a.validator < b.validator || (a.validator == b.validator && (
      a.amount < b.amount || (a.amount == b.amount && a.jailUntil <= b.jailUntil)))
  }

  function SlashesOf(penalties: seq<Penalty>, now: nat): seq<Slash> {
    seq(|penalties|, i requires 0 <= i < |penalties| => PenaltyToSlash(penalties[i], now))
  }

  lemma {:induction false} SlashesPermute(a: seq<Penalty>, b: seq<Penalty>, now: nat)
    requires multiset(a) == multiset(b)
    ensures multiset(SlashesOf(a, now)) == multiset(SlashesOf(b, now))
    decreases |a|
  {
    if a == [] {
      assert |multiset(b)| == 0;
    } else {
      var k := FindLast(a, b);
      SlashesPermute(a[..|a| - 1], b[..k] + b[k + 1..], now);
      SlashesSplit(a, |a| - 1, now);
      SlashesSplit(b, k, now);
    }
  }

  lemma SlashesSplit(a: seq<Penalty>, k: nat, now: nat)
    requires k < |a|
    ensures multiset(SlashesOf(a, now))
         == multiset(SlashesOf(a[..k] + a[k + 1..], now)) + multiset{PenaltyToSlash(a[k], now)}
    ensures k == |a| - 1 ==> a[..k] + a[k + 1..] == a[..k]
  {
    var x := [PenaltyToSlash(a[k], now)];
    assert SlashesOf(a, now) == SlashesOf(a[..k], now) + x + SlashesOf(a[k + 1..], now);
    assert SlashesOf(a[..k] + a[k + 1..], now) == SlashesOf(a[..k], now) + SlashesOf(a[k + 1..], now);
  }

  /** Slashes compare on their whole content, so their order never depends on the penalties'. */
  lemma SlashesIgnoreOrder(a: seq<Penalty>, b: seq<Penalty>, now: nat)
    requires multiset(a) == multiset(b)
    ensures Sort(SlashesOf(a, now), BySlash) == Sort(SlashesOf(b, now), BySlash)
  {
    SlashesPermute(a, b, now);
    assert TotalPreorder(BySlash);
    SortIgnoresOrder(SlashesOf(a, now), SlashesOf(b, now), BySlash);
  }

  function SlashAmount(): Slash -> nat { (s: Slash) => s.amount }

  function PenaltyAmount(): Penalty -> nat { (p: Penalty) => p.amount }

  /** The slash takes the penalty's amount from its worker and jails it until the penalty's term is over, or
      for ever once that is beyond 64 bits. */
  ghost predicate Carries(s: Slash, p: Penalty, now: nat) {
    && s.validator == p.worker && s.amount == p.amount
    && (now + p.jailMs <= U64_MAX ==> s.jailUntil == now + p.jailMs)
    && (now + p.jailMs > U64_MAX ==> s.jailUntil == U64_MAX)
  }

  /** The slashes are those of the penalties: as many, each carrying one, and every penalty carried, in
      order of worker, amount and term, and together they take what the penalties name. */
  lemma SlashesCarryPenalties(penalties: seq<Penalty>, now: nat)
    ensures var slashes := Sort(SlashesOf(penalties, now), BySlash);
            && |slashes| == |penalties|
            && (forall s | s in slashes :: exists p | p in penalties :: Carries(s, p, now))
            && (forall p | p in penalties :: exists s | s in slashes :: Carries(s, p, now))
            && Sum(slashes, SlashAmount()) == Sum(penalties, PenaltyAmount())
            && (forall i, j | 0 <= i < j < |slashes| ::
                  slashes[i].validator < slashes[j].validator
                  || (slashes[i].validator == slashes[j].validator && slashes[i].amount <= slashes[j].amount))
  {
    hide Sort, Sum;
    var raw := SlashesOf(penalties, now);
    var slashes := Sort(raw, BySlash);
    SortPermutes(raw, BySlash);
    assert TotalPreorder(BySlash);
    SortSorts(raw, BySlash);
    SumPermutes(slashes, raw, SlashAmount());
    SlashesTakeAmounts(penalties, now);
    forall s | s in slashes ensures exists p | p in penalties :: Carries(s, p, now) {
      assert s in multiset(slashes) && s in raw;
      var i :| 0 <= i < |raw| && raw[i] == s;
      assert penalties[i] in penalties && Carries(s, penalties[i], now);
    }
    forall p | p in penalties ensures exists s | s in slashes :: Carries(s, p, now) {
      var i :| 0 <= i < |penalties| && penalties[i] == p;
      assert raw[i] in multiset(raw) && raw[i] in slashes && Carries(raw[i], p, now);
    }
  }

  lemma {:induction false} SlashesTakeAmounts(penalties: seq<Penalty>, now: nat)
    ensures Sum(SlashesOf(penalties, now), SlashAmount()) == Sum(penalties, PenaltyAmount())
  {
    if penalties != [] {
      var n := |penalties| - 1;
      SlashesTakeAmounts(penalties[..n], now);
      assert SlashesOf(penalties, now)[..n] == SlashesOf(penalties[..n], now);
    }
  }

  // ---------- Rewards ----------

  function Voided(penalties: seq<Penalty>): set<Address> {
    set p | p in penalties && p.voids :: p.worker
  }

  /** What a record earns towards the pro-rata split, and what it earns for one worker. */
  function Payable(voided: set<Address>): Record -> nat {
    (r: Record) => if r.worker in voided then 0 else r.flops
  }

  function PayableTo(voided: set<Address>, w: Address): Record -> nat {
    (r: Record) => if r.worker in voided || r.worker != w then 0 else r.flops
  }

  function FlopsOf(records: seq<Record>, voided: set<Address>): Address -> nat {
    (w: Address) => Sum(records, PayableTo(voided, w))
  }

  function TotalFlops(records: seq<Record>, voided: set<Address>): nat {
    Sum(records, Payable(voided))
  }

  function Share(pool: nat, flops: nat, total: nat): nat {
    if total == 0 then 0 else pool * flops / total
  }

  function Payees(rewards: seq<Reward>): seq<Address> {
    seq(|rewards|, i requires 0 <= i < |rewards| => rewards[i].worker)
  }

  /** `amount` is the non-zero pro-rata share of `w`. */
  ghost predicate Earns(w: Address, amount: nat, records: seq<Record>, voided: set<Address>, pool: nat) {
    amount > 0 && amount == Share(pool, FlopsOf(records, voided)(w), TotalFlops(records, voided))
  }

  /** One credit per worker with a non-zero share, in ascending worker order, and no other. */
  ghost predicate Pays(rewards: seq<Reward>, records: seq<Record>, voided: set<Address>, pool: nat) {
    && Ascending(Payees(rewards))
    && (forall r :: r in rewards <==> Earns(r.worker, r.amount, records, voided, pool))
  }

  /** A worker with a share has a record that is not voided. */
  lemma {:induction false} NoRecordsNoFlops(records: seq<Record>, voided: set<Address>, w: Address)
    requires w in voided || forall r | r in records :: r.worker != w
    ensures FlopsOf(records, voided)(w) == 0
  {
    if records != [] {
      NoRecordsNoFlops(records[..|records| - 1], voided, w);
    }
  }

  /** A voided worker is paid nothing. */
  lemma VoidedEarnsNothing(rewards: seq<Reward>, records: seq<Record>, voided: set<Address>, pool: nat, r: Reward)
    requires Pays(rewards, records, voided, pool) && r.worker in voided
    ensures r !in rewards
  {
    NoRecordsNoFlops(records, voided, r.worker);
  }

  /** The credits do not depend on the order of the records. */
  lemma PayoutIgnoresOrder(a: seq<Reward>, b: seq<Reward>, records: seq<Record>, other: seq<Record>,
                           voided: set<Address>, pool: nat)
    requires multiset(records) == multiset(other)
    requires Pays(a, records, voided, pool) && Pays(b, other, voided, pool)
    ensures a == b
  {
    SumPermutes(records, other, Payable(voided));
    forall w, amount
      ensures Earns(w, amount, records, voided, pool) <==> Earns(w, amount, other, voided, pool)
    {
      SumPermutes(records, other, PayableTo(voided, w));
    }
    assert forall r :: r in a <==> r in b;
    SameCredits(a, b);
  }

  lemma SameCredits(a: seq<Reward>, b: seq<Reward>)
    requires Ascending(Payees(a)) && Ascending(Payees(b))
    requires forall r :: r in a <==> r in b
    ensures a == b
  {
    forall w ensures w in Payees(a) <==> w in Payees(b) {
      PayeeHasCredit(a, w);
      PayeeHasCredit(b, w);
    }
    AscendingIsUnique(Payees(a), Payees(b));
    assert |a| == |Payees(a)| == |Payees(b)| == |b|;
    forall i | 0 <= i < |a| ensures a[i] == b[i] {
      assert a[i] in b;
      var j :| 0 <= j < |b| && b[j] == a[i];
      assert Payees(b)[j] == Payees(a)[i] == Payees(b)[i];
    }
  }

  lemma PayeeHasCredit(a: seq<Reward>, w: Address)
    ensures w in Payees(a) <==> exists r :: r in a && r.worker == w
  {
    if w in Payees(a) {
      var i :| 0 <= i < |a| && Payees(a)[i] == w;
      assert a[i] in a;
    }
    if r :| r in a && r.worker == w {
      var i :| 0 <= i < |a| && a[i] == r;
      assert Payees(a)[i] == w;
    }
  }

  // ---------- The pool is conserved ----------

  function Amount(): Reward -> nat {
    (r: Reward) => r.amount
  }

  function ShareOf(pool: nat, flops: Address -> nat, total: nat): Address -> nat {
    (w: Address) => Share(pool, flops(w), total)
  }

  /** The workers whose records that count hold any FLOPs. */
  function Earners(records: seq<Record>, voided: set<Address>): set<Address> {
    set r | r in records && Payable(voided)(r) > 0 :: r.worker
  }

  /** The credits and the reserve never exceed the pool; the undistributed rest of the worker pool is
      smaller than the number of workers whose FLOPs count, whenever there is one. */
  lemma PoolIsConserved(rewards: seq<Reward>, records: seq<Record>, voided: set<Address>, pool: nat)
    requires Pays(rewards, records, voided, pool)
    ensures Sum(rewards, Amount()) <= pool
    ensures TotalFlops(records, voided) > 0 ==>
              pool - Sum(rewards, Amount()) < |Earners(records, voided)|
    ensures TotalFlops(records, voided) == 0 ==> rewards == []
  {
    var total := TotalFlops(records, voided);
    if total == 0 {
      assert rewards == [] || !Earns(rewards[0].worker, rewards[0].amount, records, voided, pool);
    } else {
      var flops := FlopsOf(records, voided);
      var ws := PayeesThenOthers(rewards, records, voided, pool);
      DistinctSize(ws);
      CreditsAreShares(rewards, records, voided, pool, ws);
      FlopsAddUp(records, voided, ws);
      Quotients(pool, flops, total, ws);
      Undistributed(pool, total, Sum(ws, ShareOf(pool, flops, total)), |ws|);
    }
  }

  /** All earners without repetition, the paid ones first. */
  lemma PayeesThenOthers(rewards: seq<Reward>, records: seq<Record>, voided: set<Address>, pool: nat)
    returns (ws: seq<Address>)
    requires Pays(rewards, records, voided, pool)
    ensures Distinct(ws) && Elements(ws) == Earners(records, voided)
    ensures Payees(rewards) <= ws
  {
    var paid := Payees(rewards);
    forall w | w in paid ensures w in Earners(records, voided) {
      PayeeHasCredit(rewards, w);
      var r :| r in rewards && r.worker == w;
      assert Earns(r.worker, r.amount, records, voided, pool);
      FlopsMakeAnEarner(records, voided, w);
    }
    var others := ListOf(Earners(records, voided) - Elements(paid));
    ws := paid + others;
    forall i, j | 0 <= i < j < |ws| ensures ws[i] != ws[j] {
      if i < |paid| <= j {
        assert ws[i] in Elements(paid) && ws[j] in Elements(others);
      }
    }
    assert Elements(ws) == Elements(paid) + Elements(others);
  }

  lemma {:induction false} FlopsMakeAnEarner(records: seq<Record>, voided: set<Address>, w: Address)
    ensures w in Earners(records, voided) || FlopsOf(records, voided)(w) == 0
  {
    if records != [] {
      var front, last := records[..|records| - 1], records[|records| - 1];
      assert last in records;
      FlopsMakeAnEarner(front, voided, w);
    }
  }

  lemma {:induction false} ListOf(s: set<Address>) returns (list: seq<Address>)
    ensures Distinct(list) && Elements(list) == s
  {
    list := [];
    if s != {} {
      var x :| x in s;
      var rest := ListOf(s - {x});
      assert x !in Elements(rest);
      list := rest + [x];
      assert Elements(list) == Elements(rest) + {x};
    }
  }

  /** The credits are the shares of all earners: those without a credit have a zero share. */
  lemma CreditsAreShares(rewards: seq<Reward>, records: seq<Record>, voided: set<Address>, pool: nat,
                         ws: seq<Address>)
    requires Pays(rewards, records, voided, pool)
    requires Distinct(ws) && Payees(rewards) <= ws
    ensures Sum(rewards, Amount()) == Sum(ws, ShareOf(pool, FlopsOf(records, voided), TotalFlops(records, voided)))
  {
    var share := ShareOf(pool, FlopsOf(records, voided), TotalFlops(records, voided));
    var n := |rewards|;
    forall i | 0 <= i < n ensures share(ws[i]) == rewards[i].amount {
      assert rewards[i] in rewards && Payees(rewards)[i] == ws[i];
    }
    forall i | n <= i < |ws| ensures share(ws[i]) == 0 {
      var r := Reward(ws[i], share(ws[i]));
      forall k | 0 <= k < n ensures rewards[k] != r {
        assert Payees(rewards)[k] == ws[k];
      }
      assert !Earns(r.worker, r.amount, records, voided, pool);
    }
    PrefixSum(rewards, ws, share, |ws|);
    assert rewards[..n] == rewards && ws[..|ws|] == ws;
  }

  lemma {:induction false} PrefixSum(rewards: seq<Reward>, ws: seq<Address>, share: Address -> nat, n: nat)
    requires |rewards| <= |ws| && n <= |ws|
    requires forall i | 0 <= i < |rewards| :: share(ws[i]) == rewards[i].amount
    requires forall i | |rewards| <= i < |ws| :: share(ws[i]) == 0
    ensures Sum(ws[..n], share) == Sum(rewards[..if n < |rewards| then n else |rewards|], Amount())
  {
    if n > 0 {
      PrefixSum(rewards, ws, share, n - 1);
      assert ws[..n] == ws[..n - 1] + [ws[n - 1]];
      SumSnoc(ws[..n - 1], ws[n - 1], share);
      if n <= |rewards| {
        assert rewards[..n] == rewards[..n - 1] + [rewards[n - 1]];
        SumSnoc(rewards[..n - 1], rewards[n - 1], Amount());
      }
    }
  }

  /** The FLOPs of all earners are the FLOPs of all records that count. */
  lemma {:induction false} FlopsAddUp(records: seq<Record>, voided: set<Address>, ws: seq<Address>)
    requires Distinct(ws) && Earners(records, voided) <= Elements(ws)
    ensures Sum(ws, FlopsOf(records, voided)) == TotalFlops(records, voided)
  {
    if records == [] {
      ZeroEverywhere(ws, FlopsOf(records, voided));
    } else {
      var front, last := records[..|records| - 1], records[|records| - 1];
      assert last in records;
      assert Earners(front, voided) <= Earners(records, voided);
      FlopsAddUp(front, voided, ws);
      var gain := Payable(voided)(last);
      assert gain > 0 ==> last.worker in Elements(ws);
      BumpOne(ws, FlopsOf(front, voided), FlopsOf(records, voided), last.worker, gain);
    }
  }

  lemma {:induction false} ZeroEverywhere(ws: seq<Address>, f: Address -> nat)
    requires forall w | w in ws :: f(w) == 0
    ensures Sum(ws, f) == 0
  {
    if ws != [] {
      ZeroEverywhere(ws[..|ws| - 1], f);
    }
  }

  lemma {:induction false} BumpOne(ws: seq<Address>, f: Address -> nat, g: Address -> nat, w: Address, gain: nat)
    requires Distinct(ws)
    requires forall x | x != w :: g(x) == f(x)
    requires g(w) == f(w) + gain
    ensures Sum(ws, g) == Sum(ws, f) + if w in ws then gain else 0
  {
    if ws != [] {
      BumpOne(ws[..|ws| - 1], f, g, w, gain);
    }
  }

  /** Each floor loses less than one share. */
  lemma {:induction false} Quotients(pool: nat, flops: Address -> nat, total: nat, ws: seq<Address>)
    requires total > 0
    ensures var paid := Sum(ws, ShareOf(pool, flops, total));
            total * paid <= pool * Sum(ws, flops) <= total * paid + (total - 1) * |ws|
  {
    if ws != [] {
      var front, last := ws[..|ws| - 1], ws[|ws| - 1];
      Quotients(pool, flops, total, front);
      OneQuotient(pool, flops(last), total);
      AddQuotient(pool, total, Sum(front, flops), Sum(front, ShareOf(pool, flops, total)), |front|,
                  flops(last), Share(pool, flops(last), total));
    }
  }

  lemma AddQuotient(pool: nat, total: nat, flops: nat, paid: nat, n: nat, more: nat, share: nat)
    requires total > 0
    requires total * paid <= pool * flops <= total * paid + (total - 1) * n
    requires total * share <= pool * more <= total * share + (total - 1)
    ensures total * (paid + share) <= pool * (flops + more) <= total * (paid + share) + (total - 1) * (n + 1)
  {
  }

  lemma OneQuotient(pool: nat, flops: nat, total: nat)
    requires total > 0
    ensures total * Share(pool, flops, total) <= pool * flops <= total * Share(pool, flops, total) + (total - 1)
  {
    var product := pool * flops;
    assert product == total * (product / total) + product % total;
  }

  lemma Undistributed(pool: nat, total: nat, paid: nat, n: nat)
    requires total > 0
    requires total * paid <= pool * total <= total * paid + (total - 1) * n
    ensures paid <= pool && (n > 0 ==> pool - paid < n)
  {
    CancelFactor(total, paid, pool + 1);
    if n > 0 {
      assert total * paid + (total - 1) * n < total * (paid + n);
      CancelFactor(total, pool, paid + n);
    }
  }

  lemma CancelFactor(d: nat, x: nat, y: nat)
    requires d * x < d * y
    ensures x < y
  {
  }

  /** More FLOPs never earn less. */
  lemma MoreFlopsNeverEarnLess(pool: nat, less: nat, more: nat, total: nat)
    requires less <= more
    ensures Share(pool, less, total) <= Share(pool, more, total)
  {
    if total > 0 {
      assert pool * less <= pool * more;
      DivisionIsMonotone(pool * less, pool * more, total);
    }
  }

  lemma DivisionIsMonotone(a: nat, b: nat, d: nat)
    requires a <= b && d > 0
    ensures a / d <= b / d
  {
    assert a == d * (a / d) + a % d && b == d * (b / d) + b % d;
    assert d * (a / d) < d * (b / d + 1);
    CancelFactor(d, a / d, b / d + 1);
  }

  // ---------- Machine widths ----------

  const U128: nat := 0x1_0000_0000_0000_0000 * 0x1_0000_0000_0000_0000

  lemma {:induction false} FlopsAreBounded(records: seq<Record>, f: Record -> nat)
    requires forall r | r in records :: f(r) <= U64_MAX
    ensures Sum(records, f) <= U64_MAX * |records|
  {
    if records != [] {
      FlopsAreBounded(records[..|records| - 1], f);
    }
  }

  /** With a 128-bit pool and 64-bit FLOPs no sum leaves 128 bits, no product leaves 256 bits, and every
      share fits the pool, so the narrowing back to 128 bits is exact. */
  lemma NothingOverflows(records: seq<Record>, voided: set<Address>, pool: nat, w: Address)
    requires pool < U128 && |records| <= U64_MAX
    requires forall r | r in records :: r.flops <= U64_MAX
    ensures FlopsOf(records, voided)(w) <= TotalFlops(records, voided) < U128
    ensures pool * FlopsOf(records, voided)(w) < U128 * U128
    ensures Share(pool, FlopsOf(records, voided)(w), TotalFlops(records, voided)) <= pool
  {
    var flops, total := FlopsOf(records, voided)(w), TotalFlops(records, voided);
    FlopsAreBounded(records, Payable(voided));
    assert U64_MAX * |records| <= U64_MAX * U64_MAX by { ScaleUp(U64_MAX, |records|, U64_MAX); }
    OneOfAll(records, voided, w);
    ScaleUp(pool, flops, U128);
    assert U128 * pool < U128 * U128;
    if total > 0 {
      OneQuotient(pool, flops, total);
      ScaleUp(pool, flops, total);
      CancelFactor(total, Share(pool, flops, total), pool + 1);
    }
  }

  lemma ScaleUp(a: nat, b: nat, c: nat)
    requires b <= c
    ensures a * b <= a * c
  {
  }

  lemma {:induction false} OneOfAll(records: seq<Record>, voided: set<Address>, w: Address)
    ensures FlopsOf(records, voided)(w) <= TotalFlops(records, voided)
  {
    if records != [] {
      OneOfAll(records[..|records| - 1], voided, w);
    }
  }

  // ---------- Settling one epoch ----------

  datatype Error =
    | RecordEpochMismatch(worker: Address, found: nat, epoch: nat)
    | PenaltyEpochMismatch(worker: Address, found: nat, epoch: nat)
    | PenaltyJobMismatch(worker: Address, foundJob: Hash, job: Hash)

  datatype Result = Ok(settled: Settled) | Err(error: Error)

  predicate GoodRecord(r: Record, epoch: nat) {
    r.epoch == epoch
  }

  predicate GoodPenalty(p: Penalty, epoch: nat, job: Hash) {
    p.epoch == epoch && p.job == job
  }

  predicate Consistent(outcome: Outcome, job: Hash, penalties: seq<Penalty>) {
    && (forall r | r in outcome.accepted :: GoodRecord(r, outcome.epoch))
    && (forall p | p in penalties :: GoodPenalty(p, outcome.epoch, job))
  }

  /** The error names the first record, or else the first penalty, that does not belong. */
  predicate Explains(e: Error, outcome: Outcome, job: Hash, penalties: seq<Penalty>) {
    || (exists i | 0 <= i < |outcome.accepted| ::
          && !GoodRecord(outcome.accepted[i], outcome.epoch)
          && (forall k | 0 <= k < i :: GoodRecord(outcome.accepted[k], outcome.epoch))
          && e == RecordEpochMismatch(outcome.accepted[i].worker, outcome.accepted[i].epoch, outcome.epoch))
    || ((forall r | r in outcome.accepted :: GoodRecord(r, outcome.epoch))
        && exists i | 0 <= i < |penalties| ::
          && !GoodPenalty(penalties[i], outcome.epoch, job)
          && (forall k | 0 <= k < i :: GoodPenalty(penalties[k], outcome.epoch, job))
          && e == WrongPenalty(penalties[i], outcome.epoch, job))
  }

  function WrongPenalty(p: Penalty, epoch: nat, job: Hash): Error {
    if p.epoch != epoch then PenaltyEpochMismatch(p.worker, p.epoch, epoch)
    else PenaltyJobMismatch(p.worker, p.job, job)
  }

  function Flops(): Record -> nat {
    (r: Record) => r.flops
  }

  /** What settling an epoch produces, said without naming any order. */
  ghost predicate Settles(hash: seq<Record> -> Hash, outcome: Outcome, job: Hash, penalties: seq<Penalty>,
                          pool: nat, bps: nat, now: nat, s: Settled)
    requires bps <= BPS
  {
    && s.commit == Commit(job, outcome.epoch, outcome.params, RecordsRoot(hash, outcome.accepted),
                          |outcome.accepted|, Cap64(Sum(outcome.accepted, Flops())))
    && s.reserve == pool * bps / BPS <= pool
    && Pays(s.rewards, outcome.accepted, Voided(penalties), pool - s.reserve)
    && s.slashes == Sort(SlashesOf(penalties, now), BySlash)
    && s.budget == s.commit.flops * bps / BPS
  }

  /** Every permutation of the records and of the penalties settles to the same result. */
  lemma SettlementIgnoresOrder(hash: seq<Record> -> Hash, outcome: Outcome, other: seq<Record>, job: Hash,
                               penalties: seq<Penalty>, others: seq<Penalty>, pool: nat, bps: nat, now: nat,
                               s: Settled, t: Settled)
    requires bps <= BPS
    requires multiset(outcome.accepted) == multiset(other) && multiset(penalties) == multiset(others)
    requires KeysDecide(outcome.accepted)
    requires Settles(hash, outcome, job, penalties, pool, bps, now, s)
    requires Settles(hash, outcome.(accepted := other), job, others, pool, bps, now, t)
    ensures s == t
    ensures Consistent(outcome, job, penalties) <==> Consistent(outcome.(accepted := other), job, others)
  {
    hide ByKeys, BySlash, TotalPreorder, NoTies, Sort, Pays, KeysDecide;
    ByKeysIsTotal();
    KeysDecideIff(outcome.accepted);
    SortIgnoresOrder(outcome.accepted, other, ByKeys);
    assert |multiset(outcome.accepted)| == |outcome.accepted| && |multiset(other)| == |other|;
    SumPermutes(outcome.accepted, other, Flops());
    SlashesIgnoreOrder(penalties, others, now);
    assert forall p :: p in penalties <==> p in multiset(penalties);
    assert forall p :: p in others <==> p in multiset(others);
    assert forall r :: r in outcome.accepted <==> r in multiset(outcome.accepted);
    assert forall r :: r in other <==> r in multiset(other);
    assert Voided(penalties) == Voided(others);
    PayoutIgnoresOrder(s.rewards, t.rewards, outcome.accepted, other, Voided(penalties), pool - s.reserve);
  }

  lemma ReserveFits(pool: nat, bps: nat)
    requires bps <= BPS
    ensures pool * bps / BPS <= pool
  {
    ScaleUp(pool, bps, BPS);
    DivisionIsMonotone(pool * bps, pool * BPS, BPS);
  }

  method FindMismatch(outcome: Outcome, job: Hash, penalties: seq<Penalty>) returns (found: bool, e: Error)
    ensures found <==> !Consistent(outcome, job, penalties)
    ensures found ==> Explains(e, outcome, job, penalties)
  {
    e := RecordEpochMismatch(0, 0, 0);
    for i := 0 to |outcome.accepted|
      invariant forall k | 0 <= k < i :: GoodRecord(outcome.accepted[k], outcome.epoch)
    {
      var r := outcome.accepted[i];
      if r.epoch != outcome.epoch {
        assert !GoodRecord(outcome.accepted[i], outcome.epoch);
        return true, RecordEpochMismatch(r.worker, r.epoch, outcome.epoch);
      }
    }
    for i := 0 to |penalties|
      invariant forall k | 0 <= k < i :: GoodPenalty(penalties[k], outcome.epoch, job)
    {
      var p := penalties[i];
      if p.epoch != outcome.epoch {
        assert !GoodPenalty(penalties[i], outcome.epoch, job);
        return true, PenaltyEpochMismatch(p.worker, p.epoch, outcome.epoch);
      }
      if p.job != job {
        assert !GoodPenalty(penalties[i], outcome.epoch, job);
        return true, PenaltyJobMismatch(p.worker, p.job, job);
      }
    }
    return false, e;
  }

  method SaturatingSum(records: seq<Record>) returns (total: nat)
    ensures total == Cap64(Sum(records, Flops()))
  {
    total := 0;
    for i := 0 to |records|
      invariant total == Cap64(Sum(records[..i], Flops()))
    {
      assert records[..i + 1] == records[..i] + [records[i]];
      SumSnoc(records[..i], records[i], Flops());
      total := Cap64(total + records[i].flops);
    }
    assert records[..|records|] == records;
  }

  /** The per-worker table of the pro-rata split and its total. */
  ghost predicate Tallies(flops: map<Address, nat>, total: nat, records: seq<Record>, voided: set<Address>) {
    && total == TotalFlops(records, voided)
    && (forall w | w in flops :: flops[w] == FlopsOf(records, voided)(w))
    && (forall w | w !in flops :: FlopsOf(records, voided)(w) == 0)
  }

  method Tally(records: seq<Record>, voided: set<Address>) returns (flops: map<Address, nat>, total: nat)
    ensures Tallies(flops, total, records, voided)
  {
    flops, total := map[], 0;
    for i := 0 to |records|
      invariant Tallies(flops, total, records[..i], voided)
    {
      var r := records[i];
      TallyStep(flops, total, records, i, voided);
      if r.worker !in voided {
        flops := flops[r.worker := (if r.worker in flops then flops[r.worker] else 0) + r.flops];
        total := total + r.flops;
      }
    }
    assert records[..|records|] == records;
  }

  lemma TallyStep(flops: map<Address, nat>, total: nat, records: seq<Record>, i: nat, voided: set<Address>)
    requires i < |records| && Tallies(flops, total, records[..i], voided)
    ensures var r := records[i];
            if r.worker in voided then Tallies(flops, total, records[..i + 1], voided)
            else Tallies(flops[r.worker := (if r.worker in flops then flops[r.worker] else 0) + r.flops],
                         total + r.flops, records[..i + 1], voided)
  {
    assert records[..i + 1] == records[..i] + [records[i]];
    SumSnoc(records[..i], records[i], Payable(voided));
    forall w ensures FlopsOf(records[..i + 1], voided)(w)
                  == FlopsOf(records[..i], voided)(w) + PayableTo(voided, w)(records[i])
    {
      SumSnoc(records[..i], records[i], PayableTo(voided, w));
    }
  }

  method PayOut(records: seq<Record>, voided: set<Address>, pool: nat) returns (rewards: seq<Reward>)
    ensures Pays(rewards, records, voided, pool)
  {
    var flops, total := Tally(records, voided);
    var workers := InOrder(flops.Keys);
    rewards := [];
    for i := 0 to |workers|
      invariant Ascending(Payees(rewards))
      invariant forall w | w in Payees(rewards) :: w in workers[..i]
      invariant forall r :: r in rewards <==>
                  r.worker in workers[..i] && Earns(r.worker, r.amount, records, voided, pool)
    {
      var w := workers[i];
      var amount := Share(pool, flops[w], total);
      ghost var before := rewards;
      assert workers[..i + 1] == workers[..i] + [w];
      if amount > 0 {
        rewards := rewards + [Reward(w, amount)];
        assert Payees(rewards) == Payees(before) + [w];
        assert forall k | 0 <= k < |before| :: Payees(before)[k] in Payees(before);
      }
    }
    assert workers[..|workers|] == workers;
  }

  method SettleEpoch(hash: seq<Record> -> Hash, outcome: Outcome, job: Hash, penalties: seq<Penalty>,
                     pool: nat, bps: nat, now: nat) returns (r: Result)
    requires bps <= BPS
    ensures r.Ok? <==> Consistent(outcome, job, penalties)
    ensures r.Ok? <==> (forall x | x in outcome.accepted :: x.epoch == outcome.epoch)
                       && (forall p | p in penalties :: p.epoch == outcome.epoch && p.job == job)
    ensures r.Ok? ==> Settles(hash, outcome, job, penalties, pool, bps, now, r.settled)
    ensures r.Ok? ==> Sum(r.settled.rewards, Amount()) + r.settled.reserve <= pool
    ensures r.Err? ==> Explains(r.error, outcome, job, penalties)
  {
    hide Explains, Pays, Sort, Sum, ByKeys, BySlash;
    var found, e := FindMismatch(outcome, job, penalties);
    if found {
      return Err(e);
    }
    var voided := Voided(penalties);
    var total := SaturatingSum(outcome.accepted);
    var commit := Commit(job, outcome.epoch, outcome.params, RecordsRoot(hash, outcome.accepted),
                         |outcome.accepted|, total);
    var reserve := pool * bps / BPS;
    ReserveFits(pool, bps);
    var rewards := PayOut(outcome.accepted, voided, pool - reserve);
    PoolIsConserved(rewards, outcome.accepted, voided, pool - reserve);
    var slashes := Sort(SlashesOf(penalties, now), BySlash);
    r := Ok(Settled(commit, rewards, slashes, reserve, total * bps / BPS));
  }
}
