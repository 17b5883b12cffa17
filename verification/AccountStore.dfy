/** The account store: a write-through cache over a trie that snapshots restore only in part. */
module AccountStore {
  import opened Common
  import opened Gas
  import opened Ledger
  import opened Lru
  import opened Sums
  import opened TicketColumn

  /** The last committed trie, the working trie, and the cache of written accounts over it. */
  datatype Layers = Layers(root: Accounts, trie: Accounts, cache: Accounts)
  {
    /** What reads see. */
    function View(): Accounts { trie + cache }

    function Write(a: Address, acc: Account): Layers {
      Layers(root, trie[a := acc], cache[a := acc])
    }

    /** Back to a snapshot: its cache, over the trie of its committed root. */
    function Reverted(snapshot: Layers): Layers {
      Layers(snapshot.root, snapshot.root, snapshot.cache)
    }

    /** The working trie holds at each account what the cache holds or what was last committed, and the
        latter outside the cache. */
    ghost predicate Sound() {
      && (forall a | a !in cache :: SameAt(trie, root, a))
      && (forall a | a in cache :: SameAt(trie, cache, a) || SameAt(trie, root, a))
    }

    /** The accounts whose value reads see but a commit would not keep. */
    function Stale(): set<Address> {
      set a | a in cache && (a !in trie || trie[a] != cache[a])
    }

  }

  predicate SameAt(m: Accounts, n: Accounts, a: Address) {
    (a in m <==> a in n) && (a in m ==> m[a] == n[a])
  }

  /** The accounts of `m` that are not what they were in `root`. */
  function Changed(root: Accounts, m: Accounts): set<Address> {
    set a | a in m && (a !in root || root[a] != m[a])
  }

  /** The working trie, from what was committed, what reads see and which accounts are stale. */
  function TrieOf(root: Accounts, view: Accounts, stale: set<Address>): Accounts {
    map a | a in view.Keys + root.Keys && (if a in stale then a in root else a in view) ::
      if a in stale then root[a] else view[a]
  }

  lemma TrieIs(l: Layers)
    requires l.Sound()
    ensures l.trie == TrieOf(l.root, l.View(), l.Stale())
  {
    hide SameAt;
    var t := TrieOf(l.root, l.View(), l.Stale());
    forall a ensures SameAt(l.trie, t, a) {
      TrieAt(l, a);
    }
    SameEverywhere(l.trie, t);
  }

  lemma TrieAt(l: Layers, a: Address)
    requires l.Sound()
    ensures SameAt(l.trie, TrieOf(l.root, l.View(), l.Stale()), a)
  {
  }

  lemma SameEverywhere(m: Accounts, n: Accounts)
    requires forall a :: SameAt(m, n, a)
    ensures m == n
  {
    forall a ensures a in m <==> a in n {
      assert SameAt(m, n, a);
    }
    forall a | a in m ensures m[a] == n[a] {
      assert SameAt(m, n, a);
    }
  }

  /** A commit keeps what reads see exactly when every stale account is what was committed anyway. */
  lemma TrieIsViewIff(root: Accounts, view: Accounts, stale: set<Address>)
    requires stale <= Changed(root, view)
    ensures TrieOf(root, view, stale) == view <==> stale == {}
  {
    if a :| a in stale {
      assert a in view;
      assert a in TrieOf(root, view, stale) ==> TrieOf(root, view, stale)[a] == root[a];
    } else {
      assert TrieOf(root, view, stale) == view by {
        assert stale == {};
        forall a ensures SameAt(TrieOf(root, view, stale), view, a) {
        }
        SameEverywhere(TrieOf(root, view, stale), view);
      }
    }
  }

  /** A snapshot restores every account reads saw. */
  lemma RevertRestoresView(now: Layers, snapshot: Layers)
    requires snapshot.Sound()
    ensures now.Reverted(snapshot).View() == snapshot.View() && now.Reverted(snapshot).Sound()
  {
    forall a ensures a in now.Reverted(snapshot).View() <==> a in snapshot.View() {
    }
  }

  /** A revert makes stale exactly what had changed at the snapshot since the last commit. */
  lemma RevertStales(now: Layers, snapshot: Layers)
    requires snapshot.Sound()
    ensures now.Reverted(snapshot).Stale() == Changed(snapshot.root, snapshot.View())
  {
    forall a ensures a in now.Reverted(snapshot).Stale() <==> a in Changed(snapshot.root, snapshot.View()) {
      if a !in snapshot.cache {
        assert SameAt(snapshot.trie, snapshot.root, a);
      }
    }
  }

  /** With accounts evicted from the cache before the snapshot, reads see again what they saw exactly when
      none of the evicted accounts had changed. */
  lemma EvictionIsHarmlessIff(now: Layers, snapshot: Layers, evicted: set<Address>)
    requires snapshot.Sound() && snapshot.Stale() == {}
    ensures var kept := snapshot.(cache := snapshot.cache - evicted);
            && kept.View() == snapshot.View()
            && (now.Reverted(kept).View() == snapshot.View()
                <==> evicted !! Changed(snapshot.root, snapshot.View()))
  {
    var kept := snapshot.(cache := snapshot.cache - evicted);
    var back := now.Reverted(kept).View();
    hide Layers.Stale, Layers.Sound, Changed;
    forall a ensures SameAt(kept.View(), snapshot.View(), a) {
      NotStale(snapshot, a);
    }
    SameEverywhere(kept.View(), snapshot.View());
    forall a
      ensures SameAt(back, snapshot.View(), a) <==> a !in evicted || a !in Changed(snapshot.root, snapshot.View())
    {
      EvictedAt(now, snapshot, evicted, a);
    }
    if evicted !! Changed(snapshot.root, snapshot.View()) {
      SameEverywhere(back, snapshot.View());
    } else {
      var a :| a in evicted && a in Changed(snapshot.root, snapshot.View());
      assert !SameAt(back, snapshot.View(), a);
    }
  }

  lemma NotStale(l: Layers, a: Address)
    requires l.Stale() == {}
    ensures a in l.cache ==> a in l.trie && l.trie[a] == l.cache[a]
  {
    assert a !in l.Stale();
  }

  lemma EvictedAt(now: Layers, snapshot: Layers, evicted: set<Address>, a: Address)
    requires snapshot.Sound()
    ensures SameAt(now.Reverted(snapshot.(cache := snapshot.cache - evicted)).View(), snapshot.View(), a)
       <==> a !in evicted || a !in Changed(snapshot.root, snapshot.View())
  {
    if a !in snapshot.cache {
      assert SameAt(snapshot.trie, snapshot.root, a);
    }
  }

  const ACCOUNT_CACHE_SIZE: nat := 10_000

  /** A snapshot taken after at most 10,000 accounts were read or written restores what reads saw, whatever
      failed before it. */
  lemma FewAccountsRestore(now: Layers, snapshot: Layers, accesses: seq<Address>)
    requires snapshot.Sound() && snapshot.cache.Keys == Elements(accesses)
    requires |Elements(accesses)| <= ACCOUNT_CACHE_SIZE
    ensures var evicted := Elements(accesses) - Elements(Cached(accesses, ACCOUNT_CACHE_SIZE));
            now.Reverted(snapshot.(cache := snapshot.cache - evicted)).View() == snapshot.View()
  {
    hide Layers.Sound, Layers.View, Cached;
    CachedAllIff(accesses, ACCOUNT_CACHE_SIZE);
    var evicted := Elements(accesses) - Elements(Cached(accesses, ACCOUNT_CACHE_SIZE));
    assert evicted == {} && snapshot.cache - evicted == snapshot.cache;
    RevertRestoresView(now, snapshot);
  }

  lemma WriteView(l: Layers, a: Address, acc: Account)
    ensures l.Write(a, acc).View() == l.View()[a := acc]
  {
  }

  /** A write keeps the layers sound and mends the account it writes. */
  lemma WriteMends(l: Layers, a: Address, acc: Account)
    ensures l.Sound() ==> l.Write(a, acc).Sound()
    ensures l.Write(a, acc).Stale() == l.Stale() - {a}
  {
  }

  // ---------- Stake totals ----------

  function Staked(acc: Account): nat {
    acc.stake + acc.delegated
  }

  function DelegatedIn(validator: Address): Account -> nat {
    (acc: Account) => if acc.delegatedTo == Some(validator) then acc.delegated else 0
  }

  /** What the working trie says a validator has behind it, and what all validators have. */
  ghost function BehindIn(trie: Accounts, validator: Address): nat {
    MapSum(trie, DelegatedIn(validator))
  }

  ghost function NetworkStake(trie: Accounts): nat {
    MapSum(trie, Staked)
  }

  /** The stake cap: a fifth of the network stake once `added` is in. */
  ghost predicate CapRefuses(l: Ledger, trie: Accounts, validator: Address, added: nat) {
    && added != 0
    && Cap256(NetworkStake(trie)) != 0
    && Cap256(Cap256(At(l, validator).stake + Cap256(BehindIn(trie, validator))) + added)
       > Cap256(Cap256(NetworkStake(trie)) + added) * 20 / 100
  }

  /** It lets everything through while the network has no stake, and whatever adds none. */
  lemma CapNeedsStake(l: Ledger, trie: Accounts, validator: Address, added: nat)
    ensures added == 0 || NetworkStake(trie) == 0 ==> !CapRefuses(l, trie, validator, added)
  {
    hide NetworkStake, BehindIn;
  }

  /** All that stands behind a validator: its own stake and what is delegated to it. */
  ghost function Backing(l: Ledger, validator: Address): nat {
    At(l, validator).stake + BehindIn(l.accounts, validator)
  }

  /** How far the validator is from a fifth of the network stake, by the totals of `m`. */
  ghost function Room(l: Ledger, m: Accounts, validator: Address): int {
    NetworkStake(m) - 5 * (At(l, validator).stake + BehindIn(m, validator))
  }

  /** Once anything is staked, the cap lets through a quarter of the room the working trie shows. */
  lemma CapLetsThroughIff(l: Ledger, trie: Accounts, validator: Address, added: nat)
    requires 0 < added && 0 < NetworkStake(trie) && NetworkStake(trie) + added < U256_MAX
    ensures !CapRefuses(l, trie, validator, added) <==> 4 * added <= Room(l, trie, validator)
  {
    hide MapSum, BehindIn, NetworkStake;
    var network, before := NetworkStake(trie), At(l, validator).stake + BehindIn(trie, validator);
    assert Cap256(network) == network && Cap256(network + added) == network + added;
    assert Cap256(Cap256(At(l, validator).stake + Cap256(BehindIn(trie, validator))) + added) == Cap256(before + added);
    assert Cap256(before + added) <= (network + added) * 20 / 100 <==> 5 * Cap256(before + added) <= network + added;
  }

  /** Adding to the stake behind a validator keeps it within a fifth of the network exactly when it takes
      no more than a quarter of the room that reads show. */
  lemma WithinCapIff(l: Ledger, validator: Address, added: nat)
    ensures 100 * (Backing(l, validator) + added) <= 20 * (NetworkStake(l.accounts) + added)
       <==> 4 * added <= Room(l, l.accounts, validator)
  {
    hide MapSum, BehindIn, NetworkStake;
  }

  /** `added` may be let through. */
  ghost predicate Passes(l: Ledger, trie: Accounts, validator: Address, added: nat) {
    0 < added && !CapRefuses(l, trie, validator, added)
  }

  ghost predicate Within(l: Ledger, validator: Address, added: nat) {
    100 * (Backing(l, validator) + added) <= 20 * (NetworkStake(l.accounts) + added)
  }

  /** Everything the cap lets through stays within a fifth of the network stake exactly when the working
      trie shows no more room than reads do, or none. */
  lemma CapIsRightIff(l: Ledger, trie: Accounts, validator: Address)
    requires 0 < NetworkStake(trie) && 2 * NetworkStake(trie) < U256_MAX
    ensures (forall x: nat | x <= NetworkStake(trie) && Passes(l, trie, validator, x) :: Within(l, validator, x))
       <==> Room(l, trie, validator) < 4 || Room(l, trie, validator) / 4 <= Room(l, l.accounts, validator) / 4
  {
    hide MapSum, BehindIn, NetworkStake, Passes, Within, Room;
    var shown, actual := Room(l, trie, validator), Room(l, l.accounts, validator);
    forall x: nat | x <= NetworkStake(trie)
      ensures Passes(l, trie, validator, x) <==> 0 < x && 4 * x <= shown
      ensures Within(l, validator, x) <==> 4 * x <= actual
    {
      PassesIff(l, trie, validator, x);
    }
    if shown >= 4 && shown / 4 > actual / 4 {
      RoomWithinNetwork(l, trie, validator);
      var x: nat := shown / 4;
      assert Passes(l, trie, validator, x) && !Within(l, validator, x);
    }
  }

  lemma RoomWithinNetwork(l: Ledger, trie: Accounts, validator: Address)
    ensures Room(l, trie, validator) <= NetworkStake(trie)
  {
    hide MapSum, BehindIn, NetworkStake;
  }

  lemma PassesIff(l: Ledger, trie: Accounts, validator: Address, x: nat)
    requires x <= NetworkStake(trie) && 0 < NetworkStake(trie) && 2 * NetworkStake(trie) < U256_MAX
    ensures Passes(l, trie, validator, x) <==> 0 < x && 4 * x <= Room(l, trie, validator)
    ensures Within(l, validator, x) <==> 4 * x <= Room(l, l.accounts, validator)
  {
    hide MapSum, BehindIn, NetworkStake, CapRefuses, Room;
    WithinCapIff(l, validator, x);
    if 0 < x {
      CapLetsThroughIff(l, trie, validator, x);
    }
  }

  /** Writing one account moves the stake totals by what it changes in them. */
  lemma StakeTotals(l: Ledger, a: Address, acc: Account, validator: Address)
    ensures NetworkStake(Put(l, a, acc).accounts) + Staked(At(l, a)) == NetworkStake(l.accounts) + Staked(acc)
    ensures BehindIn(Put(l, a, acc).accounts, validator) + DelegatedIn(validator)(At(l, a))
         == BehindIn(l.accounts, validator) + DelegatedIn(validator)(acc)
  {
    hide MapSum;
    MapSumPut(l.accounts, a, acc, Staked);
    MapSumPut(l.accounts, a, acc, DelegatedIn(validator));
  }

  lemma NetworkWithinTotal(l: Ledger)
    ensures NetworkStake(l.accounts) <= Total(l)
  {
    hide MapSum;
    MapSumAtMost(l.accounts, Staked, Holdings);
  }

  /** The validator has at most a fifth of the network stake behind it. */
  ghost predicate CapHolds(l: Ledger, validator: Address) {
    100 * Backing(l, validator) <= 20 * NetworkStake(l.accounts)
  }

  /** A stake or a registration that the cap lets through fits the room the working trie shows, and leaves
      the cap holding exactly when it also fits the room that reads show. */
  lemma StakeStaysCapped(tx: Tx, sender: Address, l: Ledger, trie: Accounts)
    requires NetworkStake(trie) > 0 && NetworkStake(trie) + tx.value < U256_MAX && tx.value > 0
    ensures var r := OnStake(tx, sender, l, CapRefuses(l, trie, sender, tx.value));
            r.Done? ==> 4 * tx.value <= Room(l, trie, sender)
                        && (CapHolds(r.ledger, sender) <==> 4 * tx.value <= Room(l, l.accounts, sender))
    ensures var r := OnRegister(tx, sender, l, CapRefuses(l, trie, sender, tx.value));
            r.Done? ==> 4 * tx.value <= Room(l, trie, sender)
                        && (CapHolds(r.ledger, sender) <==> 4 * tx.value <= Room(l, l.accounts, sender))
  {
    hide MapSum, CapRefuses, NetworkStake, BehindIn, Room;
    CapLetsThroughIff(l, trie, sender, tx.value);
    WithinCapIff(l, sender, tx.value);
    var acc := At(l, sender);
    if acc.balance >= tx.value {
      StakeTotals(l, sender, acc.(balance := acc.balance - tx.value, stake := acc.stake + tx.value), sender);
    }
  }

  lemma DelegationStaysCapped(tx: Tx, sender: Address, l: Ledger, trie: Accounts)
    requires NetworkStake(trie) > 0 && NetworkStake(trie) + tx.value < U256_MAX && tx.value > 0 && tx.to.Some?
    requires At(l, sender).delegatedTo.None? ==> At(l, sender).delegated == 0
    requires At(l, sender).delegated + tx.value <= U256_MAX
    ensures var v := tx.to.value;
            var r := OnDelegate(tx, sender, l, CapRefuses(l, trie, v, tx.value));
            r.Done? ==> 4 * tx.value <= Room(l, trie, v)
                        && (CapHolds(r.ledger, v) <==> 4 * tx.value <= Room(l, l.accounts, v))
  {
    hide MapSum, CapRefuses, NetworkStake, BehindIn, Room;
    var r := OnDelegate(tx, sender, l, CapRefuses(l, trie, tx.to.value, tx.value));
    if r.Done? {
      var v := tx.to.value;
      CapLetsThroughIff(l, trie, v, tx.value);
      WithinCapIff(l, v, tx.value);
      var acc := At(l, sender);
      var after := acc.(balance := acc.balance - tx.value, delegatedTo := tx.to, delegated := acc.delegated + tx.value);
      assert r.ledger == Put(l, sender, after);
      StakeTotals(l, sender, after, v);
    }
  }

  lemma DelegatedWithin(l: Ledger, a: Address)
    ensures At(l, a).delegated <= Total(l)
  {
    hide MapSum;
    HoldingsAtMostWorth(l.accounts, a);
  }

  /** `after` follows from `before` by writing the accounts `written`. */
  ghost predicate Follows(before: Layers, after: Layers, written: set<Address>) {
    && after.root == before.root
    && after.Stale() == before.Stale() - written
    && after.Sound()
  }

  class StateDb {
    var root: Accounts
    var trie: Accounts
    var cache: Accounts
    var pending: Tickets

    function Layered(): Layers
      reads this
    {
      Layers(root, trie, cache)
    }

    ghost predicate Valid()
      reads this
    {
      Layered().Sound()
    }

    function Value(): Ledger
      reads this
    {
      Ledger(Layered().View(), pending)
    }

    /** A store opened at a committed root. */
    constructor (committed: Accounts, undelegations: Tickets)
      ensures Valid() && root == committed && pending == undelegations
      ensures Value() == Ledger(committed, undelegations) && Layered().Stale() == {}
    {
      root, trie, cache, pending := committed, committed, map[], undelegations;
      new;
      assert committed + map[] == committed;
    }

    method GetAccount(a: Address) returns (acc: Account)
      ensures acc == At(Value(), a)
    {
      acc := if a in cache then cache[a] else Get(trie, a);
    }

    method SetAccount(a: Address, acc: Account)
      requires Valid()
      modifies this`trie, this`cache
      ensures Valid() && Value() == Put(old(Value()), a, acc)
      ensures Follows(old(Layered()), Layered(), {a})
    {
      WriteMends(Layered(), a, acc);
      WriteView(Layered(), a, acc);
      trie, cache := trie[a := acc], cache[a := acc];
      assert Layered() == old(Layered()).Write(a, acc);
    }

    /** The balance saturates. */
    method AddBalance(a: Address, x: nat)
      requires Valid()
      modifies this`trie, this`cache
      ensures Valid() && Value() == Credit(old(Value()), a, x)
      ensures Follows(old(Layered()), Layered(), {a})
    {
      var acc := GetAccount(a);
      SetAccount(a, acc.(balance := Cap256(acc.balance + x)));
    }

    method SubBalance(a: Address, x: nat) returns (ok: bool)
      requires Valid()
      modifies this`trie, this`cache
      ensures Valid() && ok == (x <= At(old(Value()), a).balance)
      ensures ok ==> Value() == Debit(old(Value()), a, x) && Follows(old(Layered()), Layered(), {a})
      ensures !ok ==> unchanged(this)
    {
      var acc := GetAccount(a);
      ok := x <= acc.balance;
      if ok {
        SetAccount(a, acc.(balance := acc.balance - x));
      }
    }

    method Transfer(from: Address, to: Address, x: nat) returns (ok: bool)
      requires Valid()
      modifies this`trie, this`cache
      ensures Valid() && ok == Move(old(Value()), from, to, x).Some?
      ensures ok ==> Value() == Move(old(Value()), from, to, x).value
      ensures ok ==> Follows(old(Layered()), Layered(), if x == 0 then {} else {from, to})
      ensures !ok ==> unchanged(this)
    {
      if x == 0 {
        return true;
      }
      var acc := GetAccount(from);
      if acc.balance < x {
        return false;
      }
      ok := SubBalance(from, x);
      AddBalance(to, x);
    }

    method SetNonce(a: Address, nonce: nat)
      requires Valid()
      modifies this`trie, this`cache
      ensures Valid() && Value() == Put(old(Value()), a, At(old(Value()), a).(nonce := nonce))
      ensures Follows(old(Layered()), Layered(), {a})
    {
      var acc := GetAccount(a);
      SetAccount(a, acc.(nonce := nonce));
    }

    method IncrementNonce(a: Address)
      requires Valid()
      modifies this`trie, this`cache
      ensures Valid() && Value() == Bump(old(Value()), a)
      ensures Follows(old(Layered()), Layered(), {a})
    {
      var acc := GetAccount(a);
      SetAccount(a, acc.(nonce := if acc.nonce < U64 - 1 then acc.nonce + 1 else U64 - 1));
    }

    method SetStake(a: Address, stake: nat)
      requires Valid()
      modifies this`trie, this`cache
      ensures Valid() && Value() == Put(old(Value()), a, At(old(Value()), a).(stake := stake))
      ensures Follows(old(Layered()), Layered(), {a})
    {
      var acc := GetAccount(a);
      SetAccount(a, acc.(stake := stake));
    }

    method SetDelegation(a: Address, validator: Address, amount: nat)
      requires Valid()
      modifies this`trie, this`cache
      ensures Valid()
      ensures Value() == Put(old(Value()), a, At(old(Value()), a).(delegatedTo := Some(validator), delegated := amount))
      ensures Follows(old(Layered()), Layered(), {a})
    {
      var acc := GetAccount(a);
      SetAccount(a, acc.(delegatedTo := Some(validator), delegated := amount));
    }

    method AddDelegationAmount(a: Address, amount: nat)
      requires Valid()
      modifies this`trie, this`cache
      ensures Valid()
      ensures var acc := At(old(Value()), a);
              Value() == Put(old(Value()), a, acc.(delegated := Cap256(acc.delegated + amount)))
      ensures Follows(old(Layered()), Layered(), {a})
    {
      var acc := GetAccount(a);
      SetAccount(a, acc.(delegated := Cap256(acc.delegated + amount)));
    }

    /** Taking the whole amount clears the delegation. */
    method SubDelegationAmount(a: Address, amount: nat) returns (ok: bool)
      requires Valid()
      modifies this`trie, this`cache
      ensures Valid() && ok == (amount <= At(old(Value()), a).delegated)
      ensures ok ==> Value() == Put(old(Value()), a, Undelegated(At(old(Value()), a), amount))
      ensures ok ==> Follows(old(Layered()), Layered(), {a})
      ensures !ok ==> unchanged(this)
    {
      var acc := GetAccount(a);
      if acc.delegated < amount {
        return false;
      }
      var left := acc.delegated - amount;
      if left == 0 {
        SetAccount(a, acc.(delegatedTo := None, delegated := 0));
      } else {
        SetAccount(a, acc.(delegated := left));
      }
      ok := true;
    }

    method StoreUndelegation(t: Ticket, amount: nat)
      modifies this`pending
      ensures Value() == old(Value()).(pending := old(pending)[t := amount])
    {
      pending := pending[t := amount];
    }

    method DeleteUndelegation(t: Ticket)
      modifies this`pending
      ensures Value() == old(Value()).(pending := old(pending) - {t})
    {
      pending := pending - {t};
    }

    /** What a snapshot holds: the committed root and the cache. */
    method Snapshot() returns (s: (Accounts, Accounts))
      ensures s == (root, cache)
    {
      s := (root, cache);
    }

    /** Restore a snapshot of this store: reads see what they saw then, and everything that had changed
        by then since the last commit is stale now. Pending undelegations are not part of a snapshot. */
    method Revert(s: (Accounts, Accounts), ghost taken: Layers)
      requires taken.Sound() && s == (taken.root, taken.cache)
      modifies this`root, this`trie, this`cache
      ensures Valid() && Layered().View() == taken.View() && root == taken.root
      ensures Layered().Stale() == Changed(taken.root, taken.View())
    {
      RevertRestoresView(Layered(), taken);
      RevertStales(Layered(), taken);
      root, trie, cache := s.0, s.0, s.1;
      assert Layered() == old(Layered()).Reverted(taken);
    }

    /** Commit the working trie. */
    method Commit()
      requires Valid()
      modifies this`root
      ensures Value() == old(Value()) && trie == old(trie)
      ensures root == TrieOf(old(root), Value().accounts, old(Layered()).Stale())
    {
      TrieIs(Layered());
      root := trie;
    }

    /** The stake delegated to a validator in the working trie. */
    method TotalDelegatedTo(validator: Address) returns (total: nat)
      ensures total == Cap256(BehindIn(trie, validator))
    {
      var rest := trie;
      total := 0;
      ghost var done: nat := 0;
      while rest != map[]
        invariant total == Cap256(done) && done + BehindIn(rest, validator) == BehindIn(trie, validator)
        decreases |rest|
      {
        var a :| a in rest;
        MapSumWithout(rest, a, DelegatedIn(validator));
        if rest[a].delegatedTo == Some(validator) {
          total := Cap256(total + rest[a].delegated);
        }
        done := done + DelegatedIn(validator)(rest[a]);
        rest := rest - {a};
      }
    }

    /** All direct and delegated stake in the working trie. */
    method TotalStake() returns (total: nat)
      ensures total == Cap256(NetworkStake(trie))
    {
      var rest := trie;
      total := 0;
      ghost var done: nat := 0;
      while rest != map[]
        invariant total == Cap256(done) && done + NetworkStake(rest) == NetworkStake(trie)
        decreases |rest|
      {
        var a :| a in rest;
        MapSumWithout(rest, a, Staked);
        total := Cap256(total + rest[a].stake);
        total := Cap256(total + rest[a].delegated);
        done := done + Staked(rest[a]);
        rest := rest - {a};
      }
    }
  }
}
