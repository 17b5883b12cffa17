/** The slot schedule: a leader election that no node-local state can influence, and block validation
    that derives everything from the block itself. */
module Schedule {
  import opened Common
  import opened Sorting
  import R = Rotation

  type Key = nat
  type Secret = nat
  type Seed = nat
  type Proof = nat

  const BLOCK_INTERVAL_MS: nat := 5000
  const EPOCH_DURATION_MS: nat := 10_000
  const MAX_TIMESTAMP_DRIFT_MS: nat := 1500
  const MAX_TRANSACTIONS_PER_BLOCK: nat := 10_000
  const MAX_INFERENCE_PROOFS_PER_BLOCK: nat := 500
  const BLOCK_VERSION: nat := 1
  const ZERO_KEY: Key := 0

  /** Hashing and VRF, taken as given: the epoch seed derivation, the offset its first eight bytes
      spell, the Merkle root, and a VRF whose own proofs verify. */
  datatype Primitives = Primitives(
    epochSeed: (Seed, nat) -> Seed,
    offset: Seed -> nat,
    merkleRoot: seq<Hash> -> Hash,
    publicKey: Secret -> Key,
    prove: (Secret, Seed) -> Proof,
    verify: (Key, Seed, Proof) -> bool)

  ghost predicate VrfSound(c: Primitives) {
    forall s: Secret, seed: Seed :: c.verify(c.publicKey(s), seed, c.prove(s, seed))
  }

  datatype Header = Header(
    version: nat, number: nat, hash: Hash, parent: Hash, timestamp: nat, producer: Address, vrf: Proof,
    txCount: nat, proofs: seq<Hash>, proofsRoot: Hash)

  datatype Result =
    | Ok | InvalidStateTransition | InvalidTimestamp | InvalidProducer | GenesisSeedUnset
    | InvalidVrfProof | BlockTooLarge

  // ---------- Election ----------

  /** A registered identity: address and key. */
  type Identity = (Address, Key)

  predicate ByAddress(a: Identity, b: Identity) {
    a.0 <= b.0
  }

  function SlotOf(timestamp: nat): nat {
    timestamp / BLOCK_INTERVAL_MS
  }

  function EpochOfSlot(slot: nat): nat {
    slot / (EPOCH_DURATION_MS / BLOCK_INTERVAL_MS)
  }

  /** The registered set in address order. */
  function ElectionSet(ids: seq<Identity>): seq<Identity> {
    Sort(ids, ByAddress)
  }

  /** Round robin over the address-sorted set, rotated by a seed-derived offset, in 64-bit arithmetic. */
  function Leader(c: Primitives, ids: seq<Identity>, slot: nat, seed: Seed): Option<Address> {
    var set_ := ElectionSet(ids);
    if set_ == [] then None
    else Some(set_[(slot + c.offset(seed)) % (U64_MAX + 1) % |set_|].0)
  }

  /** The key of the first registration under an address. */
  function KeyOf(ids: seq<Identity>, a: Address): Option<Key> {
    if ids == [] then None
    else if ids[0].0 == a then Some(ids[0].1)
    else KeyOf(ids[1..], a)
  }

  /** The slots whose leader may have produced a block stamped `timestamp`: its own slot, and the one
      before while the timestamp is within the drift after the boundary; never the next one. */
  function Candidates(timestamp: nat): set<nat> {
    var slot := SlotOf(timestamp);
    {slot} + if timestamp % BLOCK_INTERVAL_MS < MAX_TIMESTAMP_DRIFT_MS && slot > 0 then {slot - 1} else {}
  }

  function SlotSeed(c: Primitives, genesisSeed: Seed, slot: nat): Seed {
    c.epochSeed(genesisSeed, EpochOfSlot(slot))
  }

  predicate Leads(c: Primitives, ids: seq<Identity>, genesisSeed: Seed, slot: nat, producer: Address) {
    Leader(c, ids, slot, SlotSeed(c, genesisSeed, slot)) == Some(producer)
  }

  predicate ProofHolds(c: Primitives, genesisSeed: Seed, slot: nat, key: Key, vrf: Proof) {
    key == ZERO_KEY || c.verify(key, SlotSeed(c, genesisSeed, slot), vrf)
  }

  /** The whole verdict on a block, as a function of the registered identities, the genesis seed, the
      block, its parent and the clock: no other engine state appears. */
  ghost function Verdict(c: Primitives, ids: seq<Identity>, genesis: Option<Seed>, b: Header, parent: Header,
                         now: nat): Result {
    if b.number != parent.number + 1 || b.parent != parent.hash then InvalidStateTransition
    else if b.timestamp > now + MAX_TIMESTAMP_DRIFT_MS || b.timestamp <= parent.timestamp then InvalidTimestamp
    else if KeyOf(ids, b.producer).None? then InvalidProducer
    else if genesis.None? then GenesisSeedUnset
    else if !exists s | s in Candidates(b.timestamp) :: Leads(c, ids, genesis.value, s, b.producer) then InvalidProducer
    else if !Scheduled(c, ids, genesis.value, b) then InvalidVrfProof
    else if b.txCount > MAX_TRANSACTIONS_PER_BLOCK then BlockTooLarge
    else if b.version < 2 && b.proofs == [] then Ok
    else if b.proofsRoot != c.merkleRoot(b.proofs) then InvalidStateTransition
    else if |b.proofs| > MAX_INFERENCE_PROOFS_PER_BLOCK then BlockTooLarge
    else Ok
  }

  /** Some candidate slot's leader made the block, with a proof for that slot's epoch. */
  ghost predicate Scheduled(c: Primitives, ids: seq<Identity>, genesisSeed: Seed, b: Header)
    requires KeyOf(ids, b.producer).Some?
  {
    exists s | s in Candidates(b.timestamp) ::
      Leads(c, ids, genesisSeed, s, b.producer) && ProofHolds(c, genesisSeed, s, KeyOf(ids, b.producer).value, b.vrf)
  }

  // ---------- Node-local state cannot matter ----------

  ghost predicate DistinctAddresses(ids: seq<Identity>) {
    forall i, j | 0 <= i < j < |ids| :: ids[i].0 != ids[j].0
  }

  lemma {:induction false} KeyOfMeans(ids: seq<Identity>, a: Address, k: Key)
    requires DistinctAddresses(ids)
    ensures KeyOf(ids, a) == Some(k) <==> (a, k) in ids
  {
    if ids != [] {
      assert ids == [ids[0]] + ids[1..];
      KeyOfMeans(ids[1..], a, k);
    }
  }

  lemma KeyOfIgnoresOrder(ids: seq<Identity>, ids': seq<Identity>, a: Address)
    requires DistinctAddresses(ids) && DistinctAddresses(ids') && multiset(ids) == multiset(ids')
    ensures KeyOf(ids, a) == KeyOf(ids', a)
  {
    forall k: Key ensures KeyOf(ids, a) == Some(k) <==> KeyOf(ids', a) == Some(k) {
      KeyOfMeans(ids, a, k);
      KeyOfMeans(ids', a, k);
      assert (a, k) in ids <==> (a, k) in multiset(ids);
      assert (a, k) in ids' <==> (a, k) in multiset(ids');
    }
    if KeyOf(ids, a).Some? {
      assert KeyOf(ids', a) == Some(KeyOf(ids, a).value);
    }
  }

  lemma DistinctMeansNoTies(ids: seq<Identity>)
    requires DistinctAddresses(ids)
    ensures NoTies(ids, ByAddress)
  {
  }

  /** The election set does not depend on the order validators were registered in. */
  lemma ElectionIgnoresOrder(ids: seq<Identity>, ids': seq<Identity>)
    requires DistinctAddresses(ids) && multiset(ids) == multiset(ids')
    ensures ElectionSet(ids) == ElectionSet(ids')
  {
    DistinctMeansNoTies(ids);
    SortIgnoresOrder(ids, ids', ByAddress);
  }

  /** Two engines with the same registered identities, listed in any order, and the same genesis seed
      give every block the same verdict at the same clock. */
  lemma SameVerdict(c: Primitives, ids: seq<Identity>, ids': seq<Identity>, genesis: Option<Seed>, b: Header,
                    parent: Header, now: nat)
    requires DistinctAddresses(ids) && DistinctAddresses(ids') && multiset(ids) == multiset(ids')
    ensures Verdict(c, ids, genesis, b, parent, now) == Verdict(c, ids', genesis, b, parent, now)
  {
    ElectionIgnoresOrder(ids, ids');
    KeyOfIgnoresOrder(ids, ids', b.producer);
    assert forall s: nat, g: Seed :: Leads(c, ids, g, s, b.producer) == Leads(c, ids', g, s, b.producer);
  }

  // ---------- Who may produce ----------

  ghost predicate MayProduce(c: Primitives, ids: seq<Identity>, genesisSeed: Seed, timestamp: nat, producer: Address) {
    exists s | s in Candidates(timestamp) :: Leads(c, ids, genesisSeed, s, producer)
  }

  /** Only a candidate slot's leader passes validation. */
  lemma AcceptedMayProduce(c: Primitives, ids: seq<Identity>, genesis: Option<Seed>, b: Header, parent: Header,
                           now: nat)
    requires Verdict(c, ids, genesis, b, parent, now).Ok?
    ensures genesis.Some? && MayProduce(c, ids, genesis.value, b.timestamp, b.producer)
  {
  }

  /** The candidate slots in time: those that have begun and ended no longer ago than the drift. */
  lemma CandidatesAre(timestamp: nat, s: nat)
    ensures s in Candidates(timestamp)
       <==> s * BLOCK_INTERVAL_MS <= timestamp < (s + 1) * BLOCK_INTERVAL_MS + MAX_TIMESTAMP_DRIFT_MS
  {
  }

  /** The block proves its slot: its producer leads the slot and its proof verifies for the slot's epoch, or
      the producer's key is the unknown one. */
  ghost predicate Proves(c: Primitives, ids: seq<Identity>, genesisSeed: Seed, b: Header, key: Key, s: nat) {
    && s * BLOCK_INTERVAL_MS <= b.timestamp < (s + 1) * BLOCK_INTERVAL_MS + MAX_TIMESTAMP_DRIFT_MS
    && Leads(c, ids, genesisSeed, s, b.producer)
    && (key == 0 || c.verify(key, c.epochSeed(genesisSeed, s * BLOCK_INTERVAL_MS / EPOCH_DURATION_MS), b.vrf))
  }

  lemma EpochInTime(s: nat)
    ensures EpochOfSlot(s) == s * BLOCK_INTERVAL_MS / EPOCH_DURATION_MS
  {
  }

  lemma ProvesIff(c: Primitives, ids: seq<Identity>, genesisSeed: Seed, b: Header, key: Key, s: nat)
    ensures Proves(c, ids, genesisSeed, b, key, s)
       <==> s in Candidates(b.timestamp) && Leads(c, ids, genesisSeed, s, b.producer)
            && ProofHolds(c, genesisSeed, s, key, b.vrf)
  {
    hide Leads, Candidates;
    CandidatesAre(b.timestamp, s);
    EpochInTime(s);
  }

  /** What every check but the schedule's asks of a block. */
  predicate WellFormed(c: Primitives, b: Header, parent: Header, now: nat) {
    && b.number == parent.number + 1 && b.parent == parent.hash
    && parent.timestamp < b.timestamp <= now + MAX_TIMESTAMP_DRIFT_MS
    && b.txCount <= MAX_TRANSACTIONS_PER_BLOCK
    && (b.version >= 2 || b.proofs != [] ==>
          b.proofsRoot == c.merkleRoot(b.proofs) && |b.proofs| <= MAX_INFERENCE_PROOFS_PER_BLOCK)
  }

  /** A block is accepted exactly when it is well formed, its producer is registered and it proves a slot. */
  lemma AcceptedIff(c: Primitives, ids: seq<Identity>, genesis: Option<Seed>, b: Header, parent: Header, now: nat)
    ensures Verdict(c, ids, genesis, b, parent, now).Ok?
       <==> && WellFormed(c, b, parent, now) && KeyOf(ids, b.producer).Some? && genesis.Some?
            && exists s :: Proves(c, ids, genesis.value, b, KeyOf(ids, b.producer).value, s)
  {
    if KeyOf(ids, b.producer).Some? && genesis.Some? {
      var key := KeyOf(ids, b.producer).value;
      forall s ensures Proves(c, ids, genesis.value, b, key, s)
                  <==> s in Candidates(b.timestamp) && Leads(c, ids, genesis.value, s, b.producer)
                       && ProofHolds(c, genesis.value, s, key, b.vrf)
      {
        ProvesIff(c, ids, genesis.value, b, key, s);
      }
    }
    hide Leads, Candidates, ProofHolds, Proves;
  }

  /** A leader with a known key whose proof verifies for no slot it leads is answered with the proof error,
      once the checks before that one pass. */
  lemma UnprovedIsRefused(c: Primitives, ids: seq<Identity>, genesisSeed: Seed, b: Header, parent: Header, now: nat)
    requires b.number == parent.number + 1 && b.parent == parent.hash
    requires parent.timestamp < b.timestamp <= now + MAX_TIMESTAMP_DRIFT_MS
    requires KeyOf(ids, b.producer).Some? && KeyOf(ids, b.producer).value != 0
    requires MayProduce(c, ids, genesisSeed, b.timestamp, b.producer)
    requires forall s | s in Candidates(b.timestamp) && Leads(c, ids, genesisSeed, s, b.producer) ::
               !c.verify(KeyOf(ids, b.producer).value, c.epochSeed(genesisSeed, EpochOfSlot(s)), b.vrf)
    ensures Verdict(c, ids, Some(genesisSeed), b, parent, now) == InvalidVrfProof
  {
    hide Leads, Candidates, KeyOf;
  }

  // ---------- Round robin ----------

  lemma SortedIsDistinct(ids: seq<Identity>)
    requires DistinctAddresses(ids)
    ensures DistinctAddresses(ElectionSet(ids)) && multiset(ElectionSet(ids)) == multiset(ids)
  {
    hide Sort;
    SortPermutes(ids, ByAddress);
    DistinctPermutes(ids, ElectionSet(ids));
    OneEntryEach(ids, ElectionSet(ids));
  }

  lemma OneEntryEach(ids: seq<Identity>, sorted: seq<Identity>)
    requires DistinctAddresses(ids) && multiset(sorted) == multiset(ids) && Distinct(sorted)
    ensures DistinctAddresses(sorted)
  {
    forall i, j | 0 <= i < j < |sorted| ensures sorted[i].0 != sorted[j].0 {
      assert sorted[i] in multiset(sorted) && sorted[j] in multiset(sorted);
      assert sorted[i] in ids && sorted[j] in ids;
    }
  }

  /** Of any stretch of as many slots under one seed as there are validators, each validator leads exactly
      one, the one its offset names, as long as slot and seed offset do not pass 64 bits. */
  lemma EachLeadsOnce(c: Primitives, ids: seq<Identity>, slot: nat, seed: Seed, i: nat, j: nat)
    requires DistinctAddresses(ids) && i < |ElectionSet(ids)| && j < |ElectionSet(ids)|
    requires slot + c.offset(seed) + |ElectionSet(ids)| <= U64_MAX
    ensures Leader(c, ids, slot + j, seed) == Some(ElectionSet(ids)[i].0)
       <==> j == R.Offset(slot + c.offset(seed), |ElectionSet(ids)|, i)
  {
    hide ElectionSet;
    var set_, x := ElectionSet(ids), slot + c.offset(seed);
    SortedIsDistinct(ids);
    R.FullRotation(0, x, |set_|, i, j);
    assert slot + j + c.offset(seed) == x + j && 0 + (x + j) == x + j;
    var k := (x + j) % |set_|;
    assert Leader(c, ids, slot + j, seed) == Some(set_[k].0);
    assert set_[k].0 == set_[i].0 <==> k == i;
  }

  /** Beyond 64 bits the sum of slot and offset starts again from zero. */
  lemma LeaderWraps(c: Primitives, ids: seq<Identity>, slot: nat, seed: Seed)
    requires ids != [] && slot <= U64_MAX && c.offset(seed) <= U64_MAX && slot + c.offset(seed) > U64_MAX
    ensures |ElectionSet(ids)| == |ids|
    ensures Leader(c, ids, slot, seed) == Some(ElectionSet(ids)[(slot + c.offset(seed) - U64_MAX - 1) % |ids|].0)
  {
    hide Sort;
    SortPermutes(ids, ByAddress);
    R.Quotient(slot + c.offset(seed), U64_MAX + 1, 1, slot + c.offset(seed) - U64_MAX - 1);
  }

  /** No timestamp admits more than two producers, and only one outside the drift. */
  lemma AtMostTwoProducers(c: Primitives, ids: seq<Identity>, genesisSeed: Seed, timestamp: nat, x: Address,
                           y: Address, z: Address)
    requires MayProduce(c, ids, genesisSeed, timestamp, x)
    requires MayProduce(c, ids, genesisSeed, timestamp, y)
    requires MayProduce(c, ids, genesisSeed, timestamp, z)
    ensures x == y || y == z || x == z
    ensures timestamp % BLOCK_INTERVAL_MS >= MAX_TIMESTAMP_DRIFT_MS ==> x == y == z
  {
  }

  /** The header a leader seals: the proof is for the epoch of the timestamp's own slot. */
  function Seal(c: Primitives, genesisSeed: Seed, secret: Secret, me: Address, parent: Header, hash: Hash,
                txCount: nat, proofs: seq<Hash>, timestamp: nat): Header {
    Header(BLOCK_VERSION, parent.number + 1, hash, parent.hash, timestamp, me,
           c.prove(secret, SlotSeed(c, genesisSeed, SlotOf(timestamp))), txCount, proofs, c.merkleRoot(proofs))
  }

  /** A block sealed in its leader's own slot, within the size limits and the clock's drift, is accepted
      by every engine that registered the leader's key, whatever else those engines hold. */
  lemma OwnSlotPasses(c: Primitives, ids: seq<Identity>, genesisSeed: Seed, secret: Secret, me: Address,
                      parent: Header, hash: Hash, txCount: nat, proofs: seq<Hash>, timestamp: nat, now: nat)
    requires VrfSound(c) && KeyOf(ids, me) == Some(c.publicKey(secret))
    requires Leads(c, ids, genesisSeed, SlotOf(timestamp), me)
    requires parent.timestamp < timestamp <= now + MAX_TIMESTAMP_DRIFT_MS
    requires txCount <= MAX_TRANSACTIONS_PER_BLOCK && |proofs| <= MAX_INFERENCE_PROOFS_PER_BLOCK
    ensures var b := Seal(c, genesisSeed, secret, me, parent, hash, txCount, proofs, timestamp);
            Verdict(c, ids, Some(genesisSeed), b, parent, now) == Ok
  {
    var b := Seal(c, genesisSeed, secret, me, parent, hash, txCount, proofs, timestamp);
    var s := SlotOf(timestamp);
    assert s in Candidates(b.timestamp);
    assert ProofHolds(c, genesisSeed, s, c.publicKey(secret), b.vrf);
  }

  // ---------- The engine ----------

  /** A registered validator with the fields each node adjusts from its own observations. */
  datatype Validator = Validator(
    address: Address, key: Key, stake: nat, delegated: nat, reputation: nat, jailed: bool, jailUntil: nat,
    score: nat, produced: nat, validVotes: nat, invalidVotes: nat, accuracy: nat, uptime: nat, latency: nat)

  function Min(a: nat, b: nat): nat {
    if a < b then a else b
  }

  /** `slash_percent` of direct plus delegated stake, direct stake first; reputation down by 2000; jailed
      for a while, or for ever when the duration is the permanent marker. */
  function Slashed(v: Validator, percent: nat, jailMs: nat, now: nat): Validator {
    var amount := (v.stake + v.delegated) * percent / 100;
    var direct := Min(amount, v.stake);
    var v' := v.(stake := v.stake - direct,
                 delegated := v.delegated - Min(amount - direct, v.delegated),
                 reputation := if v.reputation < 2000 then 0 else v.reputation - 2000);
    if jailMs == 0 then v'
    else v'.(jailed := true, jailUntil := if jailMs == U64_MAX then U64_MAX else Min(now + jailMs, U64_MAX))
  }

  function Unjailed(v: Validator, now: nat): Validator {
    if v.jailed && v.jailUntil != U64_MAX && now >= v.jailUntil then v.(jailed := false, jailUntil := 0) else v
  }

  function Voted(v: Validator, valid: bool): Validator {
    if valid then v.(validVotes := v.validVotes + 1, accuracy := (v.accuracy * 99 + 10000) / 100)
    else v.(invalidVotes := v.invalidVotes + 1, accuracy := v.accuracy * 99 / 100)
  }

  function Produced(v: Validator): Validator {
    v.(produced := v.produced + 1, reputation := Min(v.reputation + 10, 10000))
  }

  function Uptimed(v: Validator, expected: nat, actual: nat): Validator {
    if expected == 0 then v
    else v.(uptime := (v.uptime * 9 + Min(actual * 10000 / expected, 10000)) / 10)
  }

  /** What a node may do to its own view of the registry between two blocks. */
  datatype Local =
    | Slash(address: Address, percent: nat, jailMs: nat, now: nat)
    | Unjail(now: nat)
    | Vote(address: Address, valid: bool)
    | Produce(address: Address)
    | Uptime(address: Address, expected: nat, actual: nat)
    | Latency(address: Address, ms: nat)
    | Score(scores: Validator -> nat)
    | Epoch(number: nat)

  function Adjusted(v: Validator, step: Local): Validator {
    match step
    case Slash(a, percent, jailMs, now) => Slashed(v, percent, jailMs, now)
    case Unjail(now) => Unjailed(v, now)
    case Vote(a, valid) => Voted(v, valid)
    case Produce(a) => Produced(v)
    case Uptime(a, expected, actual) => Uptimed(v, expected, actual)
    case Latency(a, ms) => v.(latency := (v.latency * 9 + ms) / 10)
    case Score(scores) => v.(score := scores(v))
    case Epoch(number) => v
  }

  function Identities(vs: seq<Validator>): seq<Identity> {
    seq(|vs|, i requires 0 <= i < |vs| => (vs[i].address, vs[i].key))
  }

  /** The first validator registered under `a`, or the length of the list. */
  function Find(vs: seq<Validator>, a: Address): (i: nat)
    ensures i <= |vs|
  {
    if vs == [] then 0 else if vs[0].address == a then 0 else 1 + Find(vs[1..], a)
  }

  /** One step on the list: steps that name a validator touch the first one under that address. */
  function Apply(vs: seq<Validator>, step: Local): (vs': seq<Validator>)
    ensures Identities(vs') == Identities(vs)
  {
    match step
    case Unjail(_) | Score(_) => seq(|vs|, i requires 0 <= i < |vs| => Adjusted(vs[i], step))
    case Epoch(_) => vs
    case _ =>
      var i := Find(vs, step.address);
      if i < |vs| then vs[i := Adjusted(vs[i], step)] else vs
  }

  function ApplyAll(vs: seq<Validator>, steps: seq<Local>): (vs': seq<Validator>)
    ensures Identities(vs') == Identities(vs)
    decreases |steps|
  {
    if steps == [] then vs else ApplyAll(Apply(vs, steps[0]), steps[1..])
  }

  /** Whatever two nodes slashed, jailed, scored, voted or measured on the way, if they registered the
      same identities they accept exactly the same blocks at the same clock. */
  lemma LocalStateNeverMatters(c: Primitives, vs: seq<Validator>, vs': seq<Validator>,
                               steps: seq<Local>, steps': seq<Local>,
                               genesis: Option<Seed>, b: Header, parent: Header, now: nat)
    requires DistinctAddresses(Identities(vs)) && DistinctAddresses(Identities(vs'))
    requires multiset(Identities(vs)) == multiset(Identities(vs'))
    ensures Verdict(c, Identities(ApplyAll(vs, steps)), genesis, b, parent, now)
         == Verdict(c, Identities(ApplyAll(vs', steps')), genesis, b, parent, now)
  {
    SameVerdict(c, Identities(vs), Identities(vs'), genesis, b, parent, now);
  }

  /** A slash of at most 100 percent takes exactly that share of the total stake, rounded down. */
  lemma SlashTakesItsShare(v: Validator, percent: nat, jailMs: nat, now: nat)
    requires percent <= 100
    ensures var v' := Slashed(v, percent, jailMs, now);
            && v'.stake + v'.delegated == v.stake + v.delegated - (v.stake + v.delegated) * percent / 100
            && (v'.delegated < v.delegated ==> v'.stake == 0)
  {
    ShareAtMost(v.stake + v.delegated, percent);
  }

  /** A validator that is not jailed is in jail after a slash with a term, and let out exactly when the term is
      over; a term that is the permanent marker, or ends beyond 64 bits, never is. */
  lemma JailTermHolds(v: Validator, percent: nat, jailMs: nat, now: nat, later: nat)
    requires percent <= 100 && !v.jailed
    ensures Unjailed(Slashed(v, percent, jailMs, now), later).jailed
       <==> 0 < jailMs && (now + jailMs >= U64_MAX || later < now + jailMs)
    ensures Slashed(v, percent, jailMs, now).jailed <==> 0 < jailMs
    ensures Unjailed(Slashed(v, percent, jailMs, now), later).jailed
            || Unjailed(Slashed(v, percent, jailMs, now), later).jailUntil == if jailMs > 0 then 0 else v.jailUntil
    ensures v.reputation >= 2000 ==> Slashed(v, percent, jailMs, now).reputation + 2000 == v.reputation
    ensures v.reputation < 2000 ==> Slashed(v, percent, jailMs, now).reputation == 0
  {
    ShareAtMost(v.stake + v.delegated, percent);
  }

  /** Shares in hundredths of a percent stay between nothing and all. */
  ghost predicate Bounded(v: Validator) {
    v.reputation <= 10000 && v.accuracy <= 10000 && v.uptime <= 10000
  }

  lemma AdjustingStaysBounded(v: Validator, step: Local)
    requires Bounded(v)
    ensures Bounded(Adjusted(v, step))
  {
    hide Slashed;
    if step.Slash? {
      SlashLowersReputation(v, step.percent, step.jailMs, step.now);
    }
  }

  lemma SlashLowersReputation(v: Validator, percent: nat, jailMs: nat, now: nat)
    ensures var v' := Slashed(v, percent, jailMs, now);
            v'.reputation <= v.reputation && v'.accuracy == v.accuracy && v'.uptime == v.uptime
  {
  }

  /** Over any run of local updates they stay so. */
  lemma {:induction false} ScoresStayBounded(vs: seq<Validator>, steps: seq<Local>)
    requires forall v | v in vs :: Bounded(v)
    ensures forall v | v in ApplyAll(vs, steps) :: Bounded(v)
    decreases |steps|
  {
    hide Adjusted, Bounded;
    if steps != [] {
      forall v: Validator | Bounded(v) ensures Bounded(Adjusted(v, steps[0])) {
        AdjustingStaysBounded(v, steps[0]);
      }
      ScoresStayBounded(Apply(vs, steps[0]), steps[1..]);
    }
  }

  /** A validator that is perfect stays perfect while it votes validly and is always up, one that is never
      right or never up stays at nothing, and every vote is counted on its side. */
  lemma ExtremesStay(v: Validator, expected: nat)
    requires expected > 0
    ensures v.accuracy == 10000 ==> Voted(v, true).accuracy == 10000
    ensures v.accuracy == 0 ==> Voted(v, false).accuracy == 0
    ensures v.accuracy > 0 ==> Voted(v, false).accuracy < v.accuracy
    ensures v.accuracy <= 9900 ==> Voted(v, true).accuracy > v.accuracy
    ensures v.uptime == 10000 ==> Uptimed(v, expected, expected).uptime == 10000
    ensures v.uptime == 0 ==> Uptimed(v, expected, 0).uptime == 0
    ensures forall valid ::
              Voted(v, valid).validVotes + Voted(v, valid).invalidVotes == v.validVotes + v.invalidVotes + 1
    ensures Voted(v, true).invalidVotes == v.invalidVotes && Voted(v, false).validVotes == v.validVotes
    ensures Produced(v).produced == v.produced + 1 && (v.reputation == 10000 ==> Produced(v).reputation == 10000)
    ensures v.reputation <= 9990 ==> Produced(v).reputation == v.reputation + 10
    ensures Adjusted(v, Latency(v.address, v.latency)).latency == v.latency
  {
    AllUp(expected);
  }

  lemma AllUp(expected: nat)
    requires expected > 0
    ensures expected * 10000 / expected == 10000 && 0 * 10000 / expected == 0
  {
    R.Quotient(expected * 10000, expected, 10000, 0);
    R.Quotient(0, expected, 0, 0);
  }

  lemma ShareAtMost(total: nat, percent: nat)
    requires percent <= 100
    ensures total * percent / 100 <= total
  {
    var product := total * percent;
    assert product <= total * 100;
  }

  class ConsensusEngine {
    const crypto: Primitives
    const genesisSeed: Option<Seed>
    var validators: seq<Validator>
    var epoch: nat

    constructor (crypto: Primitives, genesisSeed: Option<Seed>, validators: seq<Validator>)
      ensures this.crypto == crypto && this.genesisSeed == genesisSeed && this.validators == validators
    {
      this.crypto, this.genesisSeed, this.validators := crypto, genesisSeed, validators;
      epoch := 0;
    }

    /** Scan for the first registration of an address. */
    method FindValidator(a: Address) returns (i: nat)
      ensures i == Find(validators, a)
      ensures i < |validators| ==> validators[i].address == a
      ensures forall j | 0 <= j < i && j < |validators| :: validators[j].address != a
    {
      i := 0;
      while i < |validators| && validators[i].address != a
        invariant i <= |validators|
        invariant i + Find(validators[i..], a) == Find(validators, a)
        invariant forall j | 0 <= j < i :: validators[j].address != a
      {
        i := i + 1;
      }
    }

    /** Any of the node-local updates. */
    method Adjust(step: Local)
      modifies this
      ensures validators == Apply(old(validators), step)
      ensures Identities(validators) == old(Identities(validators))
    {
      match step
      case Unjail(_) | Score(_) =>
        var i := 0;
        ghost var start := validators;
        while i < |validators|
          invariant i <= |validators| == |start|
          invariant forall j | 0 <= j < |start| :: validators[j] == if j < i then Adjusted(start[j], step) else start[j]
        {
          validators := validators[i := Adjusted(validators[i], step)];
          i := i + 1;
        }
        assert validators == Apply(start, step);
      case Epoch(number) => epoch := number;
      case _ =>
        var i := FindValidator(step.address);
        if i < |validators| {
          validators := validators[i := Adjusted(validators[i], step)];
        }
    }

    /** Validate a block, trying each candidate slot in turn. */
    method ValidateBlock(b: Header, parent: Header, now: nat) returns (r: Result)
      ensures r == Verdict(crypto, Identities(validators), genesisSeed, b, parent, now)
    {
      var ids := Identities(validators);
      if b.number != parent.number + 1 || b.parent != parent.hash {
        return InvalidStateTransition;
      }
      if b.timestamp > now + MAX_TIMESTAMP_DRIFT_MS || b.timestamp <= parent.timestamp {
        return InvalidTimestamp;
      }
      var key := KeyOf(ids, b.producer);
      if key.None? {
        return InvalidProducer;
      }
      var slot := SlotOf(b.timestamp);
      var slots := [slot];
      if b.timestamp % BLOCK_INTERVAL_MS < MAX_TIMESTAMP_DRIFT_MS && slot > 0 {
        slots := slots + [slot - 1];
      }
      if genesisSeed.None? {
        return GenesisSeedUnset;
      }
      var matched, proved := TrySlots(crypto, ids, genesisSeed.value, slots, b.producer, key.value, b.vrf);
      assert forall s :: s in slots <==> s in Candidates(b.timestamp);
      if !matched {
        return InvalidProducer;
      }
      if !proved {
        return InvalidVrfProof;
      }
      if b.txCount > MAX_TRANSACTIONS_PER_BLOCK {
        return BlockTooLarge;
      }
      if b.version >= 2 || b.proofs != [] {
        if b.proofsRoot != crypto.merkleRoot(b.proofs) {
          return InvalidStateTransition;
        }
        if |b.proofs| > MAX_INFERENCE_PROOFS_PER_BLOCK {
          return BlockTooLarge;
        }
      }
      r := Ok;
    }
  }

  method TrySlots(c: Primitives, ids: seq<Identity>, genesisSeed: Seed, slots: seq<nat>, producer: Address, key: Key,
                  vrf: Proof)
    returns (matched: bool, proved: bool)
    ensures matched <==> exists s | s in slots :: Leads(c, ids, genesisSeed, s, producer)
    ensures proved <==> exists s | s in slots ::
                          && Leads(c, ids, genesisSeed, s, producer)
                          && (key == 0 || c.verify(key, c.epochSeed(genesisSeed, EpochOfSlot(s)), vrf))
  {
    matched, proved := false, false;
    for i := 0 to |slots|
      invariant !proved
      invariant matched <==> exists s | s in slots[..i] :: Leads(c, ids, genesisSeed, s, producer)
      invariant forall s | s in slots[..i] ::
                  !(Leads(c, ids, genesisSeed, s, producer) && ProofHolds(c, genesisSeed, s, key, vrf))
    {
      assert slots[..i + 1] == slots[..i] + [slots[i]];
      if Leads(c, ids, genesisSeed, slots[i], producer) {
        matched := true;
        if ProofHolds(c, genesisSeed, slots[i], key, vrf) {
          proved := true;
          return;
        }
      }
    }
    assert slots[..|slots|] == slots;
  }
}
