/** How a node handles blocks and votes, in the steps of the vote network and as the code performs it. */
module VoteHandlers {
  import opened Common
  import opened VoteNet
  import opened Votes

  /** A gossiped block is imported together with what was fetched or pending around it, which leaves `chain`
      canonical, and is voted for. A vote is counted, and answered with an own vote. */
  datatype Handler =
    | OnBlock(at: Address, block: Hash, chain: seq<Hash>)
    | OnVote(at: Address, vote: Vote)

  /** Votes of unregistered voters are dropped. */
  function Handled(c: Config, e: Handler): (steps: seq<Step>)
    ensures |steps| == if e.OnVote? && e.vote.voter !in c.validators then 0 else 3
  {
    match e
    case OnBlock(at, block, chain) => [Adopt(at, chain), Cast(at, block, true), Settle(at, block, c.heightOf(block))]
    case OnVote(at, v) =>
      if v.voter !in c.validators then [] else [Deliver(at, v), Settle(at, v.block, v.height), Cast(at, v.block, true)]
  }

  /** What a handler does at its node, and what it signs. */
  ghost function PeerAfter(c: Config, p: Peer, e: Handler): Peer {
    var s := Handled(c, e);
    if s == [] then p else Local(c, Local(c, Local(c, p, s[0]), s[1]), s[2])
  }

  ghost function Signs(c: Config, p: Peer, e: Handler): set<Vote> {
    var s := Handled(c, e);
    if s == [] then {} else Says(c, Local(c, p, s[0]), s[1]) + Says(c, Local(c, Local(c, p, s[0]), s[1]), s[2])
  }

  // ---------- What handling achieves ----------

  /** Handling a block leaves no quorum behind: once the own vote is counted, a canonical block above what is
      finalized has no quorum left that would finalize it. */
  lemma BlockLeavesNoQuorum(c: Config, p: Peer, at: Address, block: Hash, chain: seq<Hash>)
    ensures !CanSettle(c, PeerAfter(c, p, OnBlock(at, block, chain)), block, c.heightOf(block))
    ensures var q := PeerAfter(c, p, OnBlock(at, block, chain));
            CanonicalAt(q, block, c.heightOf(block)) && Final(q.tally, c.validators, c.threshold, block)
            ==> q.fin >= c.heightOf(block)
  {
    hide Final, MayAdopt, WillVote, Added, Pruned;
  }

  /** The accepting registered voters of a block that a node holds. */
  ghost function Held(c: Config, p: Peer, block: Hash): set<Address> {
    Accepting(VotesFor(p.tally, block), c.validators)
  }

  lemma VoteCompletes(c: Config, t: Tally, v: Vote)
    requires v.accept && v.voter in c.validators && !HasVoted(VotesFor(t, v.block), v.voter)
    requires |Accepting(VotesFor(t, v.block), c.validators) + {v.voter}| as real / |c.validators| as real >= c.threshold
    ensures Final(Added(t, v), c.validators, c.threshold, v.block)
  {
    hide Accepting, HasVoted;
    AcceptingOneMore(VotesFor(t, v.block), v, c.validators);
  }

  /** So votes that came before the block count together with the own vote that its import casts: if they
      reach the threshold share, the block is final once it is handled. */
  lemma BlockCompletesQuorum(c: Config, p: Peer, me: Address, block: Hash, chain: seq<Hash>)
    requires MayAdopt(c, p, chain) && WillVote(c, me, p.(chain := chain), block) && c.heightOf(block) > p.fin
    requires me in c.validators && !HasVoted(VotesFor(p.tally, block), me)
    requires |Held(c, p, block) + {me}| as real / |c.validators| as real >= c.threshold
    ensures var q := PeerAfter(c, p, OnBlock(me, block, chain));
            q.fin == c.heightOf(block) && block in q.finals
  {
    hide MayAdopt, Pruned, Final, Added;
    var recorded := p.tally.(own := p.tally.own[c.heightOf(block) := block]);
    assert VotesFor(recorded, block) == VotesFor(p.tally, block);
    VoteCompletes(c, recorded, Ballot(c, me, block, true));
  }

  lemma AcceptingOneMore(votes: seq<Vote>, v: Vote, validators: seq<Address>)
    requires v.accept && v.voter in validators
    ensures Accepting(votes + [v], validators) == Accepting(votes, validators) + {v.voter}
  {
    assert (votes + [v])[|votes|] == v;
    assert forall i | 0 <= i < |votes| :: (votes + [v])[i] == votes[i];
  }

  /** A vote is counted before its block is tried: if with it the accepting voters reach the threshold
      share, a canonical block is final once the vote is handled. */
  lemma VoteCompletesQuorum(c: Config, p: Peer, at: Address, v: Vote)
    requires v.voter in c.validators && v.accept && !HasVoted(VotesFor(p.tally, v.block), v.voter)
    requires CanonicalAt(p, v.block, v.height) && v.height > p.fin
    requires |Held(c, p, v.block) + {v.voter}| as real / |c.validators| as real >= c.threshold
    ensures var q := PeerAfter(c, p, OnVote(at, v)); q.fin == v.height && v.block in q.finals
  {
    hide Pruned, WillVote, Final, Added;
    VoteCompletes(c, p.tally, v);
  }

  function Broadcast(said: Option<Vote>): set<Vote> {
    if said.Some? then {said.value} else {}
  }

  /** The node of an honest validator: its engine, its canonical chain and what it has finalized. */
  class SyncManager {
    const config: Config
    const me: Address
    const engine: Engine
    var chain: seq<Hash>
    var fin: nat
    ghost var finals: set<Hash>

    ghost function View(): Peer
      reads this, engine
    {
      Peer(engine.View(), chain, fin, finals)
    }

    ghost predicate Valid()
      reads this, engine
    {
      && engine.Ok() && me in config.honest
      && engine.validators == config.validators && engine.threshold == config.threshold
    }

    constructor (config: Config, me: Address)
      requires me in config.honest
      ensures Valid() && this.config == config && this.me == me && fresh(engine)
      ensures View() == Peer(Tally(map[], map[]), [config.genesis], 0, {})
    {
      this.config, this.me, chain, fin, finals := config, me, [config.genesis], 0, {};
      engine := new Engine(config.validators, config.threshold);
    }

    /** Finalize a canonical block above what is finalized, once a quorum accepts it, and prune. */
    method TryFinalize(block: Hash, height: nat)
      requires Valid()
      modifies this`fin, this`finals, engine
      ensures Valid() && View() == Local(config, old(View()), Settle(me, block, height))
    {
      hide Final, Pruned;
      if height <= fin || !CanonicalAt(Peer(Tally(map[], map[]), chain, fin, {}), block, height) {
        return;
      }
      var final := engine.CheckFinality(block);
      if final {
        engine.PruneOldVotes(height);
        fin, finals := height, finals + {block};
      }
    }

    /** Vote for a canonical block above genesis, unless a vote at its height is recorded. */
    method CastVote(block: Hash) returns (said: Option<Vote>)
      requires Valid()
      modifies engine
      ensures Valid() && View() == Local(config, old(View()), Cast(me, block, true))
      ensures Broadcast(said) == Says(config, old(View()), Cast(me, block, true))
    {
      hide Added;
      var height := config.heightOf(block);
      if height == 0 || height >= |chain| || chain[height] != block || !config.mayVote(fin, height) {
        return None;
      }
      var recorded := engine.TryRecordOwnVote(height, block);
      if !recorded {
        return None;
      }
      var vote := Ballot(config, me, block, true);
      engine.AddVote(vote);
      said := Some(vote);
    }

    /** Count a vote, finalize its block if that is now possible, and answer it. */
    method HandleVote(vote: Vote) returns (said: Option<Vote>)
      requires Valid()
      modifies this`fin, this`finals, engine
      ensures Valid() && View() == PeerAfter(config, old(View()), OnVote(me, vote))
      ensures Broadcast(said) == Signs(config, old(View()), OnVote(me, vote))
    {
      hide Added, CanSettle, WillVote, Pruned;
      if vote.voter !in config.validators {
        return None;
      }
      engine.AddVote(vote);
      TryFinalize(vote.block, vote.height);
      said := CastVote(vote.block);
    }

    /** Import a block, which leaves `adopted` canonical if that chain is better, vote for it if it is
        canonical, and finalize it if votes that came before it suffice. */
    method HandleBlock(block: Hash, adopted: seq<Hash>) returns (said: Option<Vote>)
      requires Valid()
      modifies this, engine
      ensures Valid() && View() == PeerAfter(config, old(View()), OnBlock(me, block, adopted))
      ensures Broadcast(said) == Signs(config, old(View()), OnBlock(me, block, adopted))
      ensures var height := config.heightOf(block);
              CanonicalAt(View(), block, height) && Final(engine.View(), config.validators, config.threshold, block)
              ==> fin >= height
    {
      hide CanSettle, WillVote, IsChain, Pruned, Added;
      if MayAdopt(config, Peer(Tally(map[], map[]), chain, fin, {}), adopted) {
        chain := adopted;
      }
      said := CastVote(block);
      TryFinalize(block, config.heightOf(block));
      BlockLeavesNoQuorum(config, old(View()), me, block, adopted);
    }
  }
}
