/** A network of nodes that vote on blocks: the steps their handlers are made of, in any order, with faulty
    validators that sign anything and votes delivered in any order and any number of times. */
module VoteNet {
  import opened Common
  import opened Votes

  /** A further condition on voting: whether a node that has finalized up to the first height votes at the
      second. The handlers have none. */
  type Rule = (nat, nat) -> bool

  /** The registry and threshold every engine shares, the validators that follow the protocol, what each
      block's header commits to, and the voting rule. */
  datatype Config = Config(validators: seq<Address>, threshold: real, honest: set<Address>, genesis: Hash,
                           heightOf: Hash -> nat, parentOf: Hash -> Hash, mayVote: Rule)

  /** A node: its engine's votes, its canonical chain by height, its finalized height, and every block it
      ever finalized. */
  datatype Peer = Peer(tally: Tally, chain: seq<Hash>, fin: nat, finals: set<Hash>)

  /** Signatures make a vote in an honest validator's name one it signed. */
  datatype Net = Net(peers: map<Address, Peer>, signed: set<Vote>)

  datatype Step =
    | Adopt(at: Address, chain: seq<Hash>)                  // an import moves the canonical chain
    | Deliver(at: Address, vote: Vote)                      // any signed vote, at any time, again and again
    | Settle(at: Address, block: Hash, height: nat)         // finalize the block if it can be
    | Cast(at: Address, block: Hash, accept: bool)          // vote for the block unless something forbids it
    | Forge(at: Address, vote: Vote)                        // a faulty validator signs anything

  predicate IsChain(c: Config, chain: seq<Hash>) {
    && chain != [] && chain[0] == c.genesis && c.heightOf(c.genesis) == 0
    && forall i | 0 < i < |chain| :: c.parentOf(chain[i]) == chain[i - 1] && c.heightOf(chain[i]) == i
  }

  /** Fork choice: a longer chain, or one as long with a lower last hash, that keeps what is finalized. */
  predicate MayAdopt(c: Config, p: Peer, chain: seq<Hash>) {
    && IsChain(c, chain) && p.chain != [] && p.fin < |p.chain| && p.fin < |chain|
    && chain[..p.fin + 1] == p.chain[..p.fin + 1]
    && (|chain| > |p.chain| || (|chain| == |p.chain| && chain[|chain| - 1] < p.chain[|chain| - 1]))
  }

  predicate CanonicalAt(p: Peer, block: Hash, height: nat) {
    height < |p.chain| && p.chain[height] == block
  }

  ghost predicate CanSettle(c: Config, p: Peer, block: Hash, height: nat) {
    height > p.fin && CanonicalAt(p, block, height) && Final(p.tally, c.validators, c.threshold, block)
  }

  /** A vote is cast for a canonical block above genesis, once per recorded height. */
  predicate WillVote(c: Config, me: Address, p: Peer, block: Hash) {
    var height := c.heightOf(block);
    && me in c.honest && 0 < height && CanonicalAt(p, block, height)
    && height !in p.tally.own && c.mayVote(p.fin, height)
  }

  function Ballot(c: Config, me: Address, block: Hash, accept: bool): Vote {
    Vote(block, c.heightOf(block), me, accept)
  }

  /** What a step does to the node it happens at. */
  ghost function Local(c: Config, p: Peer, step: Step): Peer {
    match step
    case Adopt(_, chain) => if MayAdopt(c, p, chain) then p.(chain := chain) else p
    case Deliver(_, v) => if v.voter in c.validators then p.(tally := Added(p.tally, v)) else p
    case Settle(_, block, height) =>
      if CanSettle(c, p, block, height) then Peer(Pruned(p.tally, height), p.chain, height, p.finals + {block}) else p
    case Cast(me, block, accept) =>
      if WillVote(c, me, p, block) then
        var recorded := p.tally.(own := p.tally.own[c.heightOf(block) := block]);
        p.(tally := Added(recorded, Ballot(c, me, block, accept)))
      else p
    case Forge(_, _) => p
  }

  /** The votes a node signs in a step. */
  ghost function Says(c: Config, p: Peer, step: Step): set<Vote> {
    if step.Cast? && WillVote(c, step.at, p, step.block) then {Ballot(c, step.at, step.block, step.accept)} else {}
  }

  ghost function Next(c: Config, n: Net, step: Step): Net {
    if step.Forge? then if step.vote.voter !in c.honest then n.(signed := n.signed + {step.vote}) else n
    else if step.at !in n.peers || (step.Deliver? && step.vote !in n.signed) then n
    else
      var p := n.peers[step.at];
      Net(n.peers[step.at := Local(c, p, step)], n.signed + Says(c, p, step))
  }

  ghost function Run(c: Config, n: Net, steps: seq<Step>): Net
    decreases |steps|
  {
    if steps == [] then n else Run(c, Next(c, n, steps[0]), steps[1..])
  }

  ghost predicate Initial(c: Config, n: Net) {
    && n.signed == {} && c.heightOf(c.genesis) == 0
    && forall a | a in n.peers :: n.peers[a] == Peer(Tally(map[], map[]), [c.genesis], 0, {})
  }

  // ---------- What every step keeps ----------

  /** The registered validators with a signed vote that accepts the block. */
  ghost function Backers(c: Config, signed: set<Vote>, block: Hash): set<Address> {
    set v | v in signed && v.block == block && v.accept && v.voter in c.validators :: v.voter
  }

  ghost predicate Quorum(c: Config, voters: set<Address>) {
    voters <= Members(c.validators) && |voters| as real >= c.threshold * |c.validators| as real
  }

  ghost predicate Backed(c: Config, signed: set<Vote>, block: Hash) {
    Quorum(c, Backers(c, signed, block))
  }

  /** A tally holds only signed votes, each filed under its block, one per voter. */
  ghost predicate Genuine(t: Tally, signed: set<Vote>) {
    forall b | b in t.pending ::
      && OneVoteEach(t.pending[b])
      && forall i | 0 <= i < |t.pending[b]| :: t.pending[b][i] in signed && t.pending[b][i].block == b
  }

  /** A node's chain is one, and what it finalized is backed by a quorum and on its chain. */
  ghost predicate Settled(c: Config, p: Peer, signed: set<Vote>) {
    && IsChain(c, p.chain) && p.fin < |p.chain|
    && (p.fin > 0 ==> Backed(c, signed, p.chain[p.fin]))
    && forall b | b in p.finals :: Backed(c, signed, b)
  }

  /** An honest validator's votes above what it has finalized are the ones it recorded. */
  ghost predicate Recorded(c: Config, n: Net) {
    forall v | v in n.signed && v.voter in c.honest ::
      && v.voter in n.peers && v.height == c.heightOf(v.block) && 0 < v.height
      && (n.peers[v.voter].fin < v.height ==>
            v.height in n.peers[v.voter].tally.own && n.peers[v.voter].tally.own[v.height] == v.block)
  }

  ghost predicate Sound(c: Config, n: Net) {
    && Recorded(c, n)
    && forall a | a in n.peers :: Genuine(n.peers[a].tally, n.signed) && Settled(c, n.peers[a], n.signed)
  }

  lemma AddedIsGenuine(t: Tally, v: Vote, signed: set<Vote>)
    requires Genuine(t, signed) && v in signed
    ensures Genuine(Added(t, v), signed) && Added(t, v).own == t.own
  {
    var votes := VotesFor(t, v.block);
    if !HasVoted(votes, v.voter) {
      assert OneVoteEach(votes + [v]);
    }
  }

  lemma GenuineGrows(t: Tally, signed: set<Vote>, signed': set<Vote>)
    requires Genuine(t, signed) && signed <= signed'
    ensures Genuine(t, signed')
  {
  }

  lemma OwnIsIndependent(t: Tally, own: map<nat, Hash>, signed: set<Vote>)
    requires Genuine(t, signed)
    ensures Genuine(t.(own := own), signed)
  {
  }

  lemma PrunedIsGenuine(t: Tally, height: nat, signed: set<Vote>)
    requires Genuine(t, signed)
    ensures Genuine(Pruned(t, height), signed)
    ensures forall h | h in t.own && h > height :: h in Pruned(t, height).own && Pruned(t, height).own[h] == t.own[h]
  {
  }

  lemma BackedGrows(c: Config, signed: set<Vote>, signed': set<Vote>, block: Hash)
    requires signed <= signed' && Backed(c, signed, block)
    ensures Backed(c, signed', block)
  {
    Subset(Backers(c, signed, block), Backers(c, signed', block));
  }

  lemma SettledGrows(c: Config, p: Peer, signed: set<Vote>, signed': set<Vote>)
    requires Settled(c, p, signed) && signed <= signed'
    ensures Settled(c, p, signed')
  {
    hide Backed, IsChain;
    if p.fin > 0 {
      BackedGrows(c, signed, signed', p.chain[p.fin]);
    }
    forall b | b in p.finals ensures Backed(c, signed', b) {
      BackedGrows(c, signed, signed', b);
    }
  }

  /** What an engine counts as final a quorum has signed. */
  lemma FinalIsBacked(c: Config, t: Tally, signed: set<Vote>, block: Hash)
    requires Genuine(t, signed) && Final(t, c.validators, c.threshold, block)
    ensures Backed(c, signed, block)
  {
    var accepting := Accepting(t.pending[block], c.validators);
    assert accepting <= Backers(c, signed, block);
    Subset(accepting, Backers(c, signed, block));
    QuorumSize(|accepting|, |c.validators|, c.threshold);
  }

  /** What a step leaves at its node, given the votes signed by then. */
  lemma LocalIsSound(c: Config, p: Peer, signed: set<Vote>, step: Step)
    requires Genuine(p.tally, signed) && Settled(c, p, signed) && (step.Deliver? ==> step.vote in signed)
    ensures var p', signed' := Local(c, p, step), signed + Says(c, p, step);
            Genuine(p'.tally, signed') && Settled(c, p', signed') && p'.fin >= p.fin
  {
    hide Genuine, Added, Pruned, Final, Backed, WillVote, IsChain;
    var signed' := signed + Says(c, p, step);
    GenuineGrows(p.tally, signed, signed');
    SettledGrows(c, p, signed, signed');
    match step
    case Adopt(_, chain) =>
      if MayAdopt(c, p, chain) {
        assert chain[p.fin] == chain[..p.fin + 1][p.fin] == p.chain[..p.fin + 1][p.fin] == p.chain[p.fin];
      }
    case Deliver(_, v) => AddedIsGenuine(p.tally, v, signed');
    case Settle(_, block, height) =>
      if CanSettle(c, p, block, height) {
        FinalIsBacked(c, p.tally, signed', block);
        PrunedIsGenuine(p.tally, height, signed');
      }
    case Cast(me, block, accept) =>
      if WillVote(c, me, p, block) {
        var recorded := p.tally.(own := p.tally.own[c.heightOf(block) := block]);
        OwnIsIndependent(p.tally, recorded.own, signed');
        AddedIsGenuine(recorded, Ballot(c, me, block, accept), signed');
      }
    case Forge(_, _) =>
  }

  /** Own votes above the finalized height stay recorded. */
  lemma LocalKeepsOwn(c: Config, p: Peer, step: Step, h: nat)
    requires h in p.tally.own && Local(c, p, step).fin < h
    ensures h in Local(c, p, step).tally.own && Local(c, p, step).tally.own[h] == p.tally.own[h]
  {
    hide Final, MayAdopt, VotesFor, HasVoted;
  }

  lemma CastRecords(c: Config, p: Peer, me: Address, block: Hash, accept: bool)
    requires WillVote(c, me, p, block)
    ensures var own := Local(c, p, Cast(me, block, accept)).tally.own;
            c.heightOf(block) in own && own[c.heightOf(block)] == block
  {
    hide VotesFor, HasVoted;
  }

  lemma RecordsStay(c: Config, n: Net, step: Step)
    requires Sound(c, n)
    ensures Recorded(c, Next(c, n, step))
  {
    hide Genuine, Settled, Local, WillVote;
    var n' := Next(c, n, step);
    if !step.Forge? && step.at in n.peers && n' != n {
      var p := n.peers[step.at];
      LocalIsSound(c, p, n.signed, step);
      forall v | v in n'.signed && v.voter in c.honest
        ensures v.voter in n'.peers && v.height == c.heightOf(v.block) && 0 < v.height
        ensures n'.peers[v.voter].fin < v.height ==>
                  v.height in n'.peers[v.voter].tally.own && n'.peers[v.voter].tally.own[v.height] == v.block
      {
        if v in Says(c, p, step) {
          WillVoteMeans(c, step.at, p, step.block);
          CastRecords(c, p, step.at, step.block, step.accept);
        } else if v.voter == step.at && n'.peers[v.voter].fin < v.height {
          LocalKeepsOwn(c, p, step, v.height);
        }
      }
    }
  }

  lemma WillVoteMeans(c: Config, me: Address, p: Peer, block: Hash)
    requires WillVote(c, me, p, block)
    ensures me in c.honest && 0 < c.heightOf(block) && CanonicalAt(p, block, c.heightOf(block))
    ensures c.heightOf(block) !in p.tally.own && c.mayVote(p.fin, c.heightOf(block))
  {
  }

  lemma NextIsSound(c: Config, n: Net, step: Step)
    requires Sound(c, n)
    ensures Sound(c, Next(c, n, step)) && n.signed <= Next(c, n, step).signed
  {
    hide Genuine, Settled, Local, Recorded, Says;
    var n' := Next(c, n, step);
    RecordsStay(c, n, step);
    if !step.Forge? && step.at in n.peers && n' != n {
      LocalIsSound(c, n.peers[step.at], n.signed, step);
    }
    forall a | a in n'.peers ensures Genuine(n'.peers[a].tally, n'.signed) && Settled(c, n'.peers[a], n'.signed) {
      if step.Forge? || a != step.at || n' == n {
        GenuineGrows(n.peers[a].tally, n.signed, n'.signed);
        SettledGrows(c, n.peers[a], n.signed, n'.signed);
      }
    }
  }

  lemma {:induction false} RunIsSound(c: Config, n: Net, steps: seq<Step>)
    requires Sound(c, n)
    ensures Sound(c, Run(c, n, steps)) && n.signed <= Run(c, n, steps).signed
    decreases |steps|
  {
    hide Sound, Next;
    if steps != [] {
      NextIsSound(c, n, steps[0]);
      RunIsSound(c, Next(c, n, steps[0]), steps[1..]);
    }
  }

  lemma StartIsSound(c: Config, n: Net)
    requires Initial(c, n)
    ensures Sound(c, n)
  {
    hide Backed;
  }

  // ---------- Safety at one height ----------

  /** Fewer faulty validators than two quorums must share. */
  ghost predicate Tolerant(c: Config) {
    |Members(c.validators) - c.honest| as real < (2.0 * c.threshold - 1.0) * |c.validators| as real
  }

  /** Two quorums share an honest validator. */
  lemma HonestInBoth(c: Config, a: set<Address>, b: set<Address>) returns (voter: Address)
    requires Tolerant(c) && Quorum(c, a) && Quorum(c, b)
    ensures voter in c.honest && voter in a && voter in b
  {
    hide Members;
    RegistrySize(c.validators);
    var size := |c.validators|;
    Expand(c.threshold, size as real);
    QuorumsMeet(a, b, Members(c.validators), Members(c.validators) - c.honest, size, c.threshold * size as real);
    voter :| voter in a && voter in b && voter !in Members(c.validators) - c.honest;
  }

  /** The blocks a validator has signed votes for at a height. */
  ghost function VotedAt(signed: set<Vote>, voter: Address, h: nat): set<Hash> {
    set v | v in signed && v.voter == voter && v.height == h :: v.block
  }

  /** No honest validator has voted for two blocks at the height. */
  ghost predicate Single(c: Config, signed: set<Vote>, h: nat) {
    forall a, x, y | a in c.honest && x in VotedAt(signed, a, h) && y in VotedAt(signed, a, h) :: x == y
  }

  /** A quorum whose honest validators have voted at the height for `q` and nothing else. */
  ghost predicate Core(c: Config, signed: set<Vote>, h: nat, q: Hash, core: set<Address>) {
    Quorum(c, core) && forall a | a in core && a in c.honest :: VotedAt(signed, a, h) == {q}
  }

  /** Why at most one block of the height is backed: nobody honest voted twice, or else a quorum stands by
      one block and only by it. */
  ghost predicate Decided(c: Config, signed: set<Vote>, h: nat) {
    Single(c, signed, h) || exists q, core :: Core(c, signed, h, q, core)
  }

  lemma BackersVoted(c: Config, n: Net, block: Hash, a: Address)
    requires Recorded(c, n) && a in Backers(c, n.signed, block) && a in c.honest
    ensures block in VotedAt(n.signed, a, c.heightOf(block))
  {
  }

  lemma OneBacked(c: Config, n: Net, x: Hash, y: Hash)
    requires Tolerant(c) && Recorded(c, n) && Decided(c, n.signed, c.heightOf(x)) && c.heightOf(x) == c.heightOf(y)
    requires Backed(c, n.signed, x) && Backed(c, n.signed, y)
    ensures x == y
  {
    hide Backers, VotedAt, Quorum, Tolerant, Recorded;
    var h := c.heightOf(x);
    if Single(c, n.signed, h) {
      var a := HonestInBoth(c, Backers(c, n.signed, x), Backers(c, n.signed, y));
      BackersVoted(c, n, x, a);
      BackersVoted(c, n, y, a);
    } else {
      var q, core :| Core(c, n.signed, h, q, core);
      var a := HonestInBoth(c, core, Backers(c, n.signed, x));
      BackersVoted(c, n, x, a);
      var b := HonestInBoth(c, core, Backers(c, n.signed, y));
      BackersVoted(c, n, y, b);
    }
  }

  /** A vote at height `h` is not cast by a node that has finalized above `h`. */
  ghost predicate NotBelow(c: Config, n: Net, step: Step, h: nat) {
    step.Cast? && step.at in n.peers && WillVote(c, step.at, n.peers[step.at], step.block)
    && c.heightOf(step.block) == h
    ==> n.peers[step.at].fin <= h
  }

  ghost predicate NeverBelow(c: Config, n: Net, steps: seq<Step>, h: nat)
    decreases |steps|
  {
    steps == [] || (NotBelow(c, n, steps[0], h) && NeverBelow(c, Next(c, n, steps[0]), steps[1..], h))
  }

  /** One more vote of an honest validator at the height: a first one, one for what it voted before, or one
      for a block a quorum already backs. */
  lemma VoteKeepsDecided(c: Config, n: Net, v: Vote)
    requires Tolerant(c) && Recorded(c, n) && Decided(c, n.signed, v.height) && v.height == c.heightOf(v.block)
    requires VotedAt(n.signed, v.voter, v.height) <= {v.block} || Backed(c, n.signed, v.block)
    ensures Decided(c, n.signed + {v}, v.height)
  {
    hide Tolerant, Recorded, Quorum, Backers;
    var h, signed' := v.height, n.signed + {v};
    forall a ensures VotedAt(signed', a, h) == VotedAt(n.signed, a, h) + if a == v.voter then {v.block} else {} {
      VotedMore(n.signed, v, a);
    }
    hide VotedAt;
    if Single(c, n.signed, h) {
      if !(VotedAt(n.signed, v.voter, h) <= {v.block}) {
        assert Core(c, signed', h, v.block, Backers(c, n.signed, v.block)) by {
          forall a | a in Backers(c, n.signed, v.block) && a in c.honest ensures VotedAt(signed', a, h) == {v.block} {
            BackersVoted(c, n, v.block, a);
          }
        }
      }
    } else {
      var q, core :| Core(c, n.signed, h, q, core);
      if VotedAt(n.signed, v.voter, h) <= {v.block} {
        assert Core(c, signed', h, q, core);
      } else {
        var a := HonestInBoth(c, core, Backers(c, n.signed, v.block));
        BackersVoted(c, n, v.block, a);
        assert Core(c, signed', h, q, core);
      }
    }
  }

  lemma VotedMore(signed: set<Vote>, v: Vote, a: Address)
    ensures VotedAt(signed + {v}, a, v.height)
         == VotedAt(signed, a, v.height) + if a == v.voter then {v.block} else {}
  {
  }

  lemma SameVotesDecided(c: Config, signed: set<Vote>, signed': set<Vote>, h: nat)
    requires Decided(c, signed, h) && forall a | a in c.honest :: VotedAt(signed', a, h) == VotedAt(signed, a, h)
    ensures Decided(c, signed', h)
  {
    hide VotedAt, Quorum;
    if !Single(c, signed, h) {
      var q, core :| Core(c, signed, h, q, core);
      assert Core(c, signed', h, q, core);
    }
  }

  /** A node that votes at `h` and has not finalized above `h` votes there for the first time, or for the
      block it finalized there. */
  lemma CastIsSafe(c: Config, n: Net, me: Address, block: Hash)
    requires Sound(c, n) && me in n.peers && WillVote(c, me, n.peers[me], block) && n.peers[me].fin <= c.heightOf(block)
    ensures VotedAt(n.signed, me, c.heightOf(block)) == {} || Backed(c, n.signed, block)
  {
    hide Genuine, Backed, IsChain;
    var p, h := n.peers[me], c.heightOf(block);
    if p.fin == h {
      assert Settled(c, p, n.signed);
    } else {
      forall v | v in n.signed ensures !(v.voter == me && v.height == h) {
      }
    }
  }

  lemma NextKeepsDecided(c: Config, n: Net, step: Step, h: nat)
    requires Tolerant(c) && Sound(c, n) && Decided(c, n.signed, h) && NotBelow(c, n, step, h)
    ensures Decided(c, Next(c, n, step).signed, h)
  {
    hide Tolerant, Decided, Genuine, Settled, Local, Recorded, WillVote;
    var n' := Next(c, n, step);
    if step.Cast? && step.at in n.peers && WillVote(c, step.at, n.peers[step.at], step.block)
       && c.heightOf(step.block) == h {
      CastIsSafe(c, n, step.at, step.block);
      VoteKeepsDecided(c, n, Ballot(c, step.at, step.block, step.accept));
    } else {
      SameVotesDecided(c, n.signed, n'.signed, h) by {
        forall a | a in c.honest ensures VotedAt(n'.signed, a, h) == VotedAt(n.signed, a, h) {
        }
      }
    }
  }

  lemma {:induction false} RunKeepsDecided(c: Config, n: Net, steps: seq<Step>, h: nat)
    requires Tolerant(c) && Sound(c, n) && Decided(c, n.signed, h) && NeverBelow(c, n, steps, h)
    ensures Decided(c, Run(c, n, steps).signed, h)
    decreases |steps|
  {
    hide Tolerant, Sound, Decided, NotBelow, Next;
    if steps != [] {
      NextIsSound(c, n, steps[0]);
      NextKeepsDecided(c, n, steps[0], h);
      RunKeepsDecided(c, Next(c, n, steps[0]), steps[1..], h);
    }
  }

  lemma {:induction false} RunSplits(c: Config, n: Net, steps: seq<Step>, k: nat)
    requires k <= |steps|
    ensures Run(c, n, steps) == Run(c, Run(c, n, steps[..k]), steps[k..])
    decreases k
  {
    hide Next;
    if k == 0 {
      assert steps[..0] == [] && steps[0..] == steps;
    } else {
      assert steps[..k][0] == steps[0] && steps[..k][1..] == steps[1..][..k - 1] && steps[1..][k - 1..] == steps[k..];
      RunSplits(c, Next(c, n, steps[0]), steps[1..], k - 1);
    }
  }

  lemma StartIsDecided(c: Config, n: Net, h: nat)
    requires Initial(c, n)
    ensures Decided(c, n.signed, h)
  {
    assert Single(c, n.signed, h);
  }

  /** A node counts the block final, or has finalized it. */
  ghost predicate Finalizes(c: Config, n: Net, x: Address, b: Hash) {
    x in n.peers && (Final(n.peers[x].tally, c.validators, c.threshold, b) || b in n.peers[x].finals)
  }

  lemma FinalizedIsBacked(c: Config, n: Net, x: Address, b: Hash)
    requires Sound(c, n) && Finalizes(c, n, x, b)
    ensures Backed(c, n.signed, b)
  {
    hide Genuine, Recorded, Backed, Final;
    if Final(n.peers[x].tally, c.validators, c.threshold, b) {
      FinalIsBacked(c, n.peers[x].tally, n.signed, b);
    } else {
      assert Settled(c, n.peers[x], n.signed);
    }
  }

  /** Vote safety: with fewer than (2t-1)N faulty validators no two nodes finalize different blocks at one
      height, one at any moment of a run and one at its end, whatever votes were delivered, to whom, in
      which order and how often, provided no honest validator votes at that height after it has finalized
      above it. */
  lemma NoTwoFinalBlocks(c: Config, start: Net, steps: seq<Step>, k: nat, x: Address, y: Address, b: Hash, b': Hash)
    requires Initial(c, start) && Tolerant(c) && k <= |steps| && NeverBelow(c, start, steps, c.heightOf(b))
    requires Finalizes(c, Run(c, start, steps[..k]), x, b) && Finalizes(c, Run(c, start, steps), y, b')
    requires c.heightOf(b) == c.heightOf(b')
    ensures b == b'
  {
    hide Initial, Tolerant, NeverBelow, Finalizes, Sound, Decided, Run, Backed;
    var m, n := Run(c, start, steps[..k]), Run(c, start, steps);
    StartIsSound(c, start);
    StartIsDecided(c, start, c.heightOf(b));
    RunIsSound(c, start, steps[..k]);
    RunIsSound(c, start, steps);
    RunSplits(c, start, steps, k);
    RunIsSound(c, m, steps[k..]);
    FinalizedIsBacked(c, m, x, b);
    FinalizedIsBacked(c, n, y, b');
    BackedGrows(c, m.signed, n.signed, b);
    RunKeepsDecided(c, start, steps, c.heightOf(b));
    SoundIsRecorded(c, n);
    OneBacked(c, n, b, b');
  }

  lemma SoundIsRecorded(c: Config, n: Net)
    requires Sound(c, n)
    ensures Recorded(c, n)
  {
  }

  // ---------- One chain ----------

  /** The ancestor `k` parents up. */
  ghost function Up(c: Config, b: Hash, k: nat): Hash
    decreases k
  {
    if k == 0 then b else Up(c, c.parentOf(b), k - 1)
  }

  ghost predicate Descends(c: Config, b: Hash, a: Hash) {
    c.heightOf(a) <= c.heightOf(b) && Up(c, b, c.heightOf(b) - c.heightOf(a)) == a
  }

  ghost predicate OneChain(c: Config, a: Hash, b: Hash) {
    Descends(c, a, b) || Descends(c, b, a)
  }

  /** A voting rule with a lock: vote only for descendants of every block voted for before. */
  ghost predicate Locked(c: Config, n: Net, step: Step) {
    step.Cast? && step.at in n.peers && WillVote(c, step.at, n.peers[step.at], step.block)
    ==> forall v | v in n.signed && v.voter == step.at :: Descends(c, step.block, v.block)
  }

  ghost predicate AlwaysLocked(c: Config, n: Net, steps: seq<Step>)
    decreases |steps|
  {
    steps == [] || (Locked(c, n, steps[0]) && AlwaysLocked(c, Next(c, n, steps[0]), steps[1..]))
  }

  /** Each honest validator's votes lie on one chain. */
  ghost predicate VotesOnOneChain(c: Config, signed: set<Vote>) {
    forall v, w | v in signed && w in signed && v.voter == w.voter && v.voter in c.honest ::
      OneChain(c, v.block, w.block)
  }

  lemma {:induction false} LockedVotes(c: Config, n: Net, steps: seq<Step>)
    requires VotesOnOneChain(c, n.signed) && AlwaysLocked(c, n, steps)
    ensures VotesOnOneChain(c, Run(c, n, steps).signed)
    decreases |steps|
  {
    hide Descends, WillVote, Local;
    if steps != [] {
      var n' := Next(c, n, steps[0]);
      assert VotesOnOneChain(c, n'.signed) by {
        forall b ensures Descends(c, b, b) {
          SelfDescends(c, b);
        }
      }
      LockedVotes(c, n', steps[1..]);
    }
  }

  lemma SelfDescends(c: Config, b: Hash)
    ensures Descends(c, b, b)
  {
  }

  /** With the lock, whatever two nodes finalize, at whatever heights and moments, lies on one chain. */
  lemma LockedFinalsOnOneChain(c: Config, start: Net, steps: seq<Step>, k: nat, x: Address, y: Address, b: Hash,
                               b': Hash)
    requires Initial(c, start) && Tolerant(c) && k <= |steps| && AlwaysLocked(c, start, steps)
    requires Finalizes(c, Run(c, start, steps[..k]), x, b) && Finalizes(c, Run(c, start, steps), y, b')
    ensures OneChain(c, b, b')
  {
    hide Tolerant, AlwaysLocked, Finalizes, Sound, Run, Quorum, Descends;
    var m, n := Run(c, start, steps[..k]), Run(c, start, steps);
    StartIsSound(c, start);
    assert VotesOnOneChain(c, start.signed);
    RunIsSound(c, start, steps[..k]);
    RunIsSound(c, start, steps);
    RunSplits(c, start, steps, k);
    RunIsSound(c, m, steps[k..]);
    FinalizedIsBacked(c, m, x, b);
    FinalizedIsBacked(c, n, y, b');
    BackedGrows(c, m.signed, n.signed, b);
    LockedVotes(c, start, steps);
    var a := HonestInBoth(c, Backers(c, n.signed, b), Backers(c, n.signed, b'));
  }
}
