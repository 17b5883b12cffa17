/** Runs of the coded handlers with honest validators only that finalize conflicting blocks, and the exact
    voting rule that excludes two final blocks at one height. */
module VoteRuns {
  import opened Common
  import opened Votes
  import opened VoteHandlers
  import opened VoteNet

  // ---------- Runs of handlers ----------

  /** The steps of the handlers from `i` on. */
  function Flat(c: Config, es: seq<Handler>, i: nat): seq<Step>
    requires i <= |es|
    decreases |es| - i
  {
    if i == |es| then [] else Handled(c, es[i]) + Flat(c, es, i + 1)
  }

  ghost function Handle(c: Config, n: Net, e: Handler): Net {
    Run(c, n, Handled(c, e))
  }

  ghost function HandleFrom(c: Config, n: Net, es: seq<Handler>, i: nat): Net
    requires i <= |es|
    decreases |es| - i
  {
    if i == |es| then n else HandleFrom(c, Handle(c, n, es[i]), es, i + 1)
  }

  lemma {:induction false} HandlingIsRun(c: Config, n: Net, es: seq<Handler>, i: nat)
    requires i <= |es|
    ensures HandleFrom(c, n, es, i) == Run(c, n, Flat(c, es, i))
    decreases |es| - i
  {
    hide Run, Handled;
    if i == |es| {
      RunNone(c, n);
    } else {
      var first, rest := Handled(c, es[i]), Flat(c, es, i + 1);
      RunSplits(c, n, first + rest, |first|);
      assert (first + rest)[..|first|] == first && (first + rest)[|first|..] == rest;
      HandlingIsRun(c, Handle(c, n, es[i]), es, i + 1);
    }
  }

  lemma RunNone(c: Config, n: Net)
    ensures Run(c, n, []) == n
  {
  }

  lemma HandleIs(c: Config, n: Net, e: Handler)
    requires e.at in n.peers && (e.OnVote? ==> e.vote in n.signed && e.vote.voter in c.validators)
    ensures Handle(c, n, e)
         == Net(n.peers[e.at := PeerAfter(c, n.peers[e.at], e)], n.signed + Signs(c, n.peers[e.at], e))
  {
    hide Local, WillVote;
    var s := Handled(c, e);
    assert s[1..][1..] == [s[2]] && [s[2]][1..] == [];
    var one := Next(c, n, s[0]);
    var two := Next(c, one, s[1]);
    var three := Next(c, two, s[2]);
    assert Run(c, two, s[1..][1..]) == three;
    assert Run(c, one, s[1..]) == three;
  }

  // ---------- Four validators ----------

  /** Four honest validators, and a tree with one fork: even hashes are the chain 0, 2, 4, ..., and the odd
      hash after `2h` is another block at height `h`. */
  function Four(rule: Rule): Config {
    Config([1, 2, 3, 4], 0.67, {1, 2, 3, 4}, 0, (x: Hash) => x / 2, (x: Hash) => if x < 2 then 0 else 2 * (x / 2 - 1),
           rule)
  }

  lemma Registered(rule: Rule, a: Address)
    requires a in {1, 2, 3, 4}
    ensures a in Four(rule).validators
  {
  }

  function Trunk(f: nat): seq<Hash> {
    seq(f + 1, i => 2 * i)
  }

  function Branch(h: nat): seq<Hash> {
    seq(h + 1, i => if i == h then 2 * h + 1 else 2 * i)
  }

  lemma TrunkIsChain(rule: Rule, f: nat)
    ensures IsChain(Four(rule), Trunk(f))
  {
  }

  lemma BranchIsChain(rule: Rule, h: nat)
    requires h > 0
    ensures IsChain(Four(rule), Branch(h))
  {
  }

  function Fresh(): Peer {
    Peer(Tally(map[], map[]), [0], 0, {})
  }

  function Start(): Net {
    Net(map[1 := Fresh(), 2 := Fresh(), 3 := Fresh(), 4 := Fresh()], {})
  }

  lemma {:induction false} AllAccept(votes: seq<Vote>, validators: seq<Address>)
    requires OneVoteEach(votes) && forall i | 0 <= i < |votes| :: votes[i].accept && votes[i].voter in validators
    ensures |Accepting(votes, validators)| == |votes|
  {
    hide Accepting, OneVoteEach;
    if votes == [] {
      assert Accepting(votes, validators) == {} by { NobodyAccepts(validators); }
    } else {
      var n := |votes| - 1;
      AcceptingGrows(votes, validators, n);
      assert votes[..n + 1] == votes;
      FewerVotes(votes, n);
      AllAccept(votes[..n], validators);
    }
  }

  lemma NobodyAccepts(validators: seq<Address>)
    ensures Accepting([], validators) == {}
  {
  }

  lemma FewerVotes(votes: seq<Vote>, n: nat)
    requires OneVoteEach(votes) && n <= |votes|
    ensures OneVoteEach(votes[..n])
  {
  }

  /** Of four validators three make a quorum and two do not. */
  lemma FinalIff(rule: Rule, t: Tally, b: Hash)
    requires b in t.pending && OneVoteEach(t.pending[b])
    requires forall i | 0 <= i < |t.pending[b]| :: t.pending[b][i].accept && t.pending[b][i].voter in {1, 2, 3, 4}
    ensures Final(t, Four(rule).validators, Four(rule).threshold, b) <==> |t.pending[b]| >= 3
  {
    hide Accepting;
    assert forall i | 0 <= i < |t.pending[b]| :: t.pending[b][i].voter in [1, 2, 3, 4];
    AllAccept(t.pending[b], [1, 2, 3, 4]);
  }

  /** Accepting votes of different registered validators. */
  ghost predicate Plain(votes: seq<Vote>) {
    OneVoteEach(votes) && forall i | 0 <= i < |votes| :: votes[i].accept && votes[i].voter in {1, 2, 3, 4}
  }

  /** A new accepting vote of a registered validator. */
  ghost predicate Fresher(votes: seq<Vote>, v: Vote) {
    Plain(votes) && v.accept && v.voter in {1, 2, 3, 4} && !HasVoted(votes, v.voter) && v.height == v.block / 2
  }

  function Yes(me: Address, b: Hash): Vote {
    Vote(b, b / 2, me, true)
  }

  /** Importing a block that becomes canonical at a height not voted at: one vote for it, which alone
      finalizes nothing. */
  lemma VotesOnBlock(rule: Rule, p: Peer, me: Address, b: Hash, chain: seq<Hash>)
    requires me in {1, 2, 3, 4} && MayAdopt(Four(rule), p, chain) && 0 < b / 2 < |chain| && chain[b / 2] == b
    requires b / 2 !in p.tally.own && b !in p.tally.pending && rule(p.fin, b / 2)
    ensures PeerAfter(Four(rule), p, OnBlock(me, b, chain))
         == p.(chain := chain, tally := Tally(p.tally.pending[b := [Yes(me, b)]], p.tally.own[b / 2 := b]))
    ensures Signs(Four(rule), p, OnBlock(me, b, chain)) == {Yes(me, b)}
  {
    hide MayAdopt, Final;
    var t := Tally(p.tally.pending[b := [Yes(me, b)]], p.tally.own[b / 2 := b]);
    AddedFirst(p.tally.(own := t.own), Yes(me, b));
    hide Added;
    FinalIff(rule, t, b);
  }

  /** A vote that is not the third, at a height voted at: it is kept and nothing else happens. */
  lemma Counts(rule: Rule, p: Peer, me: Address, v: Vote)
    requires Fresher(VotesFor(p.tally, v.block), v) && |VotesFor(p.tally, v.block)| < 2 && v.height in p.tally.own
    ensures PeerAfter(Four(rule), p, OnVote(me, v))
         == p.(tally := p.tally.(pending := p.tally.pending[v.block := VotesFor(p.tally, v.block) + [v]]))
    ensures Signs(Four(rule), p, OnVote(me, v)) == {}
  {
    hide Final, HasVoted;
    PlainGrows(VotesFor(p.tally, v.block), v);
    FinalIff(rule, Added(p.tally, v), v.block);
  }

  lemma PlainGrows(votes: seq<Vote>, v: Vote)
    requires Fresher(votes, v)
    ensures Plain(votes + [v])
  {
  }

  /** The third vote for a canonical block above what is finalized. */
  lemma Completes(rule: Rule, p: Peer, me: Address, v: Vote)
    requires Fresher(VotesFor(p.tally, v.block), v) && |VotesFor(p.tally, v.block)| == 2
    requires v.height > p.fin && CanonicalAt(p, v.block, v.height)
    ensures var q := PeerAfter(Four(rule), p, OnVote(me, v));
            && q.fin == v.height && q.chain == p.chain && q.finals == p.finals + {v.block}
            && forall h | h in q.tally.own :: h >= v.height
  {
    hide Final, HasVoted;
    PlainGrows(VotesFor(p.tally, v.block), v);
    FinalIff(rule, Added(p.tally, v), v.block);
  }

  /** A first vote for a canonical block at a height not voted at is answered. */
  lemma Answers(rule: Rule, p: Peer, me: Address, v: Vote)
    requires me in {1, 2, 3, 4} && me != v.voter && v.block !in p.tally.pending && Fresher([], v)
    requires 0 < v.height && CanonicalAt(p, v.block, v.height) && v.height !in p.tally.own && rule(p.fin, v.height)
    ensures PeerAfter(Four(rule), p, OnVote(me, v))
         == p.(tally := Tally(p.tally.pending[v.block := [v, Yes(me, v.block)]], p.tally.own[v.height := v.block]))
    ensures Signs(Four(rule), p, OnVote(me, v)) == {Yes(me, v.block)}
  {
    hide Final, Added;
    var t := p.tally.(pending := p.tally.pending[v.block := [v]]);
    AddedFirst(p.tally, v);
    FinalIff(rule, t, v.block);
    AddedSecond(t.(own := t.own[v.height := v.block]), v, Yes(me, v.block));
  }

  lemma AddedFirst(t: Tally, v: Vote)
    requires v.block !in t.pending
    ensures Added(t, v) == t.(pending := t.pending[v.block := [v]])
  {
    assert VotesFor(t, v.block) + [v] == [v];
  }

  lemma AddedSecond(t: Tally, v: Vote, w: Vote)
    requires w.block in t.pending && t.pending[w.block] == [v] && w.voter != v.voter
    ensures Added(t, w) == t.(pending := t.pending[w.block := [v, w]])
  {
    assert [v] + [w] == [v, w];
  }

  /** So it is at or below the finalized height, once pruning has dropped the record of an earlier vote. */
  lemma AnswersLate(rule: Rule, p: Peer, me: Address, v: Vote)
    requires me in {1, 2, 3, 4} && v.voter in {1, 2, 3, 4} && v.height == v.block / 2
    requires 0 < v.height <= p.fin && CanonicalAt(p, v.block, v.height) && v.height !in p.tally.own
    requires rule(p.fin, v.height)
    ensures Signs(Four(rule), p, OnVote(me, v)) == {Yes(me, v.block)}
    ensures PeerAfter(Four(rule), p, OnVote(me, v)).finals == p.finals
  {
    hide Final, VotesFor, HasVoted;
  }

  // ---------- The run ----------

  /** Of height `h`, block `2h + 1` is on its own branch and block `2h` on the trunk, which block `2f` ends.
      Validators 1, 2 and 3 vote for the first, and 3 finalizes it. */
  function ForBranch(h: nat): seq<Handler> {
    var a := 2 * h + 1;
    [OnBlock(1, a, Branch(h)), OnBlock(2, a, Branch(h)), OnBlock(3, a, Branch(h)), OnVote(3, Yes(1, a)),
     OnVote(3, Yes(2, a))]
  }

  /** Validator 4, on the trunk, votes for its block at `h`. Validators 1 and 2 move to the trunk and vote for
      its end, 4 answers, and 1 and 2 finalize it. */
  function ForTrunk(h: nat, f: nat): seq<Handler> {
    var b, d := 2 * h, 2 * f;
    [OnBlock(4, b, Trunk(f)), OnBlock(1, d, Trunk(f)), OnBlock(2, d, Trunk(f)), OnVote(4, Yes(1, d)),
     OnVote(1, Yes(2, d)), OnVote(1, Yes(4, d)), OnVote(2, Yes(1, d)), OnVote(2, Yes(4, d))]
  }

  /** The vote of 4 at `h` reaches 1 and 2, which answer it, and 4 finalizes its block. */
  function LateVote(h: nat): seq<Handler> {
    var b := 2 * h;
    [OnVote(1, Yes(4, b)), OnVote(2, Yes(4, b)), OnVote(4, Yes(1, b)), OnVote(4, Yes(2, b))]
  }

  function OnBranch(me: Address, h: nat): Peer {
    Peer(Tally(map[2 * h + 1 := [Yes(me, 2 * h + 1)]], map[h := 2 * h + 1]), Branch(h), 0, {})
  }

  function OnTrunk(me: Address, h: nat, f: nat): Peer {
    Peer(Tally(map[2 * h + 1 := [Yes(me, 2 * h + 1)]][2 * f := [Yes(me, 2 * f)]], map[h := 2 * h + 1][f := 2 * f]),
         Trunk(f), 0, {})
  }

  lemma Branches(rule: Rule, h: nat, me: Address)
    requires 0 < h && rule(0, h) && me in {1, 2, 3, 4}
    ensures PeerAfter(Four(rule), Fresh(), OnBlock(me, 2 * h + 1, Branch(h))) == OnBranch(me, h)
    ensures Signs(Four(rule), Fresh(), OnBlock(me, 2 * h + 1, Branch(h))) == {Yes(me, 2 * h + 1)}
  {
    hide PeerAfter, Signs, IsChain, Four;
    BranchIsChain(rule, h);
    assert Branch(h)[..1] == [0];
    VotesOnBlock(rule, Fresh(), me, 2 * h + 1, Branch(h));
  }

  lemma Moves(rule: Rule, h: nat, f: nat, me: Address)
    requires 0 < h < f && rule(0, f) && me in {1, 2, 3, 4}
    ensures PeerAfter(Four(rule), OnBranch(me, h), OnBlock(me, 2 * f, Trunk(f))) == OnTrunk(me, h, f)
    ensures Signs(Four(rule), OnBranch(me, h), OnBlock(me, 2 * f, Trunk(f))) == {Yes(me, 2 * f)}
  {
    hide PeerAfter, Signs, IsChain, Four;
    TrunkIsChain(rule, f);
    assert Branch(h)[..1] == [0] && Trunk(f)[..1] == [0];
    VotesOnBlock(rule, OnBranch(me, h), me, 2 * f, Trunk(f));
  }

  /** A node whose own vote for a canonical block is the only one it holds, and which has voted there. */
  ghost predicate Waits(p: Peer, me: Address, b: Hash) {
    && b in p.tally.pending && p.tally.pending[b] == [Yes(me, b)] && b / 2 in p.tally.own
    && b / 2 > p.fin && CanonicalAt(p, b, b / 2)
  }

  /** What finalizing `b` leaves of a node: nothing recorded below it. */
  ghost predicate Finished(p: Peer, q: Peer, b: Hash) {
    q.fin == b / 2 && q.chain == p.chain && b in q.finals && forall h | h in q.tally.own :: h >= b / 2
  }

  /** Everything but one node stays, and nothing signed is lost. */
  ghost predicate Elsewhere(n: Net, n': Net, me: Address) {
    && n'.peers.Keys == n.peers.Keys && n.signed <= n'.signed
    && forall a | a in n.peers && a != me :: n'.peers[a] == n.peers[a]
  }

  /** Two more votes finalize the block. */
  lemma HearsTwo(rule: Rule, n: Net, me: Address, b: Hash, x: Address, y: Address)
    requires me in n.peers && Waits(n.peers[me], me, b) && Yes(x, b) in n.signed && Yes(y, b) in n.signed
    requires me != x && me != y && x != y && me in {1, 2, 3, 4} && x in {1, 2, 3, 4} && y in {1, 2, 3, 4}
    ensures var n' := Handle(Four(rule), Handle(Four(rule), n, OnVote(me, Yes(x, b))), OnVote(me, Yes(y, b)));
            Elsewhere(n, n', me) && Finished(n.peers[me], n'.peers[me], b)
  {
    hide PeerAfter, Signs, Four, Handle;
    var c, p, u, v := Four(rule), n.peers[me], Yes(x, b), Yes(y, b);
    Counts(rule, p, me, u);
    var q := PeerAfter(c, p, OnVote(me, u));
    assert q.tally.pending[b] == [Yes(me, b)] + [u] == [Yes(me, b), u];
    Completes(rule, q, me, v);
    Registered(rule, x);
    Registered(rule, y);
    HandleIs(c, n, OnVote(me, u));
    HandleIs(c, Handle(c, n, OnVote(me, u)), OnVote(me, v));
  }

  /** A vote is cast on a block. */
  lemma HandlesBlock(rule: Rule, n: Net, me: Address, b: Hash, chain: seq<Hash>, q: Peer)
    requires me in n.peers
    requires PeerAfter(Four(rule), n.peers[me], OnBlock(me, b, chain)) == q
    requires Signs(Four(rule), n.peers[me], OnBlock(me, b, chain)) == {Yes(me, b)}
    ensures Handle(Four(rule), n, OnBlock(me, b, chain)) == Net(n.peers[me := q], n.signed + {Yes(me, b)})
  {
    hide PeerAfter, Signs, Four, Handle;
    HandleIs(Four(rule), n, OnBlock(me, b, chain));
  }

  /** Validator 3 finalizes the block on the branch; 1 and 2 have voted for it. */
  lemma BranchIsFinal(rule: Rule, h: nat)
    requires 0 < h && rule(0, h)
    ensures var n := HandleFrom(Four(rule), Start(), ForBranch(h), 0);
            && n.peers.Keys == {1, 2, 3, 4} && 2 * h + 1 in n.peers[3].finals
            && n.peers[1] == OnBranch(1, h) && n.peers[2] == OnBranch(2, h) && n.peers[4] == Fresh()
  {
    hide PeerAfter, Signs, Four, Handle, HandleFrom, Branch, Fresh, OnBranch, Waits;
    var c, a, es := Four(rule), 2 * h + 1, ForBranch(h);
    Branches(rule, h, 1);
    Branches(rule, h, 2);
    Branches(rule, h, 3);
    var n1 := Handle(c, Start(), es[0]);
    HandlesBlock(rule, Start(), 1, a, Branch(h), OnBranch(1, h));
    var n2 := Handle(c, n1, es[1]);
    HandlesBlock(rule, n1, 2, a, Branch(h), OnBranch(2, h));
    var n3 := Handle(c, n2, es[2]);
    HandlesBlock(rule, n2, 3, a, Branch(h), OnBranch(3, h));
    BranchWaits(h, 3);
    HearsTwo(rule, n3, 3, a, 1, 2);
    Unroll(c, Start(), es, 0);
    Unroll(c, n1, es, 1);
    Unroll(c, n2, es, 2);
    UnrollTwo(c, n3, es, 3);
  }

  lemma Unroll(c: Config, n: Net, es: seq<Handler>, i: nat)
    requires i < |es|
    ensures HandleFrom(c, n, es, i) == HandleFrom(c, Handle(c, n, es[i]), es, i + 1)
    ensures HandleFrom(c, n, es, |es|) == n
  {
    hide Handle;
  }

  lemma UnrollTwo(c: Config, n: Net, es: seq<Handler>, i: nat)
    requires i + 1 < |es|
    ensures var n' := Handle(c, Handle(c, n, es[i]), es[i + 1]);
            HandleFrom(c, n, es, i) == HandleFrom(c, n', es, i + 2) && HandleFrom(c, n', es, |es|) == n'
  {
    hide Handle;
  }

  lemma BranchWaits(h: nat, me: Address)
    requires h > 0
    ensures Waits(OnBranch(me, h), me, 2 * h + 1)
  {
  }

  lemma TrunkWaits(h: nat, f: nat, me: Address)
    requires 0 < h < f
    ensures Waits(OnTrunk(me, h, f), me, 2 * f) && CanonicalAt(OnTrunk(me, h, f), 2 * h, h)
  {
  }

  /** Validator 4 on the trunk, with its vote at `h`, and once it has answered a vote for the end. */
  function Fourth(h: nat, f: nat): Peer {
    Peer(Tally(map[2 * h := [Yes(4, 2 * h)]], map[h := 2 * h]), Trunk(f), 0, {})
  }

  function FourthAfter(h: nat, f: nat): Peer {
    Peer(Tally(map[2 * h := [Yes(4, 2 * h)]][2 * f := [Yes(1, 2 * f), Yes(4, 2 * f)]], map[h := 2 * h][f := 2 * f]),
         Trunk(f), 0, {})
  }

  lemma FourthVotes(rule: Rule, h: nat, f: nat)
    requires 0 < h < f && rule(0, h)
    ensures PeerAfter(Four(rule), Fresh(), OnBlock(4, 2 * h, Trunk(f))) == Fourth(h, f)
    ensures Signs(Four(rule), Fresh(), OnBlock(4, 2 * h, Trunk(f))) == {Yes(4, 2 * h)}
  {
    hide PeerAfter, Signs, IsChain, Four;
    TrunkIsChain(rule, f);
    assert Trunk(f)[..1] == [0];
    VotesOnBlock(rule, Fresh(), 4, 2 * h, Trunk(f));
  }

  lemma FourthAnswers(rule: Rule, h: nat, f: nat)
    requires 0 < h < f && rule(0, f)
    ensures PeerAfter(Four(rule), Fourth(h, f), OnVote(4, Yes(1, 2 * f))) == FourthAfter(h, f)
    ensures Signs(Four(rule), Fourth(h, f), OnVote(4, Yes(1, 2 * f))) == {Yes(4, 2 * f)}
    ensures Waits(FourthAfter(h, f), 4, 2 * h)
  {
    hide PeerAfter, Signs, IsChain, Four;
    Answers(rule, Fourth(h, f), 4, Yes(1, 2 * f));
  }

  /** A vote is answered. */
  lemma HandlesVote(rule: Rule, n: Net, me: Address, v: Vote)
    requires me in n.peers && v in n.signed && v.voter in {1, 2, 3, 4}
    requires Signs(Four(rule), n.peers[me], OnVote(me, v)) == {Yes(me, v.block)}
    ensures Handle(Four(rule), n, OnVote(me, v))
         == Net(n.peers[me := PeerAfter(Four(rule), n.peers[me], OnVote(me, v))], n.signed + {Yes(me, v.block)})
  {
    hide PeerAfter, Signs, Four, Handle;
    Registered(rule, v.voter);
    HandleIs(Four(rule), n, OnVote(me, v));
  }

  /** Where the first two phases leave the network. */
  ghost predicate Forked(n: Net, h: nat, f: nat) {
    && n.peers.Keys == {1, 2, 3, 4} && 2 * h + 1 in n.peers[3].finals
    && Finished(OnTrunk(1, h, f), n.peers[1], 2 * f) && Finished(OnTrunk(2, h, f), n.peers[2], 2 * f)
    && n.peers[4] == FourthAfter(h, f) && Yes(4, 2 * h) in n.signed
  }

  /** Everybody on the trunk has voted for its end. */
  lemma TrunkVotes(rule: Rule, h: nat, f: nat, n: Net) returns (n4: Net)
    requires 0 < h < f && rule(0, h) && rule(0, f) && n.peers.Keys == {1, 2, 3, 4}
    requires n.peers[1] == OnBranch(1, h) && n.peers[2] == OnBranch(2, h) && n.peers[4] == Fresh()
    ensures HandleFrom(Four(rule), n, ForTrunk(h, f), 0) == HandleFrom(Four(rule), n4, ForTrunk(h, f), 4)
    ensures n4.peers.Keys == {1, 2, 3, 4} && n4.peers[3] == n.peers[3] && n4.peers[4] == FourthAfter(h, f)
    ensures n4.peers[1] == OnTrunk(1, h, f) && n4.peers[2] == OnTrunk(2, h, f)
    ensures {Yes(4, 2 * h), Yes(1, 2 * f), Yes(2, 2 * f), Yes(4, 2 * f)} <= n4.signed
  {
    hide PeerAfter, Signs, Four, Handle, HandleFrom, Trunk, Fresh, OnBranch, OnTrunk, Waits, Fourth, FourthAfter;
    hide Yes;
    var c, b, d, es := Four(rule), 2 * h, 2 * f, ForTrunk(h, f);
    FourthVotes(rule, h, f);
    Moves(rule, h, f, 1);
    Moves(rule, h, f, 2);
    FourthAnswers(rule, h, f);
    var n1 := Handle(c, n, es[0]);
    HandlesBlock(rule, n, 4, b, Trunk(f), Fourth(h, f));
    var n2 := Handle(c, n1, es[1]);
    HandlesBlock(rule, n1, 1, d, Trunk(f), OnTrunk(1, h, f));
    var n3 := Handle(c, n2, es[2]);
    HandlesBlock(rule, n2, 2, d, Trunk(f), OnTrunk(2, h, f));
    n4 := Handle(c, n3, es[3]);
    VoteFor(1, d);
    HandlesVote(rule, n3, 4, Yes(1, d));
    Unroll(c, n, es, 0);
    Unroll(c, n1, es, 1);
    Unroll(c, n2, es, 2);
    Unroll(c, n3, es, 3);
  }

  lemma VoteFor(me: Address, b: Hash)
    ensures Yes(me, b).block == b && Yes(me, b).voter == me
  {
  }

  /** From there 1 and 2 finalize the end of the trunk. */
  lemma TrunkIsFinal(rule: Rule, h: nat, f: nat, n: Net)
    requires 0 < h < f && rule(0, h) && rule(0, f)
    requires n.peers.Keys == {1, 2, 3, 4} && 2 * h + 1 in n.peers[3].finals
    requires n.peers[1] == OnBranch(1, h) && n.peers[2] == OnBranch(2, h) && n.peers[4] == Fresh()
    ensures Forked(HandleFrom(Four(rule), n, ForTrunk(h, f), 0), h, f)
  {
    hide PeerAfter, Signs, Four, Handle, HandleFrom, Trunk, Fresh, OnBranch, OnTrunk, Waits, Fourth, FourthAfter;
    hide Finished, CanonicalAt, Yes;
    var c, d, es := Four(rule), 2 * f, ForTrunk(h, f);
    var n4 := TrunkVotes(rule, h, f, n);
    TrunkWaits(h, f, 1);
    TrunkWaits(h, f, 2);
    HearsTwo(rule, n4, 1, d, 2, 4);
    var n6 := Handle(c, Handle(c, n4, es[4]), es[5]);
    HearsTwo(rule, n6, 2, d, 1, 4);
    UnrollTwo(c, n4, es, 4);
    UnrollTwo(c, n6, es, 6);
  }

  /** A node that has finalized the end of the trunk answers a vote at `h` if the rule lets it. */
  lemma AnswersBelow(rule: Rule, h: nat, f: nat, me: Address, p: Peer)
    requires 0 < h < f && rule(f, h) && me in {1, 2} && Finished(OnTrunk(me, h, f), p, 2 * f)
    ensures Signs(Four(rule), p, OnVote(me, Yes(4, 2 * h))) == {Yes(me, 2 * h)}
  {
    hide Signs, Four;
    AnswersLate(rule, p, me, Yes(4, 2 * h));
  }

  /** And then 4 finalizes the trunk's block at `h`. */
  lemma BothAreFinal(rule: Rule, h: nat, f: nat, n: Net)
    requires 0 < h < f && rule(f, h) && rule(0, f) && Forked(n, h, f)
    ensures var n' := HandleFrom(Four(rule), n, LateVote(h), 0);
            && n'.peers.Keys == {1, 2, 3, 4}
            && 2 * h + 1 in n'.peers[3].finals && 2 * h in n'.peers[4].finals
  {
    hide PeerAfter, Signs, Four, Handle, HandleFrom, Trunk, OnTrunk, Waits, FourthAfter;
    var c, b, es := Four(rule), 2 * h, LateVote(h);
    AnswersBelow(rule, h, f, 1, n.peers[1]);
    AnswersBelow(rule, h, f, 2, n.peers[2]);
    FourthAnswers(rule, h, f);
    var n1 := Handle(c, n, es[0]);
    HandlesVote(rule, n, 1, Yes(4, b));
    var n2 := Handle(c, n1, es[1]);
    HandlesVote(rule, n1, 2, Yes(4, b));
    HearsTwo(rule, n2, 4, b, 1, 2);
    Unroll(c, n, es, 0);
    Unroll(c, n1, es, 1);
    UnrollTwo(c, n2, es, 2);
  }

  // ---------- What the runs show ----------

  lemma RunJoins(c: Config, n: Net, a: seq<Step>, b: seq<Step>)
    ensures Run(c, n, a + b) == Run(c, Run(c, n, a), b)
  {
    hide Run;
    RunSplits(c, n, a + b, |a|);
    assert (a + b)[..|a|] == a && (a + b)[|a|..] == b;
  }

  function ForkRun(c: Config, h: nat, f: nat): seq<Step> {
    Flat(c, ForBranch(h), 0) + Flat(c, ForTrunk(h, f), 0)
  }

  function ClashRun(c: Config, h: nat, f: nat): seq<Step> {
    ForkRun(c, h, f) + Flat(c, LateVote(h), 0)
  }

  lemma ForkRunForks(rule: Rule, h: nat, f: nat)
    requires 0 < h < f && rule(0, h) && rule(0, f)
    ensures Forked(Run(Four(rule), Start(), ForkRun(Four(rule), h, f)), h, f)
  {
    hide Run, Flat, HandleFrom, Four, Start, Forked, ForBranch, ForTrunk;
    var c := Four(rule);
    BranchIsFinal(rule, h);
    HandlingIsRun(c, Start(), ForBranch(h), 0);
    var n := Run(c, Start(), Flat(c, ForBranch(h), 0));
    TrunkIsFinal(rule, h, f, n);
    HandlingIsRun(c, n, ForTrunk(h, f), 0);
    RunJoins(c, Start(), Flat(c, ForBranch(h), 0), Flat(c, ForTrunk(h, f), 0));
  }

  lemma SameHeight(rule: Rule, h: nat)
    ensures Four(rule).heightOf(2 * h + 1) == Four(rule).heightOf(2 * h) == h
  {
  }

  lemma StartIsInitial(rule: Rule)
    ensures Initial(Four(rule), Start()) && Tolerant(Four(rule))
  {
    assert Members([1, 2, 3, 4]) - {1, 2, 3, 4} == {};
  }

  /** The failing run: four honest validators, the coded handlers, and a rule that lets a node that has
      finalized at `f` vote at `h` below it, as the coded handlers do. Two nodes finalize two blocks at `h`. */
  lemma TwoFinalBlocks(rule: Rule, h: nat, f: nat)
    requires 0 < h < f && rule(0, h) && rule(0, f) && rule(f, h)
    ensures var c := Four(rule);
            && Initial(c, Start()) && Tolerant(c) && c.heightOf(2 * h + 1) == c.heightOf(2 * h) == h
            && var n := Run(c, Start(), ClashRun(c, h, f));
               3 in n.peers && 2 * h + 1 in n.peers[3].finals && 4 in n.peers && 2 * h in n.peers[4].finals
  {
    hide Run, Flat, HandleFrom, Four, Start, Forked, LateVote, ForkRun, Initial, Tolerant;
    var c := Four(rule);
    StartIsInitial(rule);
    SameHeight(rule, h);
    ForkRunForks(rule, h, f);
    var n := Run(c, Start(), ForkRun(c, h, f));
    BothAreFinal(rule, h, f, n);
    HandlingIsRun(c, n, LateVote(h), 0);
    RunJoins(c, Start(), ForkRun(c, h, f), Flat(c, LateVote(h), 0));
  }

  /** The handlers ask nothing but a canonical block at a height without a recorded vote. */
  function Coded(): Rule { (f, h) => true }

  lemma CodedHandlersConflict()
    ensures var c := Four(Coded());
            && Initial(c, Start()) && Tolerant(c)
            && Conflict(c, Run(c, Start(), ClashRun(c, 1, 2)), 3, 4, 3, 2)
  {
    hide Run, ClashRun, Start, Initial, Tolerant;
    TwoFinalBlocks(Coded(), 1, 2);
    Clashes(Four(Coded()), Run(Four(Coded()), Start(), ClashRun(Four(Coded()), 1, 2)), 1);
  }

  lemma {:induction false} UpTrunk(rule: Rule, i: nat, k: nat)
    requires k <= i
    ensures Up(Four(rule), 2 * i, k) == 2 * (i - k)
    decreases k
  {
    if k > 0 {
      UpTrunk(rule, i - 1, k - 1);
    }
  }

  /** Whatever the rule says below the finalized height, blocks final at two heights can lie on two branches:
      nothing binds a validator to the branch it voted for at a lower height. */
  lemma TwoFinalBranches(rule: Rule, h: nat, f: nat)
    requires 0 < h < f && rule(0, h) && rule(0, f)
    ensures var c := Four(rule);
            && Initial(c, Start()) && Tolerant(c) && !OneChain(c, 2 * h + 1, 2 * f)
            && var n := Run(c, Start(), ForkRun(c, h, f));
               3 in n.peers && 2 * h + 1 in n.peers[3].finals && 1 in n.peers && 2 * f in n.peers[1].finals
  {
    hide Run, ForkRun, Start, Initial, Tolerant;
    StartIsInitial(rule);
    ForkRunForks(rule, h, f);
    UpTrunk(rule, f, f - h);
  }

  // ---------- The exact rule ----------

  /** Two nodes finalized different blocks at one height. */
  ghost predicate Conflict(c: Config, n: Net, x: Address, y: Address, b: Hash, b': Hash) {
    Finalizes(c, n, x, b) && Finalizes(c, n, y, b') && c.heightOf(b) == c.heightOf(b') && b != b'
  }

  lemma {:induction false} RuleKeepsAbove(c: Config, n: Net, steps: seq<Step>, h: nat)
    requires forall f: nat, g: nat | 0 < g < f :: !c.mayVote(f, g)
    ensures NeverBelow(c, n, steps, h)
    decreases |steps|
  {
    hide Next;
    if steps != [] {
      RuleKeepsAbove(c, Next(c, n, steps[0]), steps[1..], h);
    }
  }

  lemma RuleIsSafe(c: Config, start: Net, steps: seq<Step>, x: Address, y: Address, b: Hash, b': Hash)
    requires Initial(c, start) && Tolerant(c) && forall f: nat, h: nat | 0 < h < f :: !c.mayVote(f, h)
    ensures !Conflict(c, Run(c, start, steps), x, y, b, b')
  {
    hide Run, Initial, Tolerant, Finalizes, NeverBelow;
    if Conflict(c, Run(c, start, steps), x, y, b, b') {
      RuleKeepsAbove(c, start, steps, c.heightOf(b));
      assert steps[..|steps|] == steps;
      NoTwoFinalBlocks(c, start, steps, |steps|, x, y, b, b');
    }
  }

  /** Of the rules that let nodes vote above what they have finalized, exactly those that never let them
      vote below it keep two nodes from finalizing two blocks at one height, over every tree of blocks,
      every tolerated set of faulty validators and every run. */
  lemma SafeRuleIff(rule: Rule)
    requires forall f: nat, h: nat | f < h :: rule(f, h)
    ensures (forall c: Config, start, steps, x, y, b, b' | c.mayVote == rule && Initial(c, start) && Tolerant(c) ::
               !Conflict(c, Run(c, start, steps), x, y, b, b'))
       <==> (forall f: nat, h: nat | 0 < h < f :: !rule(f, h))
  {
    hide Run, Initial, Tolerant, Conflict;
    if forall f: nat, h: nat | 0 < h < f :: !rule(f, h) {
      forall c: Config, start, steps, x, y, b, b' | c.mayVote == rule && Initial(c, start) && Tolerant(c)
        ensures !Conflict(c, Run(c, start, steps), x, y, b, b')
      {
        RuleIsSafe(c, start, steps, x, y, b, b');
      }
    } else {
      var f: nat, h: nat :| 0 < h < f && rule(f, h);
      TwoFinalBlocks(rule, h, f);
      var c := Four(rule);
      Clashes(c, Run(c, Start(), ClashRun(c, h, f)), h);
      assert Conflict(c, Run(c, Start(), ClashRun(c, h, f)), 3, 4, 2 * h + 1, 2 * h);
    }
  }

  lemma Clashes(c: Config, n: Net, h: nat)
    requires 3 in n.peers && 2 * h + 1 in n.peers[3].finals && 4 in n.peers && 2 * h in n.peers[4].finals
    requires c.heightOf(2 * h + 1) == c.heightOf(2 * h)
    ensures Conflict(c, n, 3, 4, 2 * h + 1, 2 * h)
  {
  }
}
