/** Finality votes in one engine: one own vote per height, votes deduplicated by voter, and a count-based
    quorum. */
module Votes {
  import opened Common

  datatype Vote = Vote(block: Hash, height: nat, voter: Address, accept: bool)

  /** What one engine keeps: the votes it holds per block, and the heights it has voted at itself. */
  datatype Tally = Tally(pending: map<Hash, seq<Vote>>, own: map<nat, Hash>)

  function VotesFor(t: Tally, block: Hash): seq<Vote> {
    if block in t.pending then t.pending[block] else []
  }

  predicate HasVoted(votes: seq<Vote>, voter: Address) {
    exists i | 0 <= i < |votes| :: votes[i].voter == voter
  }

  /** Keep a vote unless its voter already voted on that block. */
  function Added(t: Tally, v: Vote): Tally {
    var votes := VotesFor(t, v.block);
    t.(pending := t.pending[v.block := if HasVoted(votes, v.voter) then votes else votes + [v]])
  }

  /** Forget the votes of blocks at or below a height, judged by their first vote. */
  function Pruned(t: Tally, height: nat): Tally {
    Tally(map b | b in t.pending && t.pending[b] != [] && t.pending[b][0].height > height :: t.pending[b],
          map h | h in t.own && h > height :: t.own[h])
  }

  /** The registered validators that accept the block. */
  ghost function Accepting(votes: seq<Vote>, validators: seq<Address>): set<Address> {
    set i | 0 <= i < |votes| && votes[i].accept && votes[i].voter in validators :: votes[i].voter
  }

  ghost predicate OneVoteEach(votes: seq<Vote>) {
    forall i, j | 0 <= i < j < |votes| :: votes[i].voter != votes[j].voter
  }

  /** The share of the registry that accepts the block reaches the threshold. */
  ghost predicate Final(t: Tally, validators: seq<Address>, threshold: real, block: Hash) {
    && block in t.pending && validators != []
    && |Accepting(t.pending[block], validators)| as real / |validators| as real >= threshold
  }

  class Engine {
    const validators: seq<Address>
    const threshold: real
    var pending: map<Hash, seq<Vote>>
    var own: map<nat, Hash>

    ghost function View(): Tally
      reads this
    {
      Tally(pending, own)
    }

    ghost predicate Ok()
      reads this
    {
      forall b | b in pending :: OneVoteEach(pending[b])
    }

    constructor (validators: seq<Address>, threshold: real)
      ensures Ok() && View() == Tally(map[], map[])
      ensures this.validators == validators && this.threshold == threshold
    {
      this.validators, this.threshold := validators, threshold;
      pending, own := map[], map[];
    }

    method AddVote(v: Vote)
      requires Ok()
      modifies this`pending
      ensures Ok() && View() == Added(old(View()), v)
    {
      var votes := if v.block in pending then pending[v.block] else [];
      if HasVoted(votes, v.voter) {
        pending := pending[v.block := votes];
        return;
      }
      pending := pending[v.block := votes + [v]];
    }

    /** Record an own vote unless one was already cast at this height. */
    method TryRecordOwnVote(height: nat, block: Hash) returns (fresh_: bool)
      modifies this`own
      ensures fresh_ == (height !in old(own))
      ensures own == if fresh_ then old(own)[height := block] else old(own)
    {
      fresh_ := height !in own;
      if fresh_ {
        own := own[height := block];
      }
    }

    /** Counting filtered votes one by one counts each accepting validator once. */
    method CheckFinality(block: Hash) returns (final: bool)
      requires Ok()
      ensures final == Final(View(), validators, threshold, block)
    {
      if block !in pending {
        return false;
      }
      var votes := pending[block];
      if |validators| == 0 {
        return false;
      }
      var count := 0;
      for i := 0 to |votes|
        invariant count == |Accepting(votes[..i], validators)|
      {
        AcceptingGrows(votes, validators, i);
        if votes[i].accept && votes[i].voter in validators {
          count := count + 1;
        }
      }
      assert votes[..|votes|] == votes;
      final := count as real / |validators| as real >= threshold;
    }

    method PruneOldVotes(height: nat)
      requires Ok()
      modifies this
      ensures Ok() && View() == Pruned(old(View()), height)
    {
      pending := map b | b in pending && pending[b] != [] && pending[b][0].height > height :: pending[b];
      own := map h | h in own && h > height :: own[h];
    }
  }

  /** Pruning to a height leaves no own vote at or below it and no block whose first vote is, and everything
      above as it was. */
  lemma PrunedForgets(t: Tally, height: nat, h: nat, b: Hash)
    ensures h in Pruned(t, height).own <==> h in t.own && height < h
    ensures h in Pruned(t, height).own ==> Pruned(t, height).own[h] == t.own[h]
    ensures b in Pruned(t, height).pending <==> b in t.pending && t.pending[b] != [] && height < t.pending[b][0].height
    ensures b in Pruned(t, height).pending ==> Pruned(t, height).pending[b] == t.pending[b]
  {
  }

  lemma AcceptingGrows(votes: seq<Vote>, validators: seq<Address>, i: nat)
    requires OneVoteEach(votes) && i < |votes|
    ensures Accepting(votes[..i + 1], validators) ==
            Accepting(votes[..i], validators) +
            if votes[i].accept && votes[i].voter in validators then {votes[i].voter} else {}
    ensures votes[i].voter !in Accepting(votes[..i], validators)
  {
    assert forall j | 0 <= j < i :: votes[..i + 1][j] == votes[..i][j];
    assert votes[..i + 1][i] == votes[i];
  }

  // ---------- Quorums ----------

  ghost function Members(validators: seq<Address>): set<Address> {
    set a | a in validators
  }

  lemma {:induction false} RegistrySize(validators: seq<Address>)
    ensures |Members(validators)| <= |validators|
  {
    if validators != [] {
      var front, last := validators[..|validators| - 1], validators[|validators| - 1];
      RegistrySize(front);
      assert validators == front + [last];
      assert Members(validators) == Members(front) + {last};
    }
  }

  /** Two sets of at least `quorum` of the registry meet in more validators than are faulty. */
  lemma QuorumsMeet(a: set<Address>, b: set<Address>, registry: set<Address>, faulty: set<Address>, size: nat,
                    quorum: real)
    requires a <= registry && b <= registry && faulty <= registry && |registry| <= size
    requires |a| as real >= quorum && |b| as real >= quorum
    requires |faulty| as real < 2.0 * quorum - size as real
    ensures exists v :: v in a && v in b && v !in faulty
  {
    assert |a + b| == |a| + |b| - |a * b|;
    Subset(a + b, registry);
    if a * b <= faulty {
      Subset(a * b, faulty);
      assert false;
    }
    var v :| v in a * b && v !in faulty;
  }

  lemma Subset(a: set<Address>, b: set<Address>)
    requires a <= b
    ensures |a| <= |b|
  {
    assert b == a + (b - a);
  }

  lemma Expand(t: real, n: real)
    ensures (2.0 * t - 1.0) * n == 2.0 * (t * n) - n
  {
  }

  lemma QuorumSize(count: nat, size: nat, t: real)
    requires size > 0 && count as real / size as real >= t
    ensures count as real >= t * size as real
  {
    assert count as real == (count as real / size as real) * size as real;
  }
}
