/** The BLOCKHASH opcode: a two-level cached lookup that walks the executing block's own ancestors. */
module BlockHashes {
  import opened Common
  import opened BlockTree

  const ZERO: Hash := 0
  const WINDOW: nat := 256
  const U64_LIMIT: nat := 0x1_0000_0000_0000_0000

  /** The hash of the ancestor of `start` at height `wanted`: a plain reading of its path. */
  ghost function Ancestor(store: Store, genesis: Block, start: Hash, wanted: nat): Option<Hash>
    requires Tree(store, genesis)
  {
    if start in store && wanted <= store[start].number
    then Some(Path(store, genesis, start)[wanted].hash) else None
  }

  /** Appendix H.2 of the Ethereum Yellow Paper: the ancestor's hash inside the 256-block window below
      the executing block, zero everywhere else; and zero before the activation height. */
  ghost function BlockHash(store: Store, genesis: Block, active: bool, number: nat, parent: Hash, wanted: nat): Hash
    requires Tree(store, genesis)
  {
    if active && wanted < number <= wanted + WINDOW then
      match Ancestor(store, genesis, parent, wanted)
      case Some(h) => h
      case None => ZERO
    else ZERO
  }

  /** The resolver built once per block execution: a walk down the hash-keyed store that remembers
      every height it passed. */
  class AncestorLookup {
    const store: Store
    ghost const genesis: Block
    var start: Option<Hash>
    var visited: map<nat, Hash>

    ghost predicate Ok()
      reads this
    {
      && Tree(store, genesis)
      && (start.None? ==> visited == map[])
      && (start.Some? ==> forall n | n in visited :: Ancestor(store, genesis, start.value, n) == Some(visited[n]))
    }

    constructor (store: Store, ghost genesis: Block)
      requires Tree(store, genesis)
      ensures Ok() && this.store == store && this.genesis == genesis
    {
      this.store, this.genesis := store, genesis;
      start, visited := None, map[];
    }

    method Resolve(from: Hash, wanted: nat) returns (r: Option<Hash>)
      requires Ok()
      modifies this
      ensures Ok()
      ensures r == Ancestor(store, genesis, from, wanted)
    {
      if start != Some(from) {
        start, visited := Some(from), map[];
      }
      if wanted in visited {
        return Some(visited[wanted]);
      }
      if from !in store {
        return None;
      }
      ghost var path := Path(store, genesis, from);
      PathIsChain(store, genesis, from);
      hide Path, Tree;
      var cursor := from;
      while true
        invariant Ok() && start == Some(from)
        invariant cursor in store && store[cursor].number < |path| && path[store[cursor].number].hash == cursor
        invariant wanted < |path| ==> wanted <= store[cursor].number
        decreases store[cursor].number
      {
        var b := store[cursor];
        visited := visited[b.number := cursor];
        if b.number == wanted {
          return Some(cursor);
        }
        if b.number < wanted || b.number == 0 {
          return None;
        }
        assert path[b.number].parent == path[b.number - 1].hash;
        cursor := b.parent;
      }
    }
  }

  /** The database view of one EVM run: its own cache of answers on top of the resolver. */
  class OpcodeView {
    const active: bool
    const number: nat
    const parent: Hash
    const lookup: AncestorLookup
    var cache: map<nat, Hash>

    ghost predicate Ok()
      reads this, lookup
    {
      && lookup.Ok() && number < U64_LIMIT
      && forall n | n in cache :: cache[n] == BlockHash(lookup.store, lookup.genesis, active, number, parent, n)
    }

    /** `activation` is the height at which the opcode fixes take effect. */
    constructor (lookup: AncestorLookup, number: nat, activation: nat, parent: Hash)
      requires lookup.Ok() && number < U64_LIMIT
      ensures Ok() && this.lookup == lookup && this.number == number && this.parent == parent
      ensures active == (number >= activation)
    {
      this.lookup, this.number, this.parent := lookup, number, parent;
      active := number >= activation;
      cache := map[];
    }

    /** Any query, after any queries before it, answers as the plain walk does. */
    method BlockHashRef(wanted: nat) returns (h: Hash)
      requires Ok()
      modifies this, lookup
      ensures Ok()
      ensures h == BlockHash(lookup.store, lookup.genesis, active, number, parent, wanted)
    {
      if !active {
        return ZERO;
      }
      if wanted >= U64_LIMIT {
        return ZERO;
      }
      if wanted >= number || number - wanted > WINDOW {
        return ZERO;
      }
      if wanted in cache {
        return cache[wanted];
      }
      var found := lookup.Resolve(parent, wanted);
      h := match found case Some(x) => x case None => ZERO;
      cache := cache[wanted := h];
    }
  }

  /** For a block on a stored parent, every height of the window resolves to a real ancestor. */
  lemma WindowIsCovered(store: Store, genesis: Block, parent: Hash, wanted: nat)
    requires Tree(store, genesis) && parent in store
    requires wanted <= store[parent].number < wanted + WINDOW
    ensures var h := BlockHash(store, genesis, true, store[parent].number + 1, parent, wanted);
            h in store && store[h].number == wanted && h == Path(store, genesis, parent)[wanted].hash
  {
    PathIsChain(store, genesis, parent);
  }

  /** Re-executing a stored block later, when the store has grown by any blocks whatever, gives the
      opcode the answers it gave at import; the canonical index plays no part in either. */
  lemma ReplayAnswersAlike(store: Store, store': Store, genesis: Block, active: bool, number: nat, parent: Hash,
                           wanted: nat)
    requires Tree(store, genesis) && Tree(store', genesis) && parent in store
    requires forall h | h in store :: h in store' && store'[h] == store[h]
    ensures BlockHash(store', genesis, active, number, parent, wanted)
         == BlockHash(store, genesis, active, number, parent, wanted)
  {
    PathStable(store, store', genesis, parent);
  }
}
