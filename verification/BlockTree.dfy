/** Blocks linked by parent hash, and the chain of ancestors each stored block has. */
module BlockTree {
  import opened Common

  /** A transaction together with the hash of its unsigned bytes. */
  datatype Tx = Tx(hash: Hash, payload: nat)

  /** A sealed block: the header fields fork choice reads, the body, and the header's hash. */
  datatype Block = Block(hash: Hash, parent: Hash, number: nat, timestamp: nat, root: Hash, gasUsed: nat, txs: seq<Tx>)

  /** The hash-keyed block store: every block ever imported or produced. */
  type Store = map<Hash, Block>

  /** `b` is genesis, or its parent is stored one height below it. */
  predicate Linked(store: Store, genesis: Block, b: Block) {
    b == genesis ||
    (b.hash != genesis.hash && b.parent in store && b.number == store[b.parent].number + 1)
  }

  /** The store is closed under parents, down to genesis. */
  ghost predicate Tree(store: Store, genesis: Block) {
    && genesis.number == 0
    && genesis.hash in store
    && store[genesis.hash] == genesis
    && (forall h | h in store :: store[h].hash == h)
    && (forall h {:trigger Linked(store, genesis, store[h])} | h in store :: Linked(store, genesis, store[h]))
  }

  /** The ancestors of the block stored at `h`, genesis first, `h` last. */
  ghost function Path(store: Store, genesis: Block, h: Hash): (p: seq<Block>)
    requires Tree(store, genesis) && h in store
    ensures |p| == store[h].number + 1
    ensures p[|p| - 1] == store[h]
    decreases store[h].number
  {
    assert Linked(store, genesis, store[h]);
    if h == genesis.hash then [genesis]
    else Path(store, genesis, store[h].parent) + [store[h]]
  }

  /** A hash-linked chain from genesis, one stored block per height. */
  lemma {:induction false} PathIsChain(store: Store, genesis: Block, h: Hash)
    requires Tree(store, genesis) && h in store
    ensures var p := Path(store, genesis, h);
            && p[0] == genesis
            && (forall i | 0 <= i < |p| :: p[i].number == i && p[i].hash in store && store[p[i].hash] == p[i])
            && (forall i | 0 < i < |p| :: p[i].parent == p[i - 1].hash)
    decreases store[h].number
  {
    assert Linked(store, genesis, store[h]);
    if h != genesis.hash {
      PathIsChain(store, genesis, store[h].parent);
    }
  }

  /** The ancestors of an ancestor are a prefix. */
  lemma {:induction false} PathPrefix(store: Store, genesis: Block, h: Hash, i: nat)
    requires Tree(store, genesis) && h in store && i <= store[h].number
    ensures Path(store, genesis, h)[i].hash in store
    ensures Path(store, genesis, Path(store, genesis, h)[i].hash) == Path(store, genesis, h)[..i + 1]
    decreases store[h].number
  {
    var p := Path(store, genesis, h);
    assert Linked(store, genesis, store[h]);
    PathIsChain(store, genesis, h);
    if i == store[h].number {
      assert p[..i + 1] == p;
    } else {
      PathPrefix(store, genesis, store[h].parent, i);
      assert p[..i + 1] == Path(store, genesis, store[h].parent)[..i + 1];
    }
  }

  /** Storing more blocks changes no ancestors. */
  lemma {:induction false} PathStable(store: Store, store': Store, genesis: Block, h: Hash)
    requires Tree(store, genesis) && Tree(store', genesis) && h in store
    requires forall k | k in store :: k in store' && store'[k] == store[k]
    ensures Path(store', genesis, h) == Path(store, genesis, h)
    decreases store[h].number
  {
    assert Linked(store, genesis, store[h]);
    if h != genesis.hash {
      PathStable(store, store', genesis, store[h].parent);
    }
  }

  /** A new block whose parent is stored leaves the store a tree. */
  lemma StoreBlock(store: Store, genesis: Block, b: Block)
    requires Tree(store, genesis) && b.hash !in store
    requires b.parent in store && b.number == store[b.parent].number + 1
    ensures Tree(store[b.hash := b], genesis)
    ensures Path(store[b.hash := b], genesis, b.hash) == Path(store, genesis, b.parent) + [b]
    ensures forall h | h in store ::
              Path(store[b.hash := b], genesis, h) == Path(store, genesis, h)
  {
    var store' := store[b.hash := b];
    forall h | h in store' ensures Linked(store', genesis, store'[h]) {
      assert h != b.hash ==> Linked(store, genesis, store[h]);
    }
    forall h | h in store ensures Path(store', genesis, h) == Path(store, genesis, h) {
      PathStable(store, store', genesis, h);
    }
  }
}
