/** A cache of bounded size that drops what was accessed least recently. */
module Lru {
  import opened Common
  import opened Sorting

  function Others(order: seq<Address>, a: Address): seq<Address> {
    if order == [] then [] else
      Others(order[..|order| - 1], a) + if order[|order| - 1] == a then [] else [order[|order| - 1]]
  }

  /** One more access, the latest last. */
  function Access(order: seq<Address>, a: Address, size: nat): seq<Address> {
    var more := Others(order, a) + [a];
    if |more| > size then more[1..] else more
  }

  /** The accounts in the cache after these accesses. */
  function Cached(accesses: seq<Address>, size: nat): seq<Address> {
    if accesses == [] then [] else
      Access(Cached(accesses[..|accesses| - 1], size), accesses[|accesses| - 1], size)
  }

  ghost function Elements(s: seq<Address>): set<Address> {
    set a | a in s
  }

  lemma {:induction false} OthersAre(order: seq<Address>, a: Address)
    requires Distinct(order)
    ensures Distinct(Others(order, a)) && |Others(order, a)| <= |order|
    ensures forall x :: x in Others(order, a) <==> x in order && x != a
  {
    if order != [] {
      var front, last := order[..|order| - 1], order[|order| - 1];
      assert order == front + [last] && last !in front;
      OthersAre(front, a);
    }
  }

  lemma {:induction false} DistinctSize(order: seq<Address>)
    requires Distinct(order)
    ensures |Elements(order)| == |order|
  {
    if order != [] {
      var front, last := order[..|order| - 1], order[|order| - 1];
      assert order == front + [last] && last !in front;
      DistinctSize(front);
      assert Elements(order) == Elements(front) + {last};
    }
  }

  lemma AccessIs(order: seq<Address>, a: Address, size: nat)
    requires Distinct(order) && |order| <= size
    ensures Distinct(Access(order, a, size)) && |Access(order, a, size)| <= size
    ensures Elements(Access(order, a, size)) <= Elements(order) + {a}
    ensures |Elements(order) + {a}| <= size ==> Elements(Access(order, a, size)) == Elements(order) + {a}
  {
    hide Others;
    OthersAre(order, a);
    var more := Others(order, a) + [a];
    assert forall x :: x in more <==> x in order || x == a;
    assert Elements(more) == Elements(order) + {a};
    assert Distinct(more);
    DistinctSize(more);
    if |more| > size {
      assert Elements(more[1..]) <= Elements(more);
    }
  }

  lemma {:induction false} CachedFits(accesses: seq<Address>, size: nat)
    ensures Distinct(Cached(accesses, size)) && |Cached(accesses, size)| <= size
    ensures Elements(Cached(accesses, size)) <= Elements(accesses)
  {
    hide Access;
    if accesses != [] {
      var n := |accesses| - 1;
      CachedFits(accesses[..n], size);
      AccessIs(Cached(accesses[..n], size), accesses[n], size);
      assert accesses == accesses[..n] + [accesses[n]];
    }
  }

  lemma {:induction false} CachedAll(accesses: seq<Address>, size: nat)
    requires |Elements(accesses)| <= size
    ensures Elements(Cached(accesses, size)) == Elements(accesses)
  {
    hide Access;
    if accesses != [] {
      var n := |accesses| - 1;
      assert accesses == accesses[..n] + [accesses[n]];
      assert Elements(accesses) == Elements(accesses[..n]) + {accesses[n]};
      Fewer(Elements(accesses[..n]), Elements(accesses));
      CachedAll(accesses[..n], size);
      CachedFits(accesses[..n], size);
      AccessIs(Cached(accesses[..n], size), accesses[n], size);
    }
  }

  lemma Fewer(a: set<Address>, b: set<Address>)
    requires a <= b
    ensures |a| <= |b|
  {
    assert b == a + (b - a);
  }

  /** The cache still holds every account accessed exactly when no more accounts were accessed than fit. */
  lemma CachedAllIff(accesses: seq<Address>, size: nat)
    ensures Elements(Cached(accesses, size)) == Elements(accesses) <==> |Elements(accesses)| <= size
  {
    CachedFits(accesses, size);
    DistinctSize(Cached(accesses, size));
    if |Elements(accesses)| <= size {
      CachedAll(accesses, size);
    }
  }
}
