/** Byte strings in database key order, and big-endian numbers in them. */
module Bytes {
  import opened Common
  import opened Sorting

  newtype byte = x: int | 0 <= x < 256

  type Key = seq<byte>

  /** The order RocksDB iterates keys in. */
  predicate Below(a: Key, b: Key) {
    if b == [] then false
    else if a == [] then true
    else a[0] < b[0] || (a[0] == b[0] && Below(a[1..], b[1..]))
  }

  predicate AtMost(a: Key, b: Key) {
    !Below(b, a)
  }

  lemma {:induction false} BelowIsStrictTotal(a: Key, b: Key)
    ensures !(Below(a, b) && Below(b, a))
    ensures Below(a, b) || Below(b, a) || a == b
    ensures !Below(a, a)
  {
    if a != [] {
      BelowIsStrictTotal(a[1..], a[1..]);
      if b != [] {
        BelowIsStrictTotal(a[1..], b[1..]);
        assert a == [a[0]] + a[1..] && b == [b[0]] + b[1..];
      }
    }
  }

  lemma {:induction false} BelowIsTransitive(a: Key, b: Key, c: Key)
    ensures Below(a, b) && Below(b, c) ==> Below(a, c)
    ensures AtMost(a, b) && AtMost(b, c) ==> AtMost(a, c)
  {
    if a != [] && b != [] && c != [] {
      BelowIsTransitive(a[1..], b[1..], c[1..]);
    }
  }

  lemma AtMostIsTotal()
    ensures TotalPreorder(AtMost)
  {
    forall a: Key, b: Key ensures AtMost(a, b) || AtMost(b, a) {
      BelowIsStrictTotal(a, b);
    }
    forall a: Key, b: Key, c: Key ensures AtMost(a, b) && AtMost(b, c) ==> AtMost(a, c) {
      BelowIsTransitive(a, b, c);
    }
  }

  /** `width` big-endian bytes of `n`. */
  function BigEndian(n: nat, width: nat): (k: Key)
    ensures |k| == width
    decreases width
  {
    if width == 0 then [] else BigEndian(n / 256, width - 1) + [(n % 256) as byte]
  }

  ghost function Power(width: nat): nat {
    if width == 0 then 1 else 256 * Power(width - 1)
  }

  /** After a shared-length head, the last byte decides ties. */
  lemma {:induction false} LastByteDecides(a: Key, x: byte, b: Key, y: byte)
    requires |a| == |b|
    ensures Below(a + [x], b + [y]) <==> Below(a, b) || (a == b && x < y)
  {
    if a != [] {
      assert (a + [x])[1..] == a[1..] + [x] && (b + [y])[1..] == b[1..] + [y];
      LastByteDecides(a[1..], x, b[1..], y);
      assert a == [a[0]] + a[1..] && b == [b[0]] + b[1..];
    }
  }

  /** Big-endian keys sort as the numbers they spell, and spell them apart. */
  lemma {:induction false} BigEndianOrders(m: nat, n: nat, width: nat)
    requires m < Power(width) && n < Power(width)
    ensures Below(BigEndian(m, width), BigEndian(n, width)) <==> m < n
    ensures BigEndian(m, width) == BigEndian(n, width) <==> m == n
  {
    if width > 0 {
      BigEndianOrders(m / 256, n / 256, width - 1);
      var a, b := BigEndian(m / 256, width - 1), BigEndian(n / 256, width - 1);
      LastByteDecides(a, (m % 256) as byte, b, (n % 256) as byte);
      assert BigEndian(m, width)[..width - 1] == a && BigEndian(n, width)[..width - 1] == b;
      assert BigEndian(m, width)[width - 1] == (m % 256) as byte;
      assert BigEndian(n, width)[width - 1] == (n % 256) as byte;
      assert m == 256 * (m / 256) + m % 256 && n == 256 * (n / 256) + n % 256;
    }
  }

  /** Keys under one prefix sort as what follows it; keys under another prefix of the same length sort
      as the prefixes. */
  lemma {:induction false} PrefixDecides(p: Key, a: Key, q: Key, b: Key)
    requires |p| == |q|
    ensures Below(p + a, q + b) <==> Below(p, q) || (p == q && Below(a, b))
  {
    if p == [] {
      assert p + a == a && q + b == b;
    } else {
      assert (p + a)[1..] == p[1..] + a && (q + b)[1..] == q[1..] + b;
      PrefixDecides(p[1..], a, q[1..], b);
      assert p == [p[0]] + p[1..] && q == [q[0]] + q[1..];
    }
  }

  // ---------- Iteration ----------

  ghost predicate Ascending(keys: seq<Key>) {
    forall i, j | 0 <= i < j < |keys| :: Below(keys[i], keys[j])
  }

  /** A database iterator over a column: its keys from `start` on, in key order. */
  method Iterate<V>(rows: map<Key, V>, start: Key) returns (keys: seq<Key>)
    ensures Ascending(keys)
    ensures forall k :: k in keys <==> k in rows && AtMost(start, k)
  {
    var rest := set k | k in rows && AtMost(start, k);
    ghost var all := rest;
    var some: seq<Key> := [];
    while rest != {}
      invariant rest <= all
      invariant forall k :: k in some <==> k in all - rest
      invariant Distinct(some)
      decreases rest
    {
      var k :| k in rest;
      assert k !in some;
      some := some + [k];
      rest := rest - {k};
    }
    keys := Sort(some, AtMost);
    SortedKeys(some);
  }

  lemma SortedKeys(some: seq<Key>)
    requires Distinct(some)
    ensures Ascending(Sort(some, AtMost))
    ensures forall k :: k in Sort(some, AtMost) <==> k in some
  {
    var keys := Sort(some, AtMost);
    AtMostIsTotal();
    SortSorts(some, AtMost);
    SortPermutes(some, AtMost);
    forall k ensures k in keys <==> k in some {
      assert k in multiset(keys) <==> k in multiset(some);
    }
    DistinctPermutes(some, keys);
    forall i, j | 0 <= i < j < |keys| ensures Below(keys[i], keys[j]) {
      assert AtMost(keys[i], keys[j]);
      BelowIsStrictTotal(keys[i], keys[j]);
    }
  }
}
