/** Sums over sequences, and the ascending iteration of ordered sets. */
module Sums {
  import opened Sorting

  function Sum<T(!new)>(s: seq<T>, f: T -> nat): nat {
    if s == [] then 0 else Sum(s[..|s| - 1], f) + f(s[|s| - 1])
  }

  lemma SumSnoc<T(!new)>(s: seq<T>, x: T, f: T -> nat)
    ensures Sum(s + [x], f) == Sum(s, f) + f(x)
  {
    assert (s + [x])[..|s|] == s;
  }

  lemma {:induction false} SumConcat<T(!new)>(a: seq<T>, b: seq<T>, f: T -> nat)
    ensures Sum(a + b, f) == Sum(a, f) + Sum(b, f)
  {
    if b == [] {
      assert a + b == a;
    } else {
      SumConcat(a, b[..|b| - 1], f);
      assert (a + b)[..|a + b| - 1] == a + b[..|b| - 1];
    }
  }

  /** Where a permutation holds the last element, and what is left without it. */
  lemma FindLast<T>(a: seq<T>, b: seq<T>) returns (k: nat)
    requires multiset(a) == multiset(b) && a != []
    ensures k < |b| && b[k] == a[|a| - 1]
    ensures multiset(a[..|a| - 1]) == multiset(b[..k] + b[k + 1..])
  {
    var n := |a| - 1;
    assert a[n] in multiset(b);
    k :| 0 <= k < |b| && b[k] == a[n];
    calc {
      multiset(a[..n]);
      { assert a == a[..n] + [a[n]]; }
      multiset(a) - multiset{a[n]};
      { assert b == b[..k] + [b[k]] + b[k + 1..]; }
      multiset(b[..k] + b[k + 1..]);
    }
  }

  lemma {:induction false} SumPermutes<T(!new)>(a: seq<T>, b: seq<T>, f: T -> nat)
    requires multiset(a) == multiset(b)
    ensures Sum(a, f) == Sum(b, f)
    decreases |a|
  {
    if a == [] {
      assert |multiset(b)| == 0;
    } else {
      var k := FindLast(a, b);
      SumPermutes(a[..|a| - 1], b[..k] + b[k + 1..], f);
      SumConcat(b[..k], b[k + 1..], f);
      SumConcat(b[..k] + [b[k]], b[k + 1..], f);
      SumSnoc(b[..k], b[k], f);
      assert b == b[..k] + [b[k]] + b[k + 1..];
    }
  }

  lemma {:induction false} SumAgrees<T(!new)>(s: seq<T>, f: T -> nat, g: T -> nat)
    requires forall x | x in s :: f(x) == g(x)
    ensures Sum(s, f) == Sum(s, g)
  {
    if s != [] {
      SumAgrees(s[..|s| - 1], f, g);
    }
  }

  // ---------- Sums over the values of a map ----------

  ghost function MapSum<K, V(!new)>(m: map<K, V>, f: V -> nat): nat {
    if m == map[] then 0 else
      var k :| k in m;
      MapSum(m - {k}, f) + f(m[k])
  }

  lemma {:induction false} MapSumWithout<K, V(!new)>(m: map<K, V>, k: K, f: V -> nat)
    requires k in m
    ensures MapSum(m, f) == MapSum(m - {k}, f) + f(m[k])
  {
    var x :| x in m && MapSum(m, f) == MapSum(m - {x}, f) + f(m[x]);
    if x != k {
      MapSumWithout(m - {x}, k, f);
      MapSumWithout(m - {k}, x, f);
      assert m - {x} - {k} == m - {k} - {x};
    }
  }

  lemma MapSumPut<K, V(!new)>(m: map<K, V>, k: K, v: V, f: V -> nat)
    ensures MapSum(m[k := v], f) + (if k in m then f(m[k]) else 0) == MapSum(m, f) + f(v)
  {
    MapSumWithout(m[k := v], k, f);
    if k in m {
      MapSumWithout(m, k, f);
      assert m[k := v] - {k} == m - {k};
    } else {
      assert m[k := v] - {k} == m;
    }
  }

  lemma {:induction false} MapSumAtMost<K, V(!new)>(m: map<K, V>, f: V -> nat, g: V -> nat)
    requires forall v :: f(v) <= g(v)
    ensures MapSum(m, f) <= MapSum(m, g)
  {
    if k :| k in m {
      MapSumWithout(m, k, f);
      MapSumWithout(m, k, g);
      MapSumAtMost(m - {k}, f, g);
    }
  }

  // ---------- Ascending iteration ----------

  ghost predicate Ascending(s: seq<nat>) {
    forall i, j | 0 <= i < j < |s| :: s[i] < s[j]
  }

  lemma {:induction false} Least(s: set<nat>) returns (m: nat)
    requires s != {}
    ensures m in s && forall x | x in s :: m <= x
  {
    var x :| x in s;
    if s == {x} {
      m := x;
    } else {
      assert s - {x} != {};
      var y := Least(s - {x});
      m := if x < y then x else y;
      assert forall z | z in s :: z == x || z in s - {x};
    }
  }

  /** Iterate an ordered set from its smallest element up. */
  method InOrder(s: set<nat>) returns (r: seq<nat>)
    ensures Ascending(r)
    ensures forall x :: x in r <==> x in s
  {
    var rest := s;
    r := [];
    while rest != {}
      invariant rest <= s
      invariant Ascending(r)
      invariant forall x :: x in r <==> x in s - rest
      invariant forall x, y | x in r && y in rest :: x < y
      decreases rest
    {
      ghost var least := Least(rest);
      var m :| m in rest && forall x | x in rest :: m <= x;
      assert forall i | 0 <= i < |r| :: r[i] in r;
      r := r + [m];
      rest := rest - {m};
    }
  }

  lemma {:induction false} AscendingIsUnique(a: seq<nat>, b: seq<nat>)
    requires Ascending(a) && Ascending(b)
    requires forall x :: x in a <==> x in b
    ensures a == b
    decreases |a|
  {
    if a == [] {
      Inhabited(b);
    } else {
      assert a[|a| - 1] in a;
      assert b != [];
      var m, n := |a| - 1, |b| - 1;
      assert b[n] in b;
      SameLast(a, b);
      forall x ensures x in a[..m] <==> x in b[..n] {
        FrontHas(a, x);
        FrontHas(b, x);
      }
      AscendingIsUnique(a[..m], b[..n]);
      assert a == a[..m] + [a[m]] && b == b[..n] + [b[n]];
    }
  }

  lemma Inhabited(s: seq<nat>)
    ensures s != [] ==> exists x :: x in s
  {
    if s != [] {
      assert s[0] in s;
    }
  }

  lemma SameLast(a: seq<nat>, b: seq<nat>)
    requires Ascending(a) && Ascending(b) && a != [] && b != []
    requires a[|a| - 1] in b && b[|b| - 1] in a
    ensures a[|a| - 1] == b[|b| - 1]
  {
    var i :| 0 <= i < |b| && b[i] == a[|a| - 1];
    var j :| 0 <= j < |a| && a[j] == b[|b| - 1];
  }

  lemma FrontHas(a: seq<nat>, x: nat)
    requires Ascending(a) && a != []
    ensures x in a[..|a| - 1] <==> x in a && x != a[|a| - 1]
  {
  }
}
