/** Stable sorting by a key order, and when the result does not depend on the input order. */
module Sorting {

  /** `leq` compares any two elements and is transitive; ties between different elements are allowed. */
  ghost predicate TotalPreorder<T(!new)>(leq: (T, T) -> bool) {
    && (forall x, y :: leq(x, y) || leq(y, x))
    && (forall x, y, z :: leq(x, y) && leq(y, z) ==> leq(x, z))
  }

  ghost predicate Sorted<T>(s: seq<T>, leq: (T, T) -> bool) {
    forall i, j | 0 <= i < j < |s| :: leq(s[i], s[j])
  }

  /** Insert after every element that does not exceed `x`. */
  function Insert<T>(s: seq<T>, x: T, leq: (T, T) -> bool): seq<T> {
    if s == [] || leq(s[|s| - 1], x) then s + [x]
    else Insert(s[..|s| - 1], x, leq) + [s[|s| - 1]]
  }

  /** The stable sort: elements that tie keep their order. */
  function Sort<T>(s: seq<T>, leq: (T, T) -> bool): seq<T> {
    if s == [] then [] else Insert(Sort(s[..|s| - 1], leq), s[|s| - 1], leq)
  }

  lemma {:induction false} InsertPermutes<T>(s: seq<T>, x: T, leq: (T, T) -> bool)
    ensures multiset(Insert(s, x, leq)) == multiset(s) + multiset{x}
  {
    if s != [] && !leq(s[|s| - 1], x) {
      InsertPermutes(s[..|s| - 1], x, leq);
      assert s == s[..|s| - 1] + [s[|s| - 1]];
    }
  }

  lemma {:induction false} InsertSorts<T(!new)>(s: seq<T>, x: T, leq: (T, T) -> bool)
    requires TotalPreorder(leq) && Sorted(s, leq)
    ensures Sorted(Insert(s, x, leq), leq)
  {
    if s != [] && !leq(s[|s| - 1], x) {
      var front, last := s[..|s| - 1], s[|s| - 1];
      InsertSorts(front, x, leq);
      var r := Insert(front, x, leq);
      InsertPermutes(front, x, leq);
      forall i | 0 <= i < |r| ensures leq(r[i], last) {
        assert r[i] in multiset(r);
        assert r[i] == x || r[i] in front;
      }
    }
  }

  lemma {:induction false} SortPermutes<T>(s: seq<T>, leq: (T, T) -> bool)
    ensures multiset(Sort(s, leq)) == multiset(s)
    ensures |Sort(s, leq)| == |s|
  {
    if s != [] {
      SortPermutes(s[..|s| - 1], leq);
      InsertPermutes(Sort(s[..|s| - 1], leq), s[|s| - 1], leq);
      assert s == s[..|s| - 1] + [s[|s| - 1]];
    }
    assert |multiset(Sort(s, leq))| == |multiset(s)|;
  }

  lemma {:induction false} SortSorts<T(!new)>(s: seq<T>, leq: (T, T) -> bool)
    requires TotalPreorder(leq)
    ensures Sorted(Sort(s, leq), leq)
  {
    if s != [] {
      SortSorts(s[..|s| - 1], leq);
      InsertSorts(Sort(s[..|s| - 1], leq), s[|s| - 1], leq);
    }
  }

  /** Elements that tie are equal. */
  ghost predicate NoTies<T>(s: seq<T>, leq: (T, T) -> bool) {
    forall x, y | x in s && y in s && leq(x, y) && leq(y, x) :: x == y
  }

  lemma LastAgrees<T>(a: seq<T>, b: seq<T>, leq: (T, T) -> bool)
    requires Sorted(a, leq) && Sorted(b, leq) && NoTies(a, leq)
    requires multiset(a) == multiset(b) && a != [] && |a| == |b|
    ensures a[|a| - 1] == b[|a| - 1]
  {
    var n := |a| - 1;
    assert a[n] in multiset(b) && b[n] in multiset(a);
    var i :| 0 <= i <= n && b[i] == a[n];
    var j :| 0 <= j <= n && a[j] == b[n];
    if i < n && j < n {
      assert leq(b[i], b[n]) && leq(a[j], a[n]);
    }
  }

  /** Without ties there is one sorted arrangement. */
  lemma {:induction false} SortedIsUnique<T>(a: seq<T>, b: seq<T>, leq: (T, T) -> bool)
    requires Sorted(a, leq) && Sorted(b, leq)
    requires multiset(a) == multiset(b) && NoTies(a, leq)
    ensures a == b
    decreases |a|
  {
    hide Sorted, NoTies;
    SameLength(a, b);
    if a != [] {
      var n := |a| - 1;
      LastAgrees(a, b, leq);
      FrontKeeps(a, leq);
      FrontKeeps(b, leq);
      FrontsAgree(a, b);
      SortedIsUnique(a[..n], b[..n], leq);
      FromFront(a, b);
    }
  }

  lemma SameLength<T>(a: seq<T>, b: seq<T>)
    requires multiset(a) == multiset(b)
    ensures |a| == |b|
  {
    assert |multiset(a)| == |a| && |multiset(b)| == |b|;
  }

  lemma FrontKeeps<T>(a: seq<T>, leq: (T, T) -> bool)
    requires a != []
    ensures Sorted(a, leq) ==> Sorted(a[..|a| - 1], leq)
    ensures NoTies(a, leq) ==> NoTies(a[..|a| - 1], leq)
  {
  }

  lemma FrontsAgree<T>(a: seq<T>, b: seq<T>)
    requires multiset(a) == multiset(b) && |a| == |b| > 0 && a[|a| - 1] == b[|a| - 1]
    ensures multiset(a[..|a| - 1]) == multiset(b[..|a| - 1])
  {
    var n := |a| - 1;
    assert a == a[..n] + [a[n]] && b == b[..n] + [b[n]];
    assert multiset(a[..n]) == multiset(a) - multiset{a[n]};
  }

  lemma FromFront<T>(a: seq<T>, b: seq<T>)
    requires |a| == |b| > 0 && a[|a| - 1] == b[|a| - 1] && a[..|a| - 1] == b[..|a| - 1]
    ensures a == b
  {
    assert a == a[..|a| - 1] + [a[|a| - 1]] && b == b[..|a| - 1] + [b[|a| - 1]];
  }

  /** Without ties, the input order does not matter. */
  lemma SortIgnoresOrder<T(!new)>(a: seq<T>, b: seq<T>, leq: (T, T) -> bool)
    requires TotalPreorder(leq) && multiset(a) == multiset(b) && NoTies(a, leq)
    ensures Sort(a, leq) == Sort(b, leq)
  {
    SortSorts(a, leq);
    SortSorts(b, leq);
    SortPermutes(a, leq);
    SortPermutes(b, leq);
    assert NoTies(Sort(a, leq), leq) by {
      forall x | x in Sort(a, leq) ensures x in a {
        assert x in multiset(Sort(a, leq));
      }
    }
    SortedIsUnique(Sort(a, leq), Sort(b, leq), leq);
  }

  // ---------- Ties leak the input order ----------

  predicate Ties<T>(x: T, y: T, leq: (T, T) -> bool) {
    leq(x, y) && leq(y, x)
  }

  /** The elements that tie with `k`, in order. */
  function TyingWith<T>(s: seq<T>, k: T, leq: (T, T) -> bool): seq<T> {
    if s == [] then []
    else TyingWith(s[..|s| - 1], k, leq) + if Ties(s[|s| - 1], k, leq) then [s[|s| - 1]] else []
  }

  lemma {:induction false} TyingConcat<T>(a: seq<T>, b: seq<T>, k: T, leq: (T, T) -> bool)
    ensures TyingWith(a + b, k, leq) == TyingWith(a, k, leq) + TyingWith(b, k, leq)
  {
    if b == [] {
      assert a + b == a;
    } else {
      TyingConcat(a, b[..|b| - 1], k, leq);
      assert (a + b)[..|a + b| - 1] == a + b[..|b| - 1];
    }
  }

  lemma {:induction false} InsertIsStable<T(!new)>(s: seq<T>, x: T, k: T, leq: (T, T) -> bool)
    requires TotalPreorder(leq)
    ensures TyingWith(Insert(s, x, leq), k, leq) == TyingWith(s + [x], k, leq)
  {
    hide TotalPreorder, Ties, TyingWith;
    if s != [] && !leq(s[|s| - 1], x) {
      var front, last := s[..|s| - 1], s[|s| - 1];
      InsertIsStable(front, x, k, leq);
      TyingConcat(Insert(front, x, leq), [last], k, leq);
      TyingConcat(front, [x], k, leq);
      TyingConcat(front, [last], k, leq);
      TyingConcat(s, [x], k, leq);
      assert s == front + [last];
      NotBothTie(x, last, k, leq);
      TyingOne(x, k, leq);
      TyingOne(last, k, leq);
    }
  }

  lemma TyingOne<T>(x: T, k: T, leq: (T, T) -> bool)
    ensures TyingWith([x], k, leq) == if Ties(x, k, leq) then [x] else []
  {
  }

  lemma NotBothTie<T(!new)>(x: T, y: T, k: T, leq: (T, T) -> bool)
    requires TotalPreorder(leq) && !leq(y, x)
    ensures !(Ties(x, k, leq) && Ties(y, k, leq))
  {
  }

  /** Sorting keeps the order of elements that tie. */
  lemma {:induction false} SortIsStable<T(!new)>(s: seq<T>, k: T, leq: (T, T) -> bool)
    requires TotalPreorder(leq)
    ensures TyingWith(Sort(s, leq), k, leq) == TyingWith(s, k, leq)
  {
    hide TotalPreorder, Ties, TyingWith, Insert;
    if s != [] {
      var front, last := s[..|s| - 1], s[|s| - 1];
      SortIsStable(front, k, leq);
      InsertIsStable(Sort(front, leq), last, k, leq);
      TyingConcat(Sort(front, leq), [last], k, leq);
      TyingConcat(front, [last], k, leq);
      assert s == front + [last];
    }
  }

  function Swapped<T>(s: seq<T>, i: nat, j: nat): seq<T>
    requires i < j < |s|
  {
    s[i := s[j]][j := s[i]]
  }

  /** Two different elements that tie make the sorted result depend on the input order. */
  lemma TieLeaksOrder<T(!new)>(s: seq<T>, i: nat, j: nat, leq: (T, T) -> bool)
    requires TotalPreorder(leq) && i < j < |s| && s[i] != s[j] && Ties(s[i], s[j], leq)
    ensures multiset(Swapped(s, i, j)) == multiset(s)
    ensures Sort(Swapped(s, i, j), leq) != Sort(s, leq)
  {
    hide TotalPreorder, Sort, TyingWith, Ties;
    var t, k := Swapped(s, i, j), s[i];
    SwapPermutes(s, i, j);
    TiesAreSymmetric(s[i], s[j], leq);
    SplitSwapped(s, i, j);
    hide Swapped;
    FirstTie(s[..i], s[i], s[i + 1..], k, leq);
    FirstTie(s[..i], t[i], t[i + 1..], k, leq);
    SortIsStable(s, k, leq);
    SortIsStable(t, k, leq);
  }

  lemma SplitSwapped<T>(s: seq<T>, i: nat, j: nat)
    requires i < j < |s|
    ensures var t := Swapped(s, i, j);
            && |t| == |s| && t[i] == s[j]
            && s == s[..i] + ([s[i]] + s[i + 1..]) && t == s[..i] + ([t[i]] + t[i + 1..])
  {
  }

  lemma TiesAreSymmetric<T(!new)>(x: T, y: T, leq: (T, T) -> bool)
    requires TotalPreorder(leq) && Ties(x, y, leq)
    ensures Ties(x, x, leq) && Ties(y, x, leq)
  {
  }

  lemma FirstTie<T>(a: seq<T>, x: T, b: seq<T>, k: T, leq: (T, T) -> bool)
    requires Ties(x, k, leq)
    ensures var n := |TyingWith(a, k, leq)|;
            n < |TyingWith(a + ([x] + b), k, leq)| && TyingWith(a + ([x] + b), k, leq)[n] == x
  {
    TyingConcat(a, [x] + b, k, leq);
    TyingConcat([x], b, k, leq);
    TyingOne(x, k, leq);
  }

  lemma SwapPermutes<T>(s: seq<T>, i: nat, j: nat)
    requires i < j < |s|
    ensures multiset(Swapped(s, i, j)) == multiset(s)
  {
  }

  // ---------- Distinct elements ----------

  ghost predicate Distinct<T>(s: seq<T>) {
    forall i, j | 0 <= i < j < |s| :: s[i] != s[j]
  }

  /** A permutation of distinct elements has distinct elements. */
  lemma DistinctPermutes<T>(a: seq<T>, b: seq<T>)
    requires Distinct(a) && multiset(a) == multiset(b)
    ensures Distinct(b)
  {
    forall i, j | 0 <= i < j < |b| ensures b[i] != b[j] {
      if b[i] == b[j] {
        CountTwice(b, i, j);
        CountOnce(a, b[i]);
      }
    }
  }

  lemma CountTwice<T>(b: seq<T>, i: nat, j: nat)
    requires i < j < |b| && b[i] == b[j]
    ensures multiset(b)[b[i]] >= 2
  {
    assert b == b[..j] + [b[j]] + b[j + 1..];
    assert b[i] in b[..j] && b[i] in multiset(b[..j]);
  }

  lemma {:induction false} CountOnce<T>(a: seq<T>, k: T)
    requires Distinct(a)
    ensures multiset(a)[k] <= 1
  {
    if a != [] {
      var front, last := a[..|a| - 1], a[|a| - 1];
      CountOnce(front, k);
      assert a == front + [last];
      assert k == last ==> k !in front && k !in multiset(front);
    }
  }

  function Elements<T>(s: seq<T>): set<T> {
    set x | x in s
  }

  lemma {:induction false} DistinctSize<T>(s: seq<T>)
    requires Distinct(s)
    ensures |Elements(s)| == |s|
  {
    if s != [] {
      var front, last := s[..|s| - 1], s[|s| - 1];
      DistinctSize(front);
      assert s == front + [last];
      assert last !in front;
      assert Elements(s) == Elements(front) + {last};
    }
  }
}
