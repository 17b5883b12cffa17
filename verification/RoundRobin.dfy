/** The cursor that serves tenants in turn, and why no tenant starves. */
module RoundRobin {
  import opened Common
  import opened Sorting
  import opened Sums

  /** The smallest tenant beyond the cursor, or else the smallest of all. */
  ghost predicate IsNext(last: Option<Address>, tenants: set<Address>, chosen: Address) {
    && chosen in tenants
    && if last.Some? && exists t :: t in tenants && t > last.value
       then chosen > last.value && forall t | t in tenants && t > last.value :: chosen <= t
       else forall t | t in tenants :: chosen <= t
  }

  method Choose(last: Option<Address>, tenants: set<Address>) returns (chosen: Address)
    requires tenants != {}
    ensures IsNext(last, tenants, chosen)
  {
    var sorted := InOrder(tenants);
    assert sorted != [] by {
      var t :| t in tenants;
      assert t in sorted;
    }
    assert sorted[0] in tenants;
    if last.Some? {
      for i := 0 to |sorted|
        invariant forall k | 0 <= k < i :: sorted[k] <= last.value
      {
        if sorted[i] > last.value {
          assert sorted[i] in tenants;
          return sorted[i];
        }
      }
    }
    return sorted[0];
  }

  /** A run of fetches: at each, the tenants with matching work and the one served. */
  ghost predicate Serves(start: Option<Address>, waiting: seq<set<Address>>, served: seq<Address>) {
    && |waiting| == |served|
    && forall i {:trigger waiting[i]} | 0 <= i < |served| ::
         IsNext(if i == 0 then start else Some(served[i - 1]), waiting[i], served[i])
  }

  /** In the sweep towards `w`, upwards past the largest and on from the smallest, `b` comes after `a`. */
  predicate Nearer(w: Address, a: Address, b: Address) {
    if a > w then b > a || b < w else a < b < w
  }

  /** While `w` waits, the cursor only moves nearer to it. */
  lemma CursorMovesNearer(w: Address, tenants: set<Address>, a: Address, b: Address)
    requires w in tenants && IsNext(Some(a), tenants, b) && a != w && b != w
    ensures Nearer(w, a, b)
  {
  }

  lemma {:induction false} SweepIsMonotone(start: Option<Address>, waiting: seq<set<Address>>, served: seq<Address>,
                                           w: Address, i: nat, j: nat)
    requires Serves(start, waiting, served) && i < j < |served|
    requires forall k | 0 <= k < |waiting| :: w in waiting[k]
    requires w !in served
    ensures Nearer(w, served[i], served[j])
    decreases j
  {
    CursorMovesNearer(w, waiting[j], served[j - 1], served[j]);
    if i < j - 1 {
      SweepIsMonotone(start, waiting, served, w, i, j - 1);
    }
  }

  /** No tenant is served twice while another with matching work throughout waits. */
  lemma NobodyTwiceWhileWaiting(start: Option<Address>, waiting: seq<set<Address>>, served: seq<Address>, w: Address)
    requires Serves(start, waiting, served) && w !in served
    requires forall k | 0 <= k < |waiting| :: w in waiting[k]
    ensures Distinct(served)
  {
    forall i, j | 0 <= i < j < |served| ensures served[i] != served[j] {
      SweepIsMonotone(start, waiting, served, w, i, j);
    }
  }

  lemma SubsetSize<T>(a: set<T>, b: set<T>)
    requires a <= b
    ensures |a| <= |b|
  {
    assert b == a + (b - a) && a !! (b - a);
  }

  /** With `k` tenants in play, one with matching work throughout is served within `k` fetches. */
  lemma ServedWithin(start: Option<Address>, waiting: seq<set<Address>>, served: seq<Address>, w: Address,
                     all: set<Address>)
    requires Serves(start, waiting, served)
    requires forall k | 0 <= k < |waiting| :: w in waiting[k] && waiting[k] <= all
    requires |served| >= |all| > 0
    ensures w in served
  {
    if w !in served {
      NobodyTwiceWhileWaiting(start, waiting, served, w);
      DistinctSize(served);
      assert w in waiting[0];
      forall x | x in served ensures x in all - {w} {
        var i :| 0 <= i < |served| && served[i] == x;
        assert x in waiting[i];
      }
      SubsetSize(Elements(served), all - {w});
    }
  }
}
