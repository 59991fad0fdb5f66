/** Sums over the rows of a finite table. */
module Sums {

  ghost function Total<K>(m: map<K, int>): int
  {
    if m == map[] then
      0
    else
      var k :| k in m;
      m[k] + Total(m - {k})
  }

  /** The order in which rows are added up does not matter. */
  lemma {:induction false} TotalRemove<K>(m: map<K, int>, k: K)
    requires k in m
    ensures Total(m) == m[k] + Total(m - {k})
    decreases |m|
  {
    var j :| j in m && Total(m) == m[j] + Total(m - {j});
    if j != k {
      assert |m - {j}| < |m| && |m - {k}| < |m| by {
        SmallerWithout(m, j);
        SmallerWithout(m, k);
      }
      TotalRemove(m - {j}, k);
      TotalRemove(m - {k}, j);
      assert m - {j} - {k} == m - {k} - {j};
    }
  }

  lemma SmallerWithout<K>(m: map<K, int>, k: K)
    requires k in m
    ensures |m - {k}| == |m| - 1
  {
    assert (m - {k}).Keys == m.Keys - {k};
    assert |(m - {k}).Keys| == |m.Keys| - 1;
  }

  function At<K>(m: map<K, int>, k: K): int {
    if k in m then m[k] else 0
  }

  lemma TotalUpdate<K>(m: map<K, int>, k: K, v: int)
    ensures Total(m[k := v]) == Total(m) - At(m, k) + v
  {
    TotalRemove(m[k := v], k);
    assert m[k := v] - {k} == m - {k};
    if k in m {
      TotalRemove(m, k);
    } else {
      assert m - {k} == m;
    }
  }

  lemma {:induction false} TotalNonNegative<K>(m: map<K, int>)
    requires forall k :: k in m ==> m[k] >= 0
    ensures Total(m) >= 0
    ensures forall k :: k in m ==> m[k] <= Total(m)
    decreases |m|
  {
    if m != map[] {
      forall k | k in m ensures 0 <= m[k] <= Total(m) {
        SmallerWithout(m, k);
        TotalNonNegative(m - {k});
        TotalRemove(m, k);
      }
      var k :| k in m;
    }
  }
}
