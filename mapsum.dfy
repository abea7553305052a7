/**
 Totals over the values of a finite map, used to state what the aggregation
 conserves: the sum of all durations and the sum of all event counts.
 */
module MapSum {

  /** The sum of the values of `m`, taken in an arbitrary key order. */
  ghost function Sum<K>(m: map<K, int>): int
    decreases |m|
  {
    if m == map[] then 0
    else
      var k :| k in m;
      m[k] + Sum(m - {k})
  }

  /** Any key may be taken out first: the sum does not depend on the order. */
  lemma {:induction false} SumRemove<K>(m: map<K, int>, k: K)
    requires k in m
    ensures Sum(m) == m[k] + Sum(m - {k})
    decreases |m|
  {
    var j :| j in m && Sum(m) == m[j] + Sum(m - {j});
    if j != k {
      assert (m - {j}) - {k} == (m - {k}) - {j};
      SumRemove(m - {j}, k);
      SumRemove(m - {k}, j);
    }
  }

  /** Setting key `k` to `v` changes the sum by `v` minus what `k` held before (nothing when absent). */
  lemma SumUpdate<K>(m: map<K, int>, k: K, v: int)
    ensures Sum(m[k := v]) == Sum(m) - (if k in m then m[k] else 0) + v
  {
    SumRemove(m[k := v], k);
    assert m[k := v] - {k} == m - {k};
    if k in m {
      SumRemove(m, k);
    } else {
      assert m - {k} == m;
    }
  }
}
