/** Sums over finite maps: the arithmetic behind "the levels aggregate the orders". */
module MapSum {

  /** The sum of all values of `m`. */
  ghost function Sum<K>(m: map<K, nat>): nat
    decreases |m|
  {
    if m == map[] then
      0
    else
      var k :| k in m;
      m[k] + Sum(m - {k})
  }

  /** The sum does not depend on the key that is taken out first. */
  lemma {:induction false} SumRemove<K>(m: map<K, nat>, k: K)
    requires k in m
    ensures Sum(m) == m[k] + Sum(m - {k})
    decreases |m|
  {
    var j :| j in m && Sum(m) == m[j] + Sum(m - {j});
    if j != k {
      SumRemove(m - {j}, k);
      SumRemove(m - {k}, j);
      assert m - {j} - {k} == m - {k} - {j};
    }
  }

  /** Writing key `k` adds the new value and takes out the one it replaces, if any. */
  lemma SumUpdate<K>(m: map<K, nat>, k: K, v: nat)
    ensures Sum(m[k := v]) == Sum(m) - (if k in m then m[k] else 0) + v
  {
    SumRemove(m[k := v], k);
    assert m[k := v] - {k} == m - {k};
    if k in m {
      SumRemove(m, k);
    } else {
      assert m - {k} == m;
    }
  }

  /** Putting one more key of `m` back into a partial sum. */
  lemma SumKeep<K>(m: map<K, nat>, rest: set<K>, k: K)
    requires k in m && k in rest
    ensures Sum(m - (rest - {k})) == Sum(m - rest) + m[k]
  {
    var n := m - (rest - {k});
    assert n[k] == m[k];
    assert n - {k} == m - rest;
    SumRemove(n, k);
  }

  lemma SumEnds<K>(m: map<K, nat>)
    ensures Sum(m - m.Keys) == 0 && Sum(m - {}) == Sum(m)
  {
    assert m - m.Keys == map[];
    assert m - {} == m;
  }

  /** A positive sum has a positive summand. */
  lemma {:induction false} SumPositive<K>(m: map<K, nat>)
    requires Sum(m) > 0
    ensures exists k :: k in m && m[k] > 0
    decreases |m|
  {
    var k :| k in m && Sum(m) == m[k] + Sum(m - {k});
    if m[k] == 0 {
      SumPositive(m - {k});
      var j :| j in m - {k} && (m - {k})[j] > 0;
      assert j in m && m[j] > 0;
    }
  }
}
