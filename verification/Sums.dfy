/** Finite sums over maps: token supplies, and the number of bids a TEE stores. */
module Sums {

  function At<K>(m: map<K, nat>, k: K): nat {
    if k in m then m[k] else 0
  }

  ghost function Sum<K>(m: map<K, nat>): nat
    decreases m.Keys
  {
    if m.Keys == {} then 0
    else
      var k :| k in m;
      m[k] + Sum(m - {k})
  }

  lemma {:induction false} SumRemove<K>(m: map<K, nat>, k: K)
    requires k in m
    ensures Sum(m) == m[k] + Sum(m - {k})
    decreases m.Keys
  {
    var j :| j in m && Sum(m) == m[j] + Sum(m - {j});
    if j != k {
      SumRemove(m - {j}, k);
      SumRemove(m - {k}, j);
      assert m - {j} - {k} == m - {k} - {j};
    }
  }

  /** Writing one cell changes the sum by exactly the change of that cell. */
  lemma SumUpdate<K>(m: map<K, nat>, k: K, v: nat)
    ensures Sum(m[k := v]) + At(m, k) == Sum(m) + v
  {
    SumRemove(m[k := v], k);
    assert m[k := v] - {k} == m - {k};
    if k in m {
      SumRemove(m, k);
    } else {
      assert m - {k} == m;
    }
  }

  /** Two different cells together never exceed the sum. */
  lemma TwoCellsWithinSum<K>(m: map<K, nat>, j: K, k: K)
    requires j != k
    ensures At(m, j) + At(m, k) <= Sum(m)
  {
    if j in m {
      SumRemove(m, j);
    }
    if k in m - {j} {
      SumRemove(m - {j}, k);
    } else if k in m {
      SumRemove(m, k);
    }
  }

  lemma CellWithinSum<K>(m: map<K, nat>, k: K)
    ensures At(m, k) <= Sum(m)
  {
    if k in m {
      SumRemove(m, k);
    }
  }
}
