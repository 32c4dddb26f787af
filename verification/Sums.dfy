/** Finite sums over maps: in any order, and by index. */
module Sums {
  ghost function Sum<K(!new)>(m: map<K, int>): int {
    if m == map[] then 0
    else
      var k :| k in m;
      m[k] + Sum(m - {k})
  }

  lemma {:induction false} SumRemove<K(!new)>(m: map<K, int>, k: K)
    requires k in m
    ensures Sum(m) == m[k] + Sum(m - {k})
    decreases |m|
  {
    var j :| j in m && Sum(m) == m[j] + Sum(m - {j});
    if j != k {
      SumRemove(m - {j}, k);
      SumRemove(m - {k}, j);
      assert m - {j} - {k} == m - {k} - {j};
    }
  }

  /** Writing one entry changes a sum by the difference it makes. */
  lemma SumUpdate<K(!new)>(m: map<K, int>, k: K, v: int)
    ensures Sum(m[k := v]) == Sum(m) + v - (if k in m then m[k] else 0)
  {
    SumRemove(m[k := v], k);
    if k in m {
      SumRemove(m, k);
      assert m[k := v] - {k} == m - {k};
    } else {
      assert m[k := v] - {k} == m;
    }
  }

  /** The entries at indices below `n`, in order. */
  function Total(m: map<nat, int>, n: nat): int {
    if n == 0 then 0 else Total(m, n - 1) + if n - 1 in m then m[n - 1] else 0
  }

  lemma {:induction false} TotalUpdate(m: map<nat, int>, k: nat, v: int, n: nat)
    ensures Total(m[k := v], n) == Total(m, n) + if k < n then v - (if k in m then m[k] else 0) else 0
  {
    if n > 0 {
      TotalUpdate(m, k, v, n - 1);
    }
  }
}
