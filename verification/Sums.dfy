/** Finite sums over maps, used wherever the system promises that a running
    total agrees with the rows it summarises. */
module Sums {

  ghost function Sum<K>(m: map<K, int>): int
    decreases |m|
  {
    if m == map[] then 0
    else
      var k :| k in m;
      m[k] + Sum(m - {k})
  }

  lemma SumRemove<K>(m: map<K, int>, k: K)
    requires k in m
    ensures Sum(m) == m[k] + Sum(m - {k})
    decreases |m|
  {
    assert m != map[];
    var j :| j in m && Sum(m) == m[j] + Sum(m - {j});
    if j != k {
      SumRemove(m - {j}, k);
      SumRemove(m - {k}, j);
      assert m - {j} - {k} == m - {k} - {j};
    }
  }

  /** Overwriting or adding one entry moves the sum by the difference. */
  lemma SumUpdate<K>(m: map<K, int>, k: K, v: int)
    ensures Sum(m[k := v]) == Sum(m) - (if k in m then m[k] else 0) + v
  {
    SumRemove(m[k := v], k);
    if k in m {
      SumRemove(m, k);
      assert m[k := v] - {k} == m - {k};
    } else {
      assert m[k := v] - {k} == m;
    }
  }

  /** Adding two columns row by row adds their sums. */
  lemma {:induction false} SumAdd<K>(m: map<K, int>, a: map<K, int>, b: map<K, int>)
    requires m.Keys == a.Keys == b.Keys && forall k :: k in m ==> m[k] == a[k] + b[k]
    ensures Sum(m) == Sum(a) + Sum(b)
    decreases |m|
  {
    if m == map[] {
      assert a == map[] && b == map[];
    } else {
      var k :| k in m;
      SumAdd(m - {k}, a - {k}, b - {k});
      SumRemove(m, k);
      SumRemove(a, k);
      SumRemove(b, k);
    }
  }
}
