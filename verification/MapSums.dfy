/** Sums over the values of a finite map, independent of the iteration order. */
module MapSums {

  ghost function Sum<K>(m: map<K, int>): int
    decreases |m|
  {
    if m == map[] then 0
    else
      var k :| k in m;
      m[k] + Sum(m - {k})
  }

  /** Any key can be taken out first. */
  lemma {:induction false} SumRemove<K>(m: map<K, int>, k: K)
    requires k in m
    ensures Sum(m) == m[k] + Sum(m - {k})
    decreases |m|
  {
    var k0 :| k0 in m && Sum(m) == m[k0] + Sum(m - {k0});
    if k0 != k {
      SumRemove(m - {k0}, k);
      SumRemove(m - {k}, k0);
      assert m - {k0} - {k} == m - {k} - {k0};
    }
  }

  /** Summing key by key: taking k off the keys still to be added adds its value. */
  lemma SumOneMore<K>(m: map<K, int>, todo: set<K>, k: K)
    requires k in m && k in todo
    ensures Sum(m - (todo - {k})) == Sum(m - todo) + m[k]
  {
    SumRemove(m - (todo - {k}), k);
    assert m - (todo - {k}) - {k} == m - todo;
  }

  /** A sum over a union, one key of the first map taken out. */
  lemma SumUnionStep<K>(m: map<K, int>, n: map<K, int>, k: K)
    requires k in m && k !in n
    ensures Sum(m + n) == m[k] + Sum((m - {k}) + n)
  {
    var u, v := m + n, (m - {k}) + n;
    assert u - {k} == v by {
      assert (u - {k}).Keys == v.Keys;
    }
    SumRemove(u, k);
  }

  /** The sum over a disjoint union is the sum of the sums. */
  lemma {:induction false} SumDisjoint<K>(m: map<K, int>, n: map<K, int>)
    requires m.Keys !! n.Keys
    ensures Sum(m + n) == Sum(m) + Sum(n)
    decreases |m|
  {
    if m == map[] {
      assert m + n == n;
    } else {
      var k :| k in m;
      SumUnionStep(m, n, k);
      SumRemove(m, k);
      SumDisjoint(m - {k}, n);
    }
  }
}
