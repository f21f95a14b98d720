/** Sums over the values of a finite map: used gigabytes, gigabytes promised to pending creates. */
module MapSums {
  ghost function Total<K>(m: map<K, int>): int {
    if m == map[] then 0
    else
      var k :| k in m;
      m[k] + Total(m - {k})
  }

  ghost function At<K>(m: map<K, int>, k: K): int {
    if k in m then m[k] else 0
  }

  lemma SameElsewhere<K, V>(m: map<K, V>, m': map<K, V>, k: K)
    requires m' - {k} == m - {k}
    ensures forall i :: i != k ==> (i in m' <==> i in m)
    ensures forall i :: i != k && i in m ==> m'[i] == m[i]
    ensures |m'.Keys| == |m.Keys| - (if k in m then 1 else 0) + (if k in m' then 1 else 0)
  {
    forall i | i != k
      ensures i in m' <==> i in m
      ensures i in m ==> m'[i] == m[i]
    {
      assert i in m <==> i in m - {k};
      assert i in m' <==> i in m' - {k};
      assert i in m - {k} ==> (m - {k})[i] == (m' - {k})[i];
    }
    assert m'.Keys - {k} == m.Keys - {k};
    assert |m.Keys| == |m.Keys - {k}| + if k in m then 1 else 0;
    assert |m'.Keys| == |m'.Keys - {k}| + if k in m' then 1 else 0;
  }

  lemma {:induction false} TotalRemove<K>(m: map<K, int>, k: K)
    requires k in m
    ensures Total(m) == m[k] + Total(m - {k})
    decreases |m|
  {
    var j :| j in m && Total(m) == m[j] + Total(m - {j});
    if j != k {
      TotalRemove(m - {j}, k);
      TotalRemove(m - {k}, j);
      assert m - {j} - {k} == m - {k} - {j};
    }
  }

  /** Changing a map at one key changes its total by the difference of the two entries. */
  lemma TotalChange<K>(m: map<K, int>, m': map<K, int>, k: K)
    requires m - {k} == m' - {k}
    ensures Total(m') == Total(m) - At(m, k) + At(m', k)
  {
    if k in m { TotalRemove(m, k); } else { assert m - {k} == m; }
    if k in m' { TotalRemove(m', k); } else { assert m' - {k} == m'; }
  }

  /** A total of entries each within `limit` times another map's entry is within `limit` times its total. */
  lemma {:induction false} TotalScaled<K>(m: map<K, int>, units: map<K, int>, limit: int)
    requires m.Keys == units.Keys
    requires forall k :: k in m ==> m[k] <= units[k] * limit
    ensures Total(m) <= Total(units) * limit
    decreases |m.Keys|
  {
    if m != map[] {
      var k :| k in m && Total(m) == m[k] + Total(m - {k});
      TotalRemove(units, k);
      assert (m - {k}).Keys == m.Keys - {k} == (units - {k}).Keys;
      TotalScaled(m - {k}, units - {k}, limit);
      Distribute(units[k], Total(units - {k}), limit);
    }
  }

  lemma {:induction false} TotalNonNegative<K>(m: map<K, int>)
    requires forall k :: k in m ==> 0 <= m[k]
    ensures 0 <= Total(m)
    decreases |m.Keys|
  {
    if m != map[] {
      var k :| k in m && Total(m) == m[k] + Total(m - {k});
      assert (m - {k}).Keys == m.Keys - {k};
      TotalNonNegative(m - {k});
    }
  }

  lemma {:induction false} TotalConstant<K>(m: map<K, int>, v: int)
    requires forall k :: k in m ==> m[k] == v
    ensures Total(m) == |m.Keys| * v
    decreases |m.Keys|
  {
    if m != map[] {
      var k :| k in m && Total(m) == m[k] + Total(m - {k});
      var rest := m - {k};
      assert rest.Keys == m.Keys - {k};
      TotalConstant(rest, v);
      assert |m.Keys| == |rest.Keys| + 1;
      Distribute(|rest.Keys|, 1, v);
    }
  }

  lemma Distribute(a: int, b: int, x: int)
    ensures (a + b) * x == a * x + b * x
  {}
}
