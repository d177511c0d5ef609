// Sums over the rows of a table.
module MapSum {
  ghost function Total<K(!new), V>(m: map<K, V>, w: (K, V) -> real): real
    decreases |m|
  {
    if m == map[] then 0.0
    else
      var k :| k in m;
      w(k, m[k]) + Total(m - {k}, w)
  }

  // The rows can be added up in any order.
  lemma {:induction false} Pick<K(!new), V>(m: map<K, V>, w: (K, V) -> real, k: K)
    requires k in m
    ensures Total(m, w) == w(k, m[k]) + Total(m - {k}, w)
    decreases |m|
  {
    var j :| j in m && Total(m, w) == w(j, m[j]) + Total(m - {j}, w);
    if j != k {
      Pick(m - {j}, w, k);
      Pick(m - {k}, w, j);
      assert m - {j} - {k} == m - {k} - {j};
    }
  }

  lemma {:induction false} Update<K(!new), V>(m: map<K, V>, w: (K, V) -> real, k: K, v: V)
    ensures Total(m[k := v], w) == Total(m, w) - (if k in m then w(k, m[k]) else 0.0) + w(k, v)
  {
    Pick(m[k := v], w, k);
    assert m[k := v] - {k} == m - {k};
    if k in m {
      Pick(m, w, k);
    } else {
      assert m - {k} == m;
    }
  }

  lemma {:induction false} Remove<K(!new), V>(m: map<K, V>, w: (K, V) -> real, k: K)
    requires k in m
    ensures Total(m - {k}, w) == Total(m, w) - w(k, m[k])
  {
    Pick(m, w, k);
  }

  lemma {:induction false} TotalBounds<K(!new), V>(m: map<K, V>, w: (K, V) -> real)
    requires forall k :: k in m ==> w(k, m[k]) >= 0.0
    ensures Total(m, w) >= 0.0
    ensures forall k :: k in m ==> w(k, m[k]) <= Total(m, w)
    decreases |m|
  {
    if m != map[] {
      forall k | k in m ensures w(k, m[k]) <= Total(m, w) && Total(m, w) >= 0.0 {
        Pick(m, w, k);
        TotalBounds(m - {k}, w);
      }
      var k :| k in m;
    }
  }

  lemma {:induction false} TotalAtMost<K(!new), V>(m: map<K, V>, w: (K, V) -> real, x: (K, V) -> real)
    requires forall k :: k in m ==> w(k, m[k]) <= x(k, m[k])
    ensures Total(m, w) <= Total(m, x)
    decreases |m|
  {
    if m != map[] {
      var k :| k in m;
      Pick(m, w, k);
      Pick(m, x, k);
      TotalAtMost(m - {k}, w, x);
    }
  }

  lemma {:induction false} TotalZero<K(!new), V>(m: map<K, V>, w: (K, V) -> real)
    requires forall k :: k in m ==> w(k, m[k]) == 0.0
    ensures Total(m, w) == 0.0
    decreases |m|
  {
    if m != map[] {
      var k :| k in m;
      Pick(m, w, k);
      TotalZero(m - {k}, w);
    }
  }
}
