/** Sums over the values of a finite map. */
module Totals {

  ghost function Total<K(!new)>(m: map<K, int>): int
    decreases |m|
  {
    if m == map[] then 0
    else
      var k :| k in m;
      m[k] + Total(m - {k})
  }

  /** Any key may be taken out first. */
  lemma {:induction false} TakeOut<K(!new)>(m: map<K, int>, k: K)
    requires k in m
    ensures Total(m) == m[k] + Total(m - {k})
    decreases |m|
  {
    var first :| first in m && Total(m) == m[first] + Total(m - {first});
    if first != k {
      TakeOut(m - {first}, k);
      TakeOut(m - {k}, first);
      assert m - {first} - {k} == m - {k} - {first};
    }
  }

  lemma TotalUpdate<K(!new)>(m: map<K, int>, k: K, v: int)
    ensures Total(m[k := v]) == Total(m) - (if k in m then m[k] else 0) + v
  {
    TakeOut(m[k := v], k);
    assert m[k := v] - {k} == m - {k};
    if k in m {
      TakeOut(m, k);
    } else {
      assert m - {k} == m;
    }
  }

  lemma TotalRemove<K(!new)>(m: map<K, int>, k: K)
    ensures Total(m - {k}) == Total(m) - (if k in m then m[k] else 0)
  {
    if k in m {
      TakeOut(m, k);
    } else {
      assert m - {k} == m;
    }
  }

  /** Pointwise order is inherited by sums; a sum of non-negative values bounds each of them. */
  lemma {:induction false} TotalMonotone<K(!new)>(a: map<K, int>, b: map<K, int>)
    requires a.Keys == b.Keys && forall k | k in a :: a[k] <= b[k]
    ensures Total(a) <= Total(b)
    decreases |a|
  {
    if a != map[] {
      var k :| k in a;
      TakeOut(a, k);
      TakeOut(b, k);
      TotalMonotone(a - {k}, b - {k});
    } else {
      assert b == map[];
    }
  }

  lemma {:induction false} TotalNonNegative<K(!new)>(m: map<K, int>)
    requires forall k | k in m :: m[k] >= 0
    ensures Total(m) >= 0
    decreases |m|
  {
    if m != map[] {
      var k :| k in m;
      TakeOut(m, k);
      TotalNonNegative(m - {k});
    }
  }

  lemma TotalBounds<K(!new)>(m: map<K, int>, k: K)
    requires k in m && forall j | j in m :: m[j] >= 0
    ensures 0 <= m[k] <= Total(m)
  {
    TakeOut(m, k);
    TotalNonNegative(m - {k});
  }

  lemma {:induction false} TotalAdds<K(!new)>(a: map<K, int>, b: map<K, int>, c: map<K, int>)
    requires a.Keys == b.Keys == c.Keys && forall k | k in c :: c[k] == a[k] + b[k]
    ensures Total(c) == Total(a) + Total(b)
    decreases |a|
  {
    if a != map[] {
      var k :| k in a;
      TakeOut(a, k);
      TakeOut(b, k);
      TakeOut(c, k);
      TotalAdds(a - {k}, b - {k}, c - {k});
    } else {
      assert b == map[] && c == map[];
    }
  }

  lemma {:induction false} TotalZero<K(!new)>(m: map<K, int>)
    requires forall k | k in m :: m[k] == 0
    ensures Total(m) == 0
    decreases |m|
  {
    if m != map[] {
      var k :| k in m;
      TakeOut(m, k);
      TotalZero(m - {k});
    }
  }
}
