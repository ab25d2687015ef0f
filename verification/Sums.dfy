/** SQL's SUM and MAX over the rows of a finite table. */
module Sums {
  import opened Basics

  ghost function Pick<T>(s: set<T>): (x: T)
    requires s != {}
    ensures x in s
  {
    var x :| x in s;
    x
  }

  /** COALESCE(MAX(...), 0). */
  ghost function MaxOf(values: set<int>): (r: int)
    ensures values == {} ==> r == 0
    ensures values != {} ==> r in values
    ensures forall v | v in values :: v <= r
  {
    if values == {} then
      0
    else
      var v := Pick(values);
      if values == {v} then
        v
      else
        assert values == {v} + (values - {v});
        Max(v, MaxOf(values - {v}))
  }

  lemma MaxOfIs(values: set<int>, r: int)
    requires r in values && forall v | v in values :: v <= r
    ensures MaxOf(values) == r
  {
  }

  /** COALESCE(SUM(m[k]), 0) over the keys in `keys`. */
  ghost function SumOver<K>(m: map<K, int>, keys: set<K>): int
    requires keys <= m.Keys
  {
    if keys == {} then
      0
    else
      var k :| k in keys;
      m[k] + SumOver(m, keys - {k})
  }

  lemma {:induction false} SumOverRemove<K>(m: map<K, int>, keys: set<K>, k: K)
    requires keys <= m.Keys && k in keys
    ensures SumOver(m, keys) == m[k] + SumOver(m, keys - {k})
    decreases keys
  {
    var j :| j in keys && SumOver(m, keys) == m[j] + SumOver(m, keys - {j});
    if j != k {
      SumOverRemove(m, keys - {j}, k);
      SumOverRemove(m, keys - {k}, j);
      assert keys - {j} - {k} == keys - {k} - {j};
    }
  }

  lemma {:induction false} SumOverAgree<K>(m: map<K, int>, n: map<K, int>, keys: set<K>)
    requires keys <= m.Keys && keys <= n.Keys
    requires forall k | k in keys :: m[k] == n[k]
    ensures SumOver(m, keys) == SumOver(n, keys)
  {
    if keys != {} {
      var k :| k in keys;
      SumOverRemove(m, keys, k);
      SumOverRemove(n, keys, k);
      SumOverAgree(m, n, keys - {k});
    }
  }

  /** Writing one row moves the sum by that row's change. */
  lemma SumOverUpdate<K>(m: map<K, int>, keys: set<K>, k: K, v: int)
    requires keys <= m.Keys && (k in m ==> k in keys)
    ensures SumOver(m[k := v], keys + {k}) == SumOver(m, keys) - Get(m, k, 0) + v
  {
    var n := m[k := v];
    SumOverRemove(n, keys + {k}, k);
    assert (keys + {k}) - {k} == keys - {k};
    SumOverAgree(m, n, keys - {k});
    if k in keys {
      SumOverRemove(m, keys, k);
    } else {
      assert keys - {k} == keys;
    }
  }

  lemma {:induction false} SumOverSplit<K>(m: map<K, int>, a: set<K>, b: set<K>)
    requires a <= m.Keys && b <= m.Keys && a !! b
    ensures SumOver(m, a + b) == SumOver(m, a) + SumOver(m, b)
    decreases a
  {
    if a == {} {
      assert a + b == b;
    } else {
      var k :| k in a;
      SumOverRemove(m, a + b, k);
      SumOverRemove(m, a, k);
      assert (a + b) - {k} == (a - {k}) + b;
      SumOverSplit(m, a - {k}, b);
    }
  }

  lemma {:induction false} SumOverNonNegative<K>(m: map<K, int>, keys: set<K>)
    requires keys <= m.Keys && forall k | k in keys :: 0 <= m[k]
    ensures 0 <= SumOver(m, keys)
  {
    if keys != {} {
      var k :| k in keys;
      SumOverRemove(m, keys, k);
      SumOverNonNegative(m, keys - {k});
    }
  }
}
