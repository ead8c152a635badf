/** Sums over finite maps. */
module Sums {
  ghost function Sum<K>(m: map<K, nat>): nat
    decreases |m|
  {
    if m == map[] then 0
    else
      var k :| k in m;
      m[k] + Sum(m - {k})
  }

  lemma {:induction false} SumRemove<K>(m: map<K, nat>, k: K)
    requires k in m
    ensures Sum(m) == m[k] + Sum(m - {k})
    decreases |m|
  {
    var j :| j in m && Sum(m) == m[j] + Sum(m - {j});
    if j != k {
      SumRemove(m - {j}, k);
      SumRemove(m - {k}, j);
      assert m - {j} - {k} == m - {k} - {j};
    }
  }

  function Value<K>(m: map<K, nat>, k: K): nat {
    if k in m then m[k] else 0
  }

  /** Changing or adding one entry changes the sum by as much. */
  lemma SumUpdate<K>(m: map<K, nat>, k: K, v: nat)
    ensures Sum(m[k := v]) == Sum(m) - Value(m, k) + v
  {
    SumRemove(m[k := v], k);
    if k in m {
      SumRemove(m, k);
      assert m[k := v] - {k} == m - {k};
    } else {
      assert m[k := v] - {k} == m;
    }
  }

  /** Two maps that agree everywhere but at two keys differ in their sums by those entries. */
  lemma SumDiffer<K>(m: map<K, nat>, m': map<K, nat>, a: K, b: K)
    requires a != b && m'.Keys + {a, b} == m.Keys + {a, b} && a in m' && (b in m ==> b in m')
    requires forall k :: k in m && k != a && k != b ==> m'[k] == m[k]
    ensures Sum(m') + Value(m, a) + Value(m, b) == Sum(m) + Value(m', a) + Value(m', b)
  {
    hide Sum;
    var first := m[a := m'[a]];
    SumUpdate(m, a, m'[a]);
    if b in m' {
      SumUpdate(first, b, m'[b]);
      assert m' == first[b := m'[b]];
    } else {
      assert m' == first;
    }
  }
}
