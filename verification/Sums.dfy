/** Totals over finite maps: what every ledger in this project adds up. */
module Sums {

  /** The sum of the weights of the entries. */
  ghost function Total<K, V>(m: map<K, V>, weight: (K, V) -> int): int {
    if m == map[] then 0
    else
      var k :| k in m;
      weight(k, m[k]) + Total(m - {k}, weight)
  }

  lemma {:induction false} TotalWithout<K, V>(m: map<K, V>, weight: (K, V) -> int, k: K)
    requires k in m
    ensures Total(m, weight) == weight(k, m[k]) + Total(m - {k}, weight)
    decreases |m|
  {
    var j :| j in m && Total(m, weight) == weight(j, m[j]) + Total(m - {j}, weight);
    if j != k {
      TotalWithout(m - {j}, weight, k);
      TotalWithout(m - {k}, weight, j);
      assert m - {j} - {k} == m - {k} - {j};
    }
  }

  function WeightAt<K, V>(m: map<K, V>, weight: (K, V) -> int, k: K): int {
    if k in m then weight(k, m[k]) else 0
  }

  /** Writing one entry moves the total by the change of its weight. */
  lemma TotalUpdate<K, V>(m: map<K, V>, weight: (K, V) -> int, k: K, v: V)
    ensures Total(m[k := v], weight) == Total(m, weight) - WeightAt(m, weight, k) + weight(k, v)
  {
    TotalWithout(m[k := v], weight, k);
    assert m[k := v] - {k} == m - {k};
    if k in m {
      TotalWithout(m, weight, k);
    } else {
      assert m - {k} == m;
    }
  }

  /** No single non-negative weight exceeds the total. */
  lemma {:induction false} TotalCovers<K, V>(m: map<K, V>, weight: (K, V) -> int, k: K)
    requires forall j | j in m :: weight(j, m[j]) >= 0
    ensures 0 <= WeightAt(m, weight, k) <= Total(m, weight)
    decreases |m|
  {
    if m == map[] {
    } else {
      var j :| j in m && Total(m, weight) == weight(j, m[j]) + Total(m - {j}, weight);
      TotalCovers(m - {j}, weight, k);
      TotalCovers(m - {j}, weight, j);
    }
  }

  lemma {:induction false} TotalNone<K, V>(m: map<K, V>, weight: (K, V) -> int)
    requires forall k | k in m :: weight(k, m[k]) == 0
    ensures Total(m, weight) == 0
    decreases |m|
  {
    if m == map[] {
    } else {
      var k :| k in m && Total(m, weight) == weight(k, m[k]) + Total(m - {k}, weight);
      TotalNone(m - {k}, weight);
    }
  }
}
