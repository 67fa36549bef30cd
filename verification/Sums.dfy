/** Sums of weights over the values of a finite map. */
module Sums {
  ghost function SumOver<K, V>(m: map<K, V>, weight: V -> nat): nat
    decreases |m|
  {
    if m == map[] then 0
    else
      var k :| k in m;
      weight(m[k]) + SumOver(m - {k}, weight)
  }

  /** Any key can be split off first. */
  lemma {:induction false} SumSplit<K, V>(m: map<K, V>, weight: V -> nat, k: K)
    requires k in m
    ensures SumOver(m, weight) == weight(m[k]) + SumOver(m - {k}, weight)
    decreases |m|
  {
    var first :| first in m && SumOver(m, weight) == weight(m[first]) + SumOver(m - {first}, weight);
    if first != k {
      SumSplit(m - {first}, weight, k);
      SumSplit(m - {k}, weight, first);
      assert m - {first} - {k} == m - {k} - {first};
    }
  }

  /** Setting one key replaces its weight. */
  lemma SumSet<K, V>(m: map<K, V>, weight: V -> nat, k: K, v: V)
    ensures SumOver(m[k := v], weight) == weight(v) + SumOver(m - {k}, weight)
    ensures SumOver(m, weight) == (if k in m then weight(m[k]) else 0) + SumOver(m - {k}, weight)
  {
    SumSplit(m[k := v], weight, k);
    assert m[k := v] - {k} == m - {k};
    if k in m {
      SumSplit(m, weight, k);
    } else {
      assert m - {k} == m;
    }
  }
}
