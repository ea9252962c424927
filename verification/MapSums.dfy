/** Sums of a weight over the rows of a table, and how they move when one row changes. */
module MapSums {

  ghost function SumBy<K, V>(m: map<K, V>, w: (K, V) -> int): int
  {
    if m == map[] then 0
    else
      var k :| k in m;
      w(k, m[k]) + SumBy(m - {k}, w)
  }

  /** What the row at `k`, if there is one, adds to the sum. */
  function Weight<K, V>(m: map<K, V>, w: (K, V) -> int, k: K): int {
    if k in m then w(k, m[k]) else 0
  }

  /** The order in which rows are visited does not matter: any row can be taken out first. */
  lemma {:induction false} SumSplit<K, V>(m: map<K, V>, w: (K, V) -> int, k: K)
    requires k in m
    ensures SumBy(m, w) == w(k, m[k]) + SumBy(m - {k}, w)
    decreases |m|
  {
    var j :| j in m && SumBy(m, w) == w(j, m[j]) + SumBy(m - {j}, w);
    if j != k {
      SumSplit(m - {j}, w, k);
      SumSplit(m - {k}, w, j);
      assert m - {j} - {k} == m - {k} - {j};
    }
  }

  /** Inserting, changing or erasing the row at `k` moves the sum by that row's weight only. */
  lemma SumChange<K, V>(m: map<K, V>, m': map<K, V>, w: (K, V) -> int, k: K)
    requires m - {k} == m' - {k}
    ensures SumBy(m', w) - SumBy(m, w) == Weight(m', w, k) - Weight(m, w, k)
  {
    if k in m { SumSplit(m, w, k); } else { assert m - {k} == m; }
    if k in m' { SumSplit(m', w, k); } else { assert m' - {k} == m'; }
  }

  /** With non-negative weights no row exceeds the sum. */
  lemma {:induction false} SumBounds<K, V>(m: map<K, V>, w: (K, V) -> int, k: K)
    requires forall j :: j in m ==> w(j, m[j]) >= 0
    ensures 0 <= Weight(m, w, k) <= SumBy(m, w)
    decreases |m|
  {
    if m != map[] {
      var j :| j in m && SumBy(m, w) == w(j, m[j]) + SumBy(m - {j}, w);
      SumBounds(m - {j}, w, k);
    }
  }
}
