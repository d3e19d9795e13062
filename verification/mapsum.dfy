/** The total of the amounts held in a reservation table, and how that total
    moves when one reservation is added or removed. */
module MapSum {

  /** The sum of all values of `m`, taken key by key in an unspecified order;
      `SumRemove` shows that the order does not matter. */
  ghost function Sum(m: map<string, nat>): nat
    decreases |m|
  {
    if m == map[] then 0
    else
      var k :| k in m;
      m[k] + Sum(m - {k})
  }

  /** Any one entry can be split off the total. */
  lemma {:induction false} SumRemove(m: map<string, nat>, k: string)
    requires k in m
    ensures Sum(m) == m[k] + Sum(m - {k})
    decreases |m|
  {
    var j :| j in m && Sum(m) == m[j] + Sum(m - {j});
    if j != k {
      var rest := m - {j} - {k};
      assert m - {k} - {j} == rest;
      SumRemove(m - {j}, k);
      SumRemove(m - {k}, j);
    }
  }

  /** Adding a fresh key adds its value to the total. */
  lemma SumInsert(m: map<string, nat>, k: string, v: nat)
    requires k !in m
    ensures Sum(m[k := v]) == Sum(m) + v
  {
    SumRemove(m[k := v], k);
    assert m[k := v] - {k} == m;
  }

  /** No single entry exceeds the total. */
  lemma SumBound(m: map<string, nat>, k: string)
    requires k in m
    ensures m[k] <= Sum(m)
  {
    SumRemove(m, k);
  }
}
