/** Sums over the values of a finite map. */
module Sums {
  ghost function Sum(m: map<nat, nat>): nat {
    if m == map[] then 0
    else
      var k :| k in m;
      m[k] + Sum(m - {k})
  }

  lemma {:induction false} SumTake(m: map<nat, nat>, k: nat)
    requires k in m
    ensures Sum(m) == m[k] + Sum(m - {k})
    decreases |m|
  {
    var j :| j in m && Sum(m) == m[j] + Sum(m - {j});
    if j != k {
      SumTake(m - {j}, k);
      SumTake(m - {k}, j);
      assert m - {j} - {k} == m - {k} - {j};
    }
  }

  lemma SumSmaller(m: map<nat, nat>, n: map<nat, nat>, k: nat)
    requires k in m && m - {k} == n - {k} && (k in n ==> n[k] < m[k]) && (k !in n ==> m[k] > 0)
    ensures Sum(n) < Sum(m)
  {
    SumTake(m, k);
    if k in n { SumTake(n, k); } else { assert n == n - {k}; }
  }

  /** Adding or replacing one value. */
  lemma SumUpdate(m: map<nat, nat>, k: nat, v: nat)
    ensures Sum(m[k := v]) == Sum(m) - (if k in m then m[k] else 0) + v
  {
    var n := m[k := v];
    SumTake(n, k);
    if k in m {
      SumTake(m, k);
      assert n - {k} == m - {k};
    } else {
      assert n - {k} == m;
    }
  }
}
