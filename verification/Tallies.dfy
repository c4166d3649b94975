/** Sums over the values of a finite map, in whatever order. */
module Tallies {

  ghost function Total<K>(m: map<K, nat>): nat
    decreases m.Keys
  {
    if m.Keys == {} then 0 else var k :| k in m.Keys; m[k] + Total(m - {k})
  }

  lemma {:induction false} TotalRemove<K>(m: map<K, nat>, k: K)
    requires k in m
    ensures Total(m) == m[k] + Total(m - {k})
    decreases m.Keys
  {
    var l :| l in m.Keys && Total(m) == m[l] + Total(m - {l});
    if l != k {
      TotalRemove(m - {l}, k);
      TotalRemove(m - {k}, l);
      assert (m - {l}) - {k} == (m - {k}) - {l};
    }
  }

  lemma TotalPut<K>(m: map<K, nat>, k: K, v: nat)
    ensures Total(m[k := v]) == Total(m) - (if k in m then m[k] else 0) + v
  {
    TotalRemove(m[k := v], k);
    assert m[k := v] - {k} == m - {k};
    if k in m { TotalRemove(m, k); } else { assert m - {k} == m; }
  }

  lemma {:induction false} TotalPositive<K>(m: map<K, nat>)
    ensures Total(m) > 0 <==> exists k :: k in m && m[k] > 0
    decreases m.Keys
  {
    if m.Keys != {} {
      var l :| l in m.Keys && Total(m) == m[l] + Total(m - {l});
      TotalPositive(m - {l});
      if k :| k in m && m[k] > 0 && k != l { assert k in m - {l}; }
    }
  }
}
