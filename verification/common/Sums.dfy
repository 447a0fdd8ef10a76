/** Sums over sequences and over the values of a map. */
module Sums {
  function Sum(s: seq<nat>): nat {
    if s == [] then 0 else Sum(s[..|s| - 1]) + s[|s| - 1]
  }

  lemma {:induction false} SumAppend(s: seq<nat>, x: nat)
    ensures Sum(s + [x]) == Sum(s) + x
  {
    assert (s + [x])[..|s|] == s;
  }

  lemma {:induction false} SumUpdate(s: seq<nat>, k: nat, x: nat)
    requires k < |s|
    ensures Sum(s[k := x]) == Sum(s) - s[k] + x
  {
    var t := s[k := x];
    if k == |s| - 1 {
      assert t[..|s| - 1] == s[..|s| - 1];
    } else {
      SumUpdate(s[..|s| - 1], k, x);
      assert t[..|s| - 1] == s[..|s| - 1][k := x];
    }
  }

  lemma {:induction false} SumTerm(s: seq<nat>, k: nat)
    requires k < |s|
    ensures s[k] <= Sum(s)
  {
    if k < |s| - 1 {
      SumTerm(s[..|s| - 1], k);
    }
  }

  /** The entry of a map that reads 0 where it has no key, as a Solidity mapping does. */
  function At<K>(m: map<K, nat>, k: K): nat {
    if k in m then m[k] else 0
  }

  ghost function MapSum<K>(m: map<K, nat>): nat
    decreases |m|
  {
    if m == map[] then 0
    else
      var k :| k in m;
      m[k] + MapSum(m - {k})
  }

  lemma {:induction false} MapSumRemove<K>(m: map<K, nat>, k: K)
    requires k in m
    ensures MapSum(m) == m[k] + MapSum(m - {k})
    decreases |m|
  {
    var j :| j in m && MapSum(m) == m[j] + MapSum(m - {j});
    if j != k {
      MapSumRemove(m - {j}, k);
      MapSumRemove(m - {k}, j);
      assert m - {j} - {k} == m - {k} - {j};
    }
  }

  lemma {:induction false} MapSumUpdate<K>(m: map<K, nat>, k: K, x: nat)
    ensures MapSum(m[k := x]) == MapSum(m) - At(m, k) + x
  {
    MapSumRemove(m[k := x], k);
    assert m[k := x] - {k} == m - {k};
    if k in m {
      MapSumRemove(m, k);
    } else {
      assert m - {k} == m;
    }
  }

  lemma {:induction false} MapSumTerm<K>(m: map<K, nat>, k: K)
    ensures At(m, k) <= MapSum(m)
  {
    if k in m {
      MapSumRemove(m, k);
    }
  }
}
