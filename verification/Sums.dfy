/** The sum of the values of a finite map. */
module Sums {

  ghost function Pick(m: map<nat, nat>): (k: nat)
    requires |m| > 0
    ensures k in m
  {
    var k :| k in m.Keys;
    k
  }

  lemma SmallerWithout(m: map<nat, nat>, k: nat)
    requires k in m
    ensures |m - {k}| == |m| - 1
  {
    assert (m - {k}).Keys == m.Keys - {k};
  }

  ghost function Sum(m: map<nat, nat>): nat
    decreases |m|
  {
    if |m| == 0 then 0
    else
      var k := Pick(m);
      SmallerWithout(m, k);
      m[k] + Sum(m - {k})
  }

  lemma {:induction false} SumSplits(m: map<nat, nat>, k: nat)
    requires k in m
    ensures Sum(m) == m[k] + Sum(m - {k})
    decreases |m|
  {
    var x := Pick(m);
    SmallerWithout(m, x);
    SmallerWithout(m, k);
    if x != k {
      SumSplits(m - {x}, k);
      SumSplits(m - {k}, x);
      assert (m - {x}) - {k} == (m - {k}) - {x};
    }
  }

  lemma SumOfUpdate(m: map<nat, nat>, k: nat, v: nat)
    ensures Sum(m[k := v]) == (if k in m then Sum(m) - m[k] else Sum(m)) + v
  {
    SumSplits(m[k := v], k);
    if k in m {
      SumSplits(m, k);
      assert m[k := v] - {k} == m - {k};
    } else {
      assert m[k := v] - {k} == m;
    }
  }

  lemma {:induction false} SumGrows(m: map<nat, nat>, n: map<nat, nat>)
    requires m.Keys == n.Keys && forall k | k in m :: m[k] <= n[k]
    ensures Sum(m) <= Sum(n)
    decreases |m|
  {
    if |m| == 0 {
      assert n.Keys == {};
    } else {
      var k := Pick(m);
      SmallerWithout(m, k);
      SumGrows(m - {k}, n - {k});
      SumSplits(n, k);
    }
  }
}
