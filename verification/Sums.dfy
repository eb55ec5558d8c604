/** Sums over the values of a map, for measures of how much a set of threads has left
    to do. */
module Sums {

  ghost function Sum(m: map<nat, nat>): nat
    decreases |m|
  {
    if m == map[] then 0 else
    var k :| k in m;
    Smaller(m, k);
    m[k] + Sum(m - {k})
  }

  lemma Smaller(m: map<nat, nat>, k: nat)
    requires k in m
    ensures |m - {k}| == |m| - 1
  {
    assert (m - {k}).Keys == m.Keys - {k};
    assert |m.Keys| == |m| && |(m - {k}).Keys| == |m - {k}|;
  }

  lemma {:induction false} SumAt(m: map<nat, nat>, k: nat)
    requires k in m
    ensures Sum(m) == m[k] + Sum(m - {k})
    decreases |m|
  {
    var j :| j in m && Sum(m) == m[j] + Sum(m - {j});
    if j != k {
      Smaller(m, j);
      Smaller(m, k);
      SumAt(m - {j}, k);
      SumAt(m - {k}, j);
      assert m - {j} - {k} == m - {k} - {j};
    }
  }

  lemma SumChange(m: map<nat, nat>, k: nat, v: nat)
    requires k in m
    ensures Sum(m[k := v]) + m[k] == Sum(m) + v
  {
    SumAt(m, k);
    SumAt(m[k := v], k);
    assert m[k := v] - {k} == m - {k};
  }

  lemma OneMore(n: nat, c: nat)
    ensures (n + 1) * c == n * c + c && n * c <= (n + 1) * c
  {}

  lemma NoSum()
    ensures Sum(map[]) == 0
  {}

  lemma {:induction false} SumGrows(a: map<nat, nat>, b: map<nat, nat>, c: nat)
    requires a.Keys == b.Keys && forall k :: k in a ==> b[k] <= a[k] + c
    ensures Sum(b) <= Sum(a) + |a| * c
    decreases |a|
  {
    hide Sum;
    if a == map[] {
      NoSum();
      assert b == map[];
    } else {
      var k :| k in a;
      SumAt(a, k);
      SumAt(b, k);
      Smaller(a, k);
      SumGrows(a - {k}, b - {k}, c);
      OneMore(|a - {k}|, c);
    }
  }

  /** One value falls, by more than all the others may grow by. */
  lemma SumFalls(a: map<nat, nat>, b: map<nat, nat>, k: nat, c: nat)
    requires a.Keys == b.Keys && k in a && b[k] + |a| * c < a[k]
    requires forall j :: j in a && j != k ==> b[j] <= a[j] + c
    ensures Sum(b) < Sum(a)
  {
    hide Sum;
    SumAt(a, k);
    SumAt(b, k);
    Smaller(a, k);
    SumGrows(a - {k}, b - {k}, c);
    OneMore(|a - {k}|, c);
  }
}
