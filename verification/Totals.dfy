/** Sums over maps, which is what every capacity and gauge is. */
module Totals {
  ghost function Total(w: map<nat, nat>): nat
    decreases |w|
  {
    if w == map[] then 0
    else
      var k :| k in w;
      w[k] + Total(w - {k})
  }

  /** The order of summation does not matter. */
  lemma {:induction false} TotalWithout(w: map<nat, nat>, k: nat)
    requires k in w
    ensures Total(w) == w[k] + Total(w - {k})
    decreases |w|
  {
    assert exists j :: j in w && Total(w) == w[j] + Total(w - {j});
    var j :| j in w && Total(w) == w[j] + Total(w - {j});
    if j != k {
      TotalWithout(w - {j}, k);
      TotalWithout(w - {k}, j);
      assert w - {j} - {k} == w - {k} - {j};
    }
  }

  lemma TotalUpdate(w: map<nat, nat>, k: nat, v: nat)
    requires k in w
    ensures Total(w[k := v]) + w[k] == Total(w) + v
  {
    TotalWithout(w, k);
    TotalWithout(w[k := v], k);
    assert w[k := v] - {k} == w - {k};
  }

  lemma TotalAdd(w: map<nat, nat>, k: nat, v: nat)
    requires k !in w
    ensures Total(w[k := v]) == Total(w) + v
  {
    TotalWithout(w[k := v], k);
    assert w[k := v] - {k} == w;
  }

  lemma {:induction false} TotalLess(v: map<nat, nat>, w: map<nat, nat>)
    requires v.Keys == w.Keys && forall k :: k in v ==> v[k] <= w[k]
    ensures Total(v) <= Total(w)
    decreases |v|
  {
    if v != map[] {
      var k :| k in v;
      TotalWithout(v, k);
      TotalWithout(w, k);
      TotalLess(v - {k}, w - {k});
    } else {
      assert w == map[];
    }
  }

  lemma {:induction false} TotalOfSums(v: map<nat, nat>, w: map<nat, nat>, sums: map<nat, nat>)
    requires v.Keys == w.Keys == sums.Keys && forall k :: k in v ==> sums[k] == v[k] + w[k]
    ensures Total(sums) == Total(v) + Total(w)
    decreases |v|
  {
    if v == map[] {
      assert w == map[] && sums == map[];
    } else {
      var k :| k in v;
      TotalWithout(v, k);
      TotalWithout(w, k);
      TotalWithout(sums, k);
      TotalOfSums(v - {k}, w - {k}, sums - {k});
    }
  }

  /** Where nothing is counted, nothing is lost. */
  lemma {:induction false} TotalOfPart(part: map<nat, nat>, w: map<nat, nat>)
    requires part.Keys <= w.Keys && forall k :: k in w ==> w[k] == if k in part then part[k] else 0
    ensures Total(part) == Total(w)
    decreases |w|
  {
    if w == map[] {
      assert part == map[];
    } else {
      var k :| k in w;
      TotalWithout(w, k);
      if k in part {
        TotalWithout(part, k);
        TotalOfPart(part - {k}, w - {k});
      } else {
        TotalOfPart(part, w - {k});
      }
    }
  }

  method Sum(w: map<nat, nat>) returns (sum: nat)
    ensures sum == Total(w)
  {
    sum := 0;
    var rest := w;
    while rest != map[]
      invariant sum + Total(rest) == Total(w)
      decreases |rest|
    {
      var k :| k in rest;
      TotalWithout(rest, k);
      sum := sum + rest[k];
      rest := rest - {k};
    }
  }
}
