/** Sums over finite maps. */
module MapSum {

  ghost function Sum<K>(m: map<K, nat>): nat
    decreases |m|
  {
    if m == map[] then 0
    else
      var k :| k in m;
      m[k] + Sum(m - {k})
  }

  /** The sum does not depend on which key is taken first. */
  lemma {:induction false} TakeOut<K>(m: map<K, nat>, k: K)
    requires k in m
    ensures Sum(m) == m[k] + Sum(m - {k})
    decreases |m|
  {
    var first :| first in m && Sum(m) == m[first] + Sum(m - {first});
    if first != k {
      TakeOut(m - {first}, k);
      TakeOut(m - {k}, first);
      assert m - {first} - {k} == m - {k} - {first};
    }
  }

  lemma RemoveOne<K>(m: map<K, nat>, k: K)
    requires k in m
    ensures |m - {k}| == |m| - 1
  {
    assert (m - {k}).Keys == m.Keys - {k};
  }

  lemma RemoveFromUnion<K>(a: map<K, nat>, b: map<K, nat>, k: K)
    requires a.Keys !! b.Keys && k in a
    ensures (a + b) - {k} == (a - {k}) + b
    ensures (a - {k}).Keys !! b.Keys && |a - {k}| < |a|
    ensures k in a + b && (a + b)[k] == a[k]
  {
    assert (a - {k}).Keys == a.Keys - {k};
    assert |a.Keys - {k}| < |a.Keys|;
  }

  /** Sums over disjoint maps add up. */
  lemma {:induction false} Disjoint<K>(a: map<K, nat>, b: map<K, nat>)
    requires a.Keys !! b.Keys
    ensures Sum(a + b) == Sum(a) + Sum(b)
    decreases |a|
  {
    if a == map[] {
      assert a + b == b;
    } else {
      var k :| k in a;
      RemoveFromUnion(a, b, k);
      Disjoint(a - {k}, b);
      var total, part := Sum(a + b), Sum(a);
      assert total == a[k] + Sum((a - {k}) + b) by { TakeOut(a + b, k); }
      assert part == a[k] + Sum(a - {k}) by { TakeOut(a, k); }
    }
  }

  lemma DisjointSize<K>(a: map<K, nat>, b: map<K, nat>)
    requires a.Keys !! b.Keys
    ensures |a + b| == |a| + |b|
  {
    assert (a + b).Keys == a.Keys + b.Keys;
    assert |(a + b).Keys| == |a.Keys| + |b.Keys|;
  }
}
