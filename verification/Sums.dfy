/** Sums over finite maps and sequences. */
module Sums {

  /** Sum of a weight over the values of a map, in any order. */
  ghost function MapSum<K(!new), V(!new)>(m: map<K, V>, w: V -> nat): nat {
    if m == map[] then 0
    else
      var k :| k in m;
      w(m[k]) + MapSum(m - {k}, w)
  }

  lemma MapSumEmpty<K(!new), V(!new)>(w: V -> nat)
    ensures MapSum<K, V>(map[], w) == 0
  {
  }

  /** The order of summation does not matter: any key may be taken out first. */
  lemma {:induction false} MapSumRemove<K(!new), V(!new)>(m: map<K, V>, w: V -> nat, k: K)
    requires k in m
    ensures MapSum(m, w) == w(m[k]) + MapSum(m - {k}, w)
    decreases |m|
  {
    var p :| p in m && MapSum(m, w) == w(m[p]) + MapSum(m - {p}, w);
    if p != k {
      MapSumRemove(m - {p}, w, k);
      MapSumRemove(m - {k}, w, p);
      assert m - {p} - {k} == m - {k} - {p};
    }
  }

  lemma MapSumInsert<K(!new), V(!new)>(m: map<K, V>, w: V -> nat, k: K, v: V)
    requires k !in m
    ensures MapSum(m[k := v], w) == w(v) + MapSum(m, w)
  {
    MapSumRemove(m[k := v], w, k);
    assert m[k := v] - {k} == m;
  }

  lemma UnionRemove<K, V>(a: map<K, V>, b: map<K, V>, k: K)
    requires a.Keys !! b.Keys && k in b
    ensures (a + b) - {k} == a + (b - {k})
    ensures a.Keys !! (b - {k}).Keys && |b - {k}| < |b|
  {
    var c := b - {k};
    assert c.Keys == b.Keys - {k};
  }

  lemma {:induction false} MapSumUnion<K(!new), V(!new)>(a: map<K, V>, b: map<K, V>, w: V -> nat)
    requires a.Keys !! b.Keys
    ensures MapSum(a + b, w) == MapSum(a, w) + MapSum(b, w)
    decreases |b|
  {
    hide MapSum;
    if b == map[] {
      assert a + b == a;
      MapSumEmpty<K, V>(w);
    } else {
      var k :| k in b;
      UnionRemove(a, b, k);
      MapSumUnion(a, b - {k}, w);
      MapSumRemove(b, w, k);
      MapSumRemove(a + b, w, k);
    }
  }
}
