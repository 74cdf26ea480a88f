/** Maps of maps that never hold an empty inner map, and the flat maps they stand for. */
module NestedMaps {

  type Nested<K, L, +V> = map<K, map<L, V>>

  ghost predicate Pruned<K, L, V>(m: Nested<K, L, V>) {
    forall k :: k in m ==> m[k] != map[]
  }

  function Inner<K, L, V>(m: Nested<K, L, V>, k: K): (i: map<L, V>) {
    if k in m then m[k] else map[]
  }

  /** Setting one entry. */
  function With<K, L, V>(m: Nested<K, L, V>, k: K, l: L, v: V): (m': Nested<K, L, V>) {
    m[k := Inner(m, k)[l := v]]
  }

  /** Removing one entry, and the inner map with its last one. */
  function Without<K, L, V>(m: Nested<K, L, V>, k: K, l: L): (m': Nested<K, L, V>) {
    var inner := Inner(m, k) - {l};
    if |inner| == 0 then m - {k} else m[k := inner]
  }

  lemma InnerWith<K(!new), L, V>(m: Nested<K, L, V>, k: K, l: L, v: V)
    ensures forall j :: Inner(With(m, k, l, v), j) == if j == k then Inner(m, k)[l := v] else Inner(m, j)
    ensures Pruned(m) ==> Pruned(With(m, k, l, v))
  {
    assert l in With(m, k, l, v)[k];
  }

  lemma InnerWithout<K(!new), L, V>(m: Nested<K, L, V>, k: K, l: L)
    ensures forall j :: Inner(Without(m, k, l), j) == if j == k then Inner(m, k) - {l} else Inner(m, j)
    ensures Pruned(m) ==> Pruned(Without(m, k, l))
  {
    var inner := Inner(m, k) - {l};
    if |inner| == 0 {
      assert inner == map[];
    } else {
      assert inner != map[];
    }
  }

  lemma InnerDrop<K(!new), L, V>(m: Nested<K, L, V>, k: K)
    ensures forall j :: Inner(m - {k}, j) == if j == k then map[] else Inner(m, j)
    ensures Pruned(m) ==> Pruned(m - {k})
  {
  }

  /** `Without` in two steps: put the smaller inner map back, then drop it if it is empty. */
  lemma WithoutInSteps<K, L, V>(m: Nested<K, L, V>, k: K, l: L, inner: map<L, V>)
    requires inner == Inner(m, k) - {l}
    ensures Without(m, k, l) == if |inner| == 0 then m[k := inner] - {k} else m[k := inner]
  {
    assert m[k := inner] - {k} == m - {k};
  }

  lemma WithoutNothing<K, L, V>(m: Nested<K, L, V>, k: K, l: L)
    requires k !in m
    ensures Without(m, k, l) == m
  {
  }

  lemma UpdateTwice<K, V>(m: map<K, V>, k: K, a: V, b: V)
    ensures m[k := a][k := b] == m[k := b]
  {
  }

  function Flatten<K, L, V>(m: Nested<K, L, V>): (flat: map<(K, L), V>) {
    map k, l | k in m && l in m[k] :: (k, l) := m[k][l]
  }

  lemma FlattenAt<K(!new), L(!new), V>(m: Nested<K, L, V>)
    ensures forall e: (K, L) :: e in Flatten(m) <==> e.1 in Inner(m, e.0)
    ensures forall e :: e in Flatten(m) ==> Flatten(m)[e] == Inner(m, e.0)[e.1]
  {
  }

  lemma FlattenWith<K(!new), L(!new), V>(m: Nested<K, L, V>, k: K, l: L, v: V)
    ensures Flatten(With(m, k, l, v)) == Flatten(m)[(k, l) := v]
  {
    hide Flatten, With, Inner, Pruned;
    FlattenAt(m);
    FlattenAt(With(m, k, l, v));
    InnerWith(m, k, l, v);
  }

  lemma FlattenWithout<K(!new), L(!new), V>(m: Nested<K, L, V>, k: K, l: L)
    ensures Flatten(Without(m, k, l)) == Flatten(m) - {(k, l)}
  {
    hide Flatten, Without, Inner, Pruned;
    FlattenAt(m);
    FlattenAt(Without(m, k, l));
    InnerWithout(m, k, l);
  }

  lemma FlattenDrop<K(!new), L(!new), V>(m: Nested<K, L, V>, k: K)
    ensures Flatten(m - {k}) == map e | e in Flatten(m) && e.0 != k :: Flatten(m)[e]
  {
    hide Flatten;
    FlattenAt(m);
    FlattenAt(m - {k});
  }
}
