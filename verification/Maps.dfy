/** The multiset of values held by a map: what is conserved when files only move. */
module Maps {

  ghost function AnyOf<K>(s: set<K>): (k: K)
    requires s != {}
    ensures k in s
  {
    var k :| k in s; k
  }

  ghost function ValuesOver<K, V>(m: map<K, V>, keys: set<K>): multiset<V>
    requires keys <= m.Keys
    decreases |keys|
  {
    if keys == {} then multiset{}
    else var k := AnyOf(keys); multiset{m[k]} + ValuesOver(m, keys - {k})
  }

  ghost function Values<K, V>(m: map<K, V>): multiset<V> {
    ValuesOver(m, m.Keys)
  }

  lemma {:induction false} ValuesOverRemove<K, V>(m: map<K, V>, keys: set<K>, k: K)
    requires k in keys && keys <= m.Keys
    ensures ValuesOver(m, keys) == multiset{m[k]} + ValuesOver(m, keys - {k})
    decreases |keys|
  {
    var p := AnyOf(keys);
    if p != k {
      ValuesOverRemove(m, keys - {p}, k);
      ValuesOverRemove(m, keys - {k}, p);
      assert keys - {p} - {k} == keys - {k} - {p};
    }
  }

  lemma {:induction false} ValuesOverAgree<K, V>(m: map<K, V>, n: map<K, V>, keys: set<K>)
    requires keys <= m.Keys && keys <= n.Keys
    requires forall k :: k in keys ==> m[k] == n[k]
    ensures ValuesOver(m, keys) == ValuesOver(n, keys)
    decreases |keys|
  {
    if keys != {} {
      ValuesOverAgree(m, n, keys - {AnyOf(keys)});
    }
  }

  lemma ValuesRemove<K, V>(m: map<K, V>, k: K)
    requires k in m
    ensures Values(m) == multiset{m[k]} + Values(m - {k})
  {
    ValuesOverRemove(m, m.Keys, k);
    assert (m - {k}).Keys == m.Keys - {k};
    ValuesOverAgree(m, m - {k}, m.Keys - {k});
  }

  lemma ValuesInsert<K, V>(m: map<K, V>, k: K, v: V)
    requires k !in m
    ensures Values(m[k := v]) == multiset{v} + Values(m)
  {
    ValuesRemove(m[k := v], k);
    assert m[k := v] - {k} == m;
  }
}
