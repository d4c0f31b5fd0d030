/** Optional values, maps and enumerations, shared by every component. */
module Wrappers {
  datatype Option<+T> = None | Some(value: T)

  function Get<K, V>(m: map<K, V>, k: K): (v: Option<V>) {
    if k in m then Some(m[k]) else None
  }

  /** The map whose entry at each key of `keys` is `f(k)`, where that is a value. */
  ghost function Collect<K(!new), V(!new)>(keys: set<K>, f: K -> Option<V>): (m: map<K, V>)
    ensures forall k :: Get(m, k) == if k in keys then f(k) else None
  {
    map k | k in keys && f(k).Some? :: f(k).value
  }

  lemma SameEntries<K(!new), V(!new)>(m1: map<K, V>, m2: map<K, V>)
    requires forall k :: Get(m1, k) == Get(m2, k)
    ensures m1 == m2
  {
    forall k ensures k in m1 <==> k in m2 {
      assert Get(m1, k) == Get(m2, k);
    }
    forall k | k in m1 ensures m1[k] == m2[k] {
      assert Get(m1, k) == Get(m2, k);
    }
  }

  /** Exactly these, each once. */
  ghost predicate Once<K(!new)>(wanted: iset<K>, keys: seq<K>) {
    (forall k :: k in keys <==> k in wanted) && forall i: nat, j: nat | i < j < |keys| :: keys[i] != keys[j]
  }

  lemma OnceAppend<K(!new)>(w1: iset<K>, k1: seq<K>, w2: iset<K>, k2: seq<K>)
    requires Once(w1, k1) && Once(w2, k2) && w1 !! w2
    ensures Once(w1 + w2, k1 + k2)
  {
    var all := k1 + k2;
    forall i: nat, j: nat | i < j < |all| ensures all[i] != all[j] {
      assert i < |k1| ==> all[i] == k1[i] && k1[i] in w1;
      assert i >= |k1| ==> all[i] == k2[i - |k1|];
      assert j < |k1| ==> all[j] == k1[j];
      assert j >= |k1| ==> all[j] == k2[j - |k1|] && k2[j - |k1|] in w2;
    }
  }
}
