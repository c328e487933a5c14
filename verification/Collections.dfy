/** Facts about sets and sequences of any type. */
module Collections {

  predicate Distinct<T(==)>(s: seq<T>) {
    forall i, j :: 0 <= i < j < |s| ==> s[i] != s[j]
  }

  ghost predicate DistinctBy<T(!new), K>(key: T -> K, s: seq<T>) {
    forall i, j :: 0 <= i < j < |s| ==> key(s[i]) != key(s[j])
  }

  /** The values of a map under some of its keys, each once, in some order; a value tells its key. */
  ghost predicate Lists<K, V(!new)>(key: V -> K, m: map<K, V>, keys: set<K>, all: seq<V>) {
    && (forall x :: x in all ==> key(x) in keys && key(x) in m && m[key(x)] == x)
    && (forall k :: k in keys ==> k in m && key(m[k]) == k && m[k] in all)
    && DistinctBy(key, all)
  }

  /** Walking a map in any order, one more of its entries at a time. */
  lemma ListsMore<K, V(!new)>(key: V -> K, m: map<K, V>, keys: set<K>, all: seq<V>, k: K)
    requires Lists(key, m, keys, all) && k in m && k !in keys && key(m[k]) == k
    ensures Lists(key, m, keys + {k}, all + [m[k]])
  {
    forall i | 0 <= i < |all| ensures key(all[i]) != k { assert all[i] in all; }
  }

  lemma ListedAt<K, V(!new)>(key: V -> K, m: map<K, V>, keys: set<K>, all: seq<V>, i: nat)
    requires Lists(key, m, keys, all) && i < |all|
    ensures key(all[i]) in keys && key(all[i]) in m && m[key(all[i])] == all[i]
  {
    assert all[i] in all;
  }

  lemma IndexOfKey<K, V(!new)>(key: V -> K, m: map<K, V>, keys: set<K>, all: seq<V>, k: K) returns (i: nat)
    requires Lists(key, m, keys, all) && k in keys
    ensures i < |all| && key(all[i]) == k && k in m && all[i] == m[k]
  {
    i :| 0 <= i < |all| && all[i] == m[k];
  }

  lemma Smaller<T>(a: set<T>, b: set<T>)
    requires a <= b
    ensures |a| <= |b|
  {
    assert b == a + (b - a);
  }
}
