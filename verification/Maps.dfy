/** Maps given by a function on a set of keys. */
module Maps {
  ghost function Tabulate<K(!new), V>(keys: set<K>, f: K -> V): (m: map<K, V>)
    ensures m.Keys == keys && forall k :: k in keys ==> m[k] == f(k)
  {
    if keys == {} then map[]
    else
      var k :| k in keys;
      Tabulate(keys - {k}, f)[k := f(k)]
  }

  /** The entries of m with these keys. */
  ghost function Restrict<K, V>(m: map<K, V>, keys: set<K>): (r: map<K, V>)
    ensures r.Keys == m.Keys * keys && forall k :: k in r ==> r[k] == m[k]
  {
    m - (m.Keys - keys)
  }
}
