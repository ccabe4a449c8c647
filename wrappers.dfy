/** Optional values: a JavaScript `undefined` field, a missing table row. */
module Wrappers {

  datatype Option<+T> = None | Some(value: T)

  /** The entry of `m` at `k`, or None when `k` has no entry (a row lookup by unique key). */
  function Lookup<K, V>(m: map<K, V>, k: K): (r: Option<V>)
    ensures r.Some? <==> k in m
    ensures r.Some? ==> r.value == m[k]
  {
    if k in m then Some(m[k]) else None
  }
}
