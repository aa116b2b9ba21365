/** Optional values: the `None` that `dict.get` and `request.form.get`
    return for a missing key, or the value found. */
module Wrappers {

  datatype Option<+T> = None | Some(value: T)

  /** `m.get(k)`: the value under `k`, or None when `k` is not a key. */
  function Get<K, V>(m: map<K, V>, k: K): (r: Option<V>)
    ensures r.Some? <==> k in m
    ensures r.Some? ==> r.value == m[k]
  {
    if k in m then Some(m[k]) else None
  }

  /** The second argument of `m.get(k, default)`: the value found, or
      `default` when the lookup found nothing. */
  function ValueOr<T>(o: Option<T>, default: T): (r: T)
    ensures o.Some? ==> r == o.value
    ensures o.None? ==> r == default
  {
    match o
    case Some(v) => v
    case None => default
  }
}
