/**
 Small JavaScript-value helpers shared by the server and client models:
 the `undefined`-or-value shape of `Map.prototype.get`, and the truthiness
 test that `if (x)` applies to a string.
 */
module Js {

  /** A value that may be `undefined` (or `null`). */
  datatype Option<+T> = None | Some(value: T)

  /** `m.get(k)` on a JavaScript `Map`: the stored value, or `undefined`. */
  function Lookup<K, V>(m: map<K, V>, k: K): (r: Option<V>)
    ensures r.Some? <==> k in m
    ensures r.Some? ==> r.value == m[k]
  {
    if k in m then Some(m[k]) else None
  }

  /** `if (s)` on a string: only the empty string is falsy. */
  predicate Truthy(s: string) {
    s != ""
  }

  /** `if (x)` on a string that may be `undefined`. */
  predicate TruthyOpt(x: Option<string>) {
    x.Some? && Truthy(x.value)
  }
}
