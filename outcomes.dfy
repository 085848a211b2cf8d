/** Option and Result values shared by the model of the Java client and the Python service. */
module Outcomes {

  /** A value that may be absent; Java's `null` and a missing map key both become `None`. */
  datatype Option<+T> = None | Some(value: T)

  /** The outcome of an operation that can throw: its value, or the error it raises. */
  datatype Result<+T, +E> = Ok(value: T) | Err(error: E)

  /** `Map.get` on a map whose missing keys read as `null`. */
  function Get<K, V>(m: map<K, V>, k: K): (r: Option<V>)
    ensures r.Some? <==> k in m
    ensures r.Some? ==> r.value == m[k]
  {
    if k in m then Some(m[k]) else None
  }
}
