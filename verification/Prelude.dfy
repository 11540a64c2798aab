/** Small vocabulary shared by every component model. */
module Prelude {

  /** A value that may be absent: `null` or `undefined` in the modelled code. */
  datatype Option<+T> = None | Some(value: T)

  /** What a map holds at a key, with absence as an ordinary value. */
  function Lookup<K, V>(m: map<K, V>, k: K): Option<V> {
    if k in m then Some(m[k]) else None
  }
}
