/** An optional value, used wherever a C call can fail and leave nothing behind. */
module Options {

  datatype Option<T> = None | Some(value: T)

  /** The value a partial map gives for `k`, if any. */
  function Lookup<K, V>(m: map<K, V>, k: K): Option<V>
  {
    if k in m then Some(m[k]) else None
  }
}
