/** Optional values and results, shared by every module of the model. */
module Wrappers {

  /** In how many readings in a row something must be missing before it counts as gone. */
  const EMPTY_CONFIRMATIONS: nat := 3

  /** Python's "value or None". */
  datatype Option<+T> = None | Some(value: T)

  /** A returned value or a raised exception. */
  datatype Result<+T, +E> = Ok(value: T) | Err(error: E)

  /** `dict.get(key)`. */
  function Lookup<K, V>(m: map<K, V>, key: K): Option<V> {
    if key in m then Some(m[key]) else None
  }

  /** `set(items)`. */
  function SetOf<T(==)>(items: seq<T>): set<T> {
    set item | item in items
  }
}
