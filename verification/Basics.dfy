/** Values and small functions every model uses. */
module Basics {
  type Time = nat

  datatype Option<+T> = None | Some(value: T)

  datatype Result<+T, +E> = Ok(value: T) | Err(error: E)

  function ErrorOf<T, E>(result: Result<T, E>): Option<E> {
    if result.Ok? then None else Some(result.error)
  }

  function Min(a: int, b: int): int {
    if a < b then a else b
  }

  function Without<K, V>(m: map<K, V>, key: K): map<K, V> {
    map k | k in m && k != key :: m[k]
  }
}
