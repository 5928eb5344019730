/** The usual failure and absence carriers. */
module Wrappers {

  datatype Option<+T> = None | Some(value: T) {
    function GetOr(default: T): T {
      match this
      case Some(v) => v
      case None => default
    }
  }

  datatype Result<+T, +E> = Success(value: T) | Failure(error: E)

  /** What reading one object gives. */
  datatype Lookup<+T> = Missing | Got(value: T) | Unreadable {
    function Seen(): Option<T> {
      match this
      case Got(v) => Some(v)
      case _ => None
    }
  }

  /** Lookup in a map whose absent keys read as `None`. */
  function Find<K, V>(m: map<K, V>, k: K): Option<V> {
    if k in m then Some(m[k]) else None
  }
}
