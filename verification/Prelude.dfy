/** Types shared by every bounded context of the service. */
module Prelude {

  datatype Option<+T> = None | Some(value: T) {
    predicate IsFailure() { None? }
    function PropagateFailure<U>(): Option<U>
      requires None?
    {
      None
    }
    function Extract(): T
      requires Some?
    {
      value
    }
  }

  datatype Result<+T, +E> = Ok(value: T) | Err(error: E)

  /** A 128-bit identifier, ordered the way PostgreSQL orders `uuid`: as an unsigned number. */
  type Uuid = nat

  /** A point in time; only the order of two points matters. */
  type Instant = int

  function Lookup<K, V>(m: map<K, V>, k: K): Option<V> {
    if k in m then Some(m[k]) else None
  }
}
