// Shared value types and the few set facts every table needs.
module Common {
  /** A nullable column or pointer. */
  datatype Option<+T> = None | Some(value: T)

  /** A (value, error) return. */
  datatype Result<+T, +E> = Ok(value: T) | Err(error: E)

  /** Nanoseconds since the zero time. */
  type Time = int

  const SECOND: Time := 1_000_000_000
  const HOUR: Time := 3600 * SECOND

  /** Postgres keeps microseconds. */
  function StoreTime(t: Time): Time { t - t % 1000 }

  function Min(a: int, b: int): int { if a < b then a else b }

  function Max(a: int, b: int): int { if a < b then b else a }

  lemma SubsetSize<T>(small: set<T>, large: set<T>)
    requires small <= large
    ensures |small| <= |large|
    ensures |large - small| == |large| - |small|
  {
    assert large == small + (large - small);
  }
}
