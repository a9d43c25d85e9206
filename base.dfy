/**
 * Failure-carrying wrappers shared by the whole model: `Option` for lookups
 * that may come back empty, `Result` for Go's `(value, error)` pairs.
 */
module Base {

  datatype Option<+T> = None | Some(value: T)

  datatype Result<+T, +E> = Ok(value: T) | Err(error: E)

  /** Nanoseconds per second: clock readings are nanoseconds since the epoch. */
  const NanosPerSecond: nat := 1_000_000_000

  /** Go's `time.Time.Unix()`: whole seconds since the epoch, rounded down. */
  function Unix(t: nat): (s: nat)
    ensures s * NanosPerSecond <= t < (s + 1) * NanosPerSecond
  {
    t / NanosPerSecond
  }
}
