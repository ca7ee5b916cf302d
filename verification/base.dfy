/** Shared vocabulary of the cache package: optional values, results, errors,
    the stored datum, and the durations all backends measure time in. */
module Base {

  /** One second as a duration. Durations count nanoseconds, as Go's
      `time.Duration` does, and so does every timestamp in this model. */
  const Second: int := 1_000_000_000

  datatype Option<+T> = None | Some(value: T)

  /** An `error` value. The model identifies an error with its message. */
  datatype Error = Error(msg: string)

  /** A value or an error, for Go's `(T, error)` returns. */
  datatype Result<+T> = Ok(value: T) | Err(error: Error)

  /** The `interface{}` a caller stores. `Nil` is Go's nil, which every
      backend's `Get` also returns to say "not found". */
  datatype Datum = Nil | Value(payload: string)

  ghost predicate NoDuplicates<T>(s: seq<T>) {
    forall i, j :: 0 <= i < j < |s| ==> s[i] != s[j]
  }

  /** `order` lists every element of `keys` exactly once: one of the orders
      in which a `range` over a map (or a server's key listing) visits them. */
  ghost predicate Enumerates<T>(order: seq<T>, keys: set<T>) {
    && NoDuplicates(order)
    && (forall k :: k in order ==> k in keys)
    && (forall k :: k in keys ==> k in order)
  }
}
