/** Failure-carrying results used throughout the model: `Option` for lookups
    that may come back empty and `Result` for Go's `(value, error)` pairs. */
module Wrappers {

  datatype Option<+T> = None | Some(value: T)

  /** A Go `(value, error)` pair: `Err` stands for a non-nil error, whose text
      the model keeps only as a short description. */
  datatype Result<+T> = Ok(value: T) | Err(reason: string)
}
