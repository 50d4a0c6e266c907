/** Failure-compatible result types shared by the whole model. */
module Wrappers {

  /** A value that may be missing: JavaScript's `null`/`undefined` or NaN. */
  datatype Option<+T> = None | Some(value: T)

  /** A computation that either yields a value or fails with a message (a thrown Error). */
  datatype Result<+T> = Success(value: T) | Failure(error: string)
}
