/** Absence and failure values: a nullable column or a lookup that may find
    nothing is an Option, a call that may throw is a Result. */
module Wrappers {

  /** `null` in the source is None. */
  datatype Option<+T> = None | Some(value: T)

  /** A value, or the error the source would throw. */
  datatype Result<+R, +E> = Success(value: R) | Failure(error: E)
}
