/** Optional values and failing results shared by the three components. */
module Wrappers {

  /** A value that may be absent (`undefined` in the source). */
  datatype Option<T> = None | Some(value: T)

  /** A value or an error message (a thrown `Error` in the source). */
  datatype Result<T> = Success(value: T) | Failure(error: string)
}
