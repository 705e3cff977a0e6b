/** Optional values and results shared by the camera modules (plain datatypes, not used with `:-`). */
module Wrappers {

  /** A value that may be absent: a probe that found nothing, an overlay not yet built. */
  datatype Option<+T> = None | Some(value: T)

  /** The value of an operation or the exception it raises. */
  datatype Result<+R, +E> = Success(value: R) | Failure(error: E)
}
