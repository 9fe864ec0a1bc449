/** Small wrapper types shared by the whole model. */
module Wrappers {

  /** A value that may be absent: a missing request field, a lookup that
      found nothing, JavaScript's null. */
  datatype Option<+T> = None | Some(value: T)

  /** The outcome of an operation that either produces a value or fails
      with an error (a thrown Error in the source). */
  datatype Result<+T, +E> = Success(value: T) | Failure(error: E)
}
