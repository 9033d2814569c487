/**
 * The optional value used for nullable pointers and indeterminate fields, and
 * the outcome of an operation that can throw.
 */
module Wrappers {
  datatype Option<+T> = None | Some(value: T)

  /** A value, or the message of the std::runtime_error the source throws instead. */
  datatype Result<+T> = Success(value: T) | Failure(error: string)

  /** How a void operation ended: normally, or by throwing a std::runtime_error with this message. */
  datatype Outcome = Done | Thrown(error: string)
}
