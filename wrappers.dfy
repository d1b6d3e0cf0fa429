/** The Option and Result datatypes shared by the other modules. */
module Wrappers {

  /** An optional value: `None` stands for "nothing" (for a fetch: the request raised). */
  datatype Option<+T> = None | Some(value: T)

  /** The outcome of an operation that can be rejected with an error. */
  datatype Result<+R, +E> = Success(value: R) | Failure(error: E)
}
