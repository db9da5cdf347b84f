/** Failure-carrying datatypes shared by the watchman and notify models. */
module Wrappers {

  /** A value that may be absent: a missing object key, a path that is not UTF-8. */
  datatype Option<+T> = None | Some(value: T)

  /** The outcome of an operation that returns nothing but may throw an error message. */
  datatype Outcome<+E> = Pass | Fail(error: E)
}
