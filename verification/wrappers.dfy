/** Failure-carrying result types shared by the registry and the transport. */
module Wrappers {

  /** An optional value: `None` when absent. */
  datatype Option<+T> = None | Some(value: T)

  /** The outcome of a fallible operation that returns no value on success. */
  datatype Outcome<+E> = Pass | Fail(error: E)
}
