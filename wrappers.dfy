/** Optional values and error outcomes, standing in for Java's Optional/OptionalLong and for
    the exceptions the ledger raises. */
module Wrappers {

  datatype Option<+T> = None | Some(value: T)

  datatype Result<+T, +E> = Ok(value: T) | Err(error: E)

  /** The outcome of an operation that returns nothing (a `void` method) but may fail. */
  datatype Outcome<+E> = Pass | Fail(error: E)
}
