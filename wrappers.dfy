/** The failure-carrying result type used for the nodes' error paths. */
module Wrappers {

  /** Either a value, or the error the node raises instead of returning one. */
  datatype Result<+T, +E> = Ok(value: T) | Err(error: E)

  /** A value that may be absent. */
  datatype Option<+T> = None | Some(value: T)
}
