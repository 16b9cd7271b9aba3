/** Result types and a notion shared by the modules of the model. */
module Wrappers {
  /** A value that may be absent: Python's None, a missing key, an operation that raised. */
  datatype Option<+T> = None | Some(value: T)

  /** An operation that either returns a value or raises. */
  datatype Result<+R, +E> = Ok(value: R) | Err(error: E)

  /** No element occurs twice. */
  ghost predicate Distinct<T>(s: seq<T>) {
    forall i, j | 0 <= i < j < |s| :: s[i] != s[j]
  }
}
