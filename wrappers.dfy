/** Small failure-carrying datatypes shared by the whole model. */
module Wrappers {

  datatype Option<+T> = None | Some(value: T)

  /** A computation that either produces a value or fails with an error. */
  datatype Result<+R, +E> = Success(value: R) | Failure(error: E)

  /** A check that either passes or fails with an error (a validator). */
  datatype Outcome<+E> = Pass | Fail(error: E)

  /** Python truthiness of an optional integer id: None and 0 are both false. */
  predicate Truthy(id: Option<int>)
  {
    id.Some? && id.value != 0
  }
}
