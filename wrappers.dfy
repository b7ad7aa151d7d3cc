/** Option and Result values shared by every module of the model. */
module Wrappers {

  datatype Option<+T> = None | Some(value: T)

  /** The outcome of an operation that raises an error instead of returning. */
  datatype Result<+R, +E> = Success(value: R) | Failure(error: E)

  /** Python's `value or ''` on an optional text field. */
  function OrEmpty(s: Option<string>): string
  {
    if s.Some? then s.value else ""
  }
}
