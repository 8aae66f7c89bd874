/** The optional-value type used for "no match" and for a failed date parse,
    and the result type of a step that can fail. */
module Wrappers {
  datatype Option<+T> = None | Some(value: T)

  datatype Result<+T, +E> = Ok(value: T) | Err(error: E)
}
