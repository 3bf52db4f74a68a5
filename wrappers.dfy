/** Option and Result, the two shapes every fallible operation of the model returns. */
module Wrappers {

  /** `nil` in the source is `None`; any other value, including `""` and `0`, is `Some`. */
  datatype Option<+T> = None | Some(value: T)

  /** A value, or the error the source raises instead of producing it. */
  datatype Result<+T, +E> = Ok(value: T) | Err(error: E)
}
