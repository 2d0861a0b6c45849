/** Option and Result. */
module Prelude {
  datatype Option<+T> = None | Some(value: T)

  datatype Result<+T, +E> = Ok(value: T) | Err(error: E)

  /** A string that is there and not empty: Python's truth test. */
  predicate Present(o: Option<string>) {
    o.Some? && o.value != ""
  }
}
