/** The optional and failing results the agents' helpers return, and the two functions min and max. */
module Prelude {
  datatype Option<+T> = None | Some(value: T)

  /** A raised exception is an Err; the text says which one. */
  datatype Result<+T> = Ok(value: T) | Err(error: string)

  function Min(a: int, b: int): int {
    if a <= b then a else b
  }

  function Max(a: int, b: int): int {
    if a >= b then a else b
  }
}
