/** Small result types shared by the configuration reader and the loader. */
module Wrappers {

  datatype Option<+T> = None | Some(value: T)

  /** The three ways a step of the configuration reader can end.
      `Fail` is the C function returning false; `Undefined` marks a step at
      which the C code would read outside the token array or pass NULL
      to `strlen`, i.e. undefined behaviour in C. */
  datatype Outcome<+T> = Ok(value: T) | Fail | Undefined

  datatype Result<+T, +E> = Success(value: T) | Failure(error: E)
}
