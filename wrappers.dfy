/** Option and Result, the shapes of Rust's `Option` and `Result` used by the engine. */
module Wrappers {

  datatype Option<+T> = None | Some(value: T)

  /** A Rust `Result`; supports `:-` so that it reads like Rust's `?` operator. */
  datatype Result<+T, +E> = Ok(value: T) | Err(error: E) {

    predicate IsFailure() {
      Err?
    }

    function PropagateFailure<U>(): Result<U, E>
      requires Err?
    {
      Err(error)
    }

    function Extract(): T
      requires Ok?
    {
      value
    }
  }
}
