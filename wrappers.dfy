/** Option and Result, the two failure-carrying types the model uses for Rust's
    `Option` and for operations that panic in the source. Result supports
    Dafny's `:-`, which plays the part of a panic that ends the computation. */
module Wrappers {

  datatype Option<T> = None | Some(value: T)

  datatype Result<T, E> = Ok(value: T) | Err(error: E) {
    predicate IsFailure() {
      Err?
    }

    function PropagateFailure<U>(): Result<U, E>
      requires Err?
    {
      Err(error)
    }

    function Extract(): T
      requires Ok?
    {
      value
    }
  }
}
