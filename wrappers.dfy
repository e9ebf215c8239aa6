/** Option and Result, with the failure-compatible members that let `:-` play
    the part of Rust's `?` operator. */
module Wrappers {

  datatype Option<+T> = None | Some(value: T) {

    /** Rust's `Option::ok_or`: a missing value becomes the given error. */
    function OkOr<E>(error: E): Result<T, E>
    {
      match this
      case Some(v) => Ok(v)
      case None => Err(error)
    }
  }

  datatype Result<+T, +E> = Ok(value: T) | Err(error: E) {

    predicate IsFailure()
    {
      Err?
    }

    function PropagateFailure<U>(): Result<U, E>
      requires Err?
    {
      Err(error)
    }

    function Extract(): T
      requires Ok?
    {
      value
    }

    /** Rust's `Result::map_err`. */
    function MapErr<F>(f: E -> F): Result<T, F>
    {
      match this
      case Ok(v) => Ok(v)
      case Err(e) => Err(f(e))
    }
  }
}
