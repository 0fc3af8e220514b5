/** Option and Result, the two shapes Rust's standard library gives the parser's
    lookups and coercions. Result is failure-compatible, so `:-` plays the part of
    Rust's `?` operator. */
module Wrappers {

  datatype Option<+T> = None | Some(value: T)

  datatype Result<+T, +E> = Ok(value: T) | Err(error: E) {

    predicate IsFailure() {
      Err?
    }

    function PropagateFailure<U>(): Result<U, E>
      requires Err?
    {
      Err(error)
    }

    function Extract(): T
      requires Ok?
    {
      value
    }

    /** The error, if any. */
    function ErrorOf(): (r: Option<E>)
      ensures r.Some? <==> Err?
      ensures r.Some? ==> r.value == error
    {
      if Err? then Some(error) else None
    }
  }
}
