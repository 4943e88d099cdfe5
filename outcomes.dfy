/**
 * Success and failure values used throughout the model.
 *
 * The original library reports every misuse (a zero dimension, a length
 * mismatch, an axis out of range, a missing placeholder value, ...) by
 * panicking. Here a panic becomes an `Err` or a `Fail` that carries the kind
 * of the panic, so that every error path is part of the model.
 */
module Outcomes {

  /** The families of panics raised by the library. */
  datatype Error =
    | ShapeError           // zero dimension, length mismatch, incompatible shapes, bad axis
    | IndexOutOfBounds     // element index of the wrong length or out of range
    | MissingFeed(id: string)  // placeholder id absent from the feed map
    | MissingGradient      // a parent's accumulated gradient is not in the map
    | Underflow            // an unsigned subtraction below zero

  datatype Option<+T> = None | Some(value: T)

  datatype Result<+T> = Ok(value: T) | Err(error: Error)
  {
    predicate IsFailure() { Err? }

    function PropagateFailure<U>(): Result<U>
      requires Err?
    {
      Err(error)
    }

    function Extract(): T
      requires Ok?
    {
      value
    }
  }

  /** The result of a check that returns nothing but may panic. */
  datatype Outcome = Pass | Fail(error: Error)
  {
    predicate IsFailure() { Fail? }

    function PropagateFailure<U>(): Result<U>
      requires Fail?
    {
      Err(error)
    }
  }
}
