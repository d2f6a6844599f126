/** The Python exceptions the modelled code can raise, and a result type that
    carries either a value or one of them. */
module Wrappers {

  /** The exception kinds raised by the modelled code on bad input. */
  datatype Error =
    | IndexError          // a list subscript out of range
    | KeyError            // a dict lookup of a missing key
    | ZeroDivisionError   // a division by zero
    | UnboundLocalError   // a loop variable read after a loop that never ran

  datatype Result<+T> = Ok(value: T) | Err(error: Error) {

    predicate IsFailure() {
      Err?
    }

    function PropagateFailure<U>(): Result<U>
      requires Err?
    {
      Err(error)
    }

    function Extract(): T
      requires Ok?
    {
      value
    }
  }
}
