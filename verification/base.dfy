/** Option, Result and the exceptions the microscope core can raise. */
module Base {

  datatype Option<+T> = None | Some(value: T)

  /** The Python exceptions that escape an operation, by kind. */
  datatype Error =
    | KeyError(key: string)        // a missing dictionary key
    | ValueError                   // a string that does not convert to a number, a bad unpacking
    | TypeError                    // an operation on a value of the wrong type, an unknown keyword argument
    | AttributeError               // a missing attribute or method (e.g. `split` on a number)
    | ZeroDivisionError            // float division by zero
    | HardwareError(access: string) // an Autoscript call that raised

  /** A spin box in micro-units (µm, µs) converted to SI units. */
  function Micro(x: real): real
  {
    x * 0.000001
  }

  datatype Result<+T> = Ok(value: T) | Err(error: Error) {
    predicate IsFailure() { Err? }

    function PropagateFailure<U>(): Result<U>
      requires Err?
    {
      Err(error)
    }

    function Extract(): T
      requires Ok?
    {
      value
    }
  }
}
