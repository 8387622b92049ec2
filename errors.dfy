/** Error kinds raised by the toolkit, and the Result type that carries them.
    Every Python exception path of the model becomes an `Err` value. */
module Errors {

  /** The Python exception classes the toolkit can raise. `TypeError` also
      stands for every `return NotImplemented(...)`/`raise NotImplemented(...)`
      path: `NotImplemented` is not callable, so calling it raises TypeError. */
  datatype Error =
    | TypeError
    | ValueError
    | KeyError
    | IndexError
    | ZeroDivisionError
    | AssertionError

  datatype Result<+T> = Ok(value: T) | Err(error: Error)

  /** A result that carries no value (a method that returns None or raises). */
  datatype Outcome = Pass | Fail(error: Error)
}
