/** Failure-carrying values shared by the recorder and the decomposition tool. */
module Wrappers {

  datatype Option<+T> = None | Some(value: T)

  /** The outcome of an operation that either completes or stops with an error. */
  datatype Outcome<+E> = Pass | Fail(error: E)

  /** The run-time errors the modelled Python code can raise. */
  datatype Error =
    | OutputDirNotSet      // os.path.join(None, ...) raises TypeError
    | ZeroDivision         // a Python `/` whose divisor is 0
    | MaskLengthMismatch   // a numpy boolean mask whose length differs from the masked array
    | IndexOutOfRange      // a Python list index outside [-len, len)
}
