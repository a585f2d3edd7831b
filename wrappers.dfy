/** Option and Result carriers shared by the modules of this model. */
module Wrappers {

  datatype Option<+T> = None | Some(value: T)

  /** The ways a computation of the portfolio manager goes wrong. */
  datatype Fault =
    | KeyError(key: string)  // a label looked up in a dictionary or a frame is absent (raises)
    | ZeroDivision           // Python float division by zero (raises)
    | ShapeMismatch          // the operands of a NumPy operation disagree in shape (raises)
    | NotFinite              // the floating-point result would be inf or nan (no exception)

  datatype Result<+T> = Ok(value: T) | Err(fault: Fault)
}
