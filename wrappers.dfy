/** Option and Result, plus the failures the library raises as exceptions. */
module Wrappers {

  datatype Option<+T> = None | Some(value: T)

  /** The exceptions of the library, one constructor per kind of failure. */
  datatype Failure =
    | InvalidFormat(input: string)                     // UnexpectedValueException on malformed text
    | InvalidOperator(token: string, hint: Option<string>)  // UnexpectedValueException from Operator
    | InvalidStability(name: string)                   // InvalidArgumentException from Stability::toInt
    | NotImplemented                                   // the "Not implemented yet" exceptions

  datatype Result<+T> = Ok(value: T) | Err(error: Failure)
}
