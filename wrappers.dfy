/** Option and Result values, and the .NET exceptions the generator can raise,
    modelled as error values instead of control flow. */
module Wrappers {

  /** A nullable reference: `None` is C#'s `null`. */
  datatype Option<+T> = None | Some(value: T)

  /** The exceptions thrown by the modelled code, by kind. */
  datatype Exception =
    | ArgumentNull(paramName: string)
    | Argument(message: string)
    | ArgumentOutOfRange
    | InvalidOperation(message: string)
    | NotSupported
    | InvalidCast

  /** Either the value a call returns or the exception it throws. */
  datatype Result<+T> = Ok(value: T) | Err(error: Exception)
}
