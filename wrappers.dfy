/** Failure-carrying values shared by the widget modules, and the Python
    exceptions the calendar logic can raise. */
module Wrappers {

  datatype Option<+T> = None | Some(value: T)

  /** The exceptions raised on the paths the model covers. */
  datatype PyError =
    | TypeError     // an argument of the wrong Python type
    | ValueError    // `datetime.replace` given a year outside 1..9999
    | OverflowError // date arithmetic past 9999-12-31
    | IndexError    // indexing an empty tuple

  /** Either a value or the exception that a Python call raised instead. */
  datatype Result<+T> = Ok(value: T) | Err(error: PyError)
}
