/** Option and Result, the failure-carrying wrappers used throughout the model. */
module Wrappers {

  datatype Option<+T> = None | Some(value: T)

  /** The errors the modelled Python and JavaScript code raises. */
  datatype Error =
    | InvalidTimestamp(t: int)   // rewindTime's ValueError
    | TimestampOutOfRange(t: int) // `datetime` cannot hold the local time (years 1 to 9999)
    | NonNumeric                 // rewindTime given something that is not a number
    | ZeroDivision               // Python `//` by zero
    | MissingHourField           // `split(" ")[1]` on a timestamp without a space

  datatype Result<+R> = Ok(value: R) | Err(error: Error)
}
