/** Option and Result: absence of a value, and a value or the message of an
    exception that escaped. */
module Wrappers {

  datatype Option<+T> = None | Some(value: T)

  datatype Result<+R> = Success(value: R) | Failure(error: string)
}
