/** Optional values and results shared by the modules of the model: `Option`
    for a value JavaScript may leave `undefined` (or a NaN from a number
    parse), and `Result` for an operation that throws an `Error` with a
    message. */
module Wrappers {

  datatype Option<+T> = None | Some(value: T)

  datatype Result<+T> = Ok(value: T) | Err(message: string)
}
