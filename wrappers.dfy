/** Small failure-carrying datatypes shared by the whole model. */
module Wrappers {

  datatype Option<+T> = None | Some(value: T)

  /** An HTTP answer of a controller: a success status with its JSON value,
      or an error status with the `{ error: message }` body the handlers send. */
  datatype Reply<+T> = Ok(status: int, value: T) | Error(status: int, message: string)
}
