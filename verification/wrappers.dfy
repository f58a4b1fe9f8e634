/** Small failure-carrying datatypes shared by the model. */
module Wrappers {

  /** A value that may be absent: a null `shared_ptr`, an empty slot. */
  datatype Option<+T> = None | Some(value: T)

  /** The outcome of a call that may throw: `Err` carries the exception's
      message. */
  datatype Result<+T> = Ok(value: T) | Err(message: string)
}
