/** Failure-compatible wrappers shared by every module of the model. */
module Wrappers {

  datatype Option<T> = None | Some(value: T)

  /** The Python exception classes that the modelled scripts can raise. */
  datatype Error =
    | ValueError          // bad split, bad date, wrong number of bucket columns, empty concat
    | KeyError            // a missing dict key or DataFrame column
    | TypeError           // subscripting something that is not a dict
    | AttributeError      // calling .values() on something that is not a dict
    | IndexError          // dirs[0] on an empty batch
    | NameError           // reading a variable that was never bound
    | FileNotFoundError   // listing a directory that does not exist
    | NotImplementedError // json_normalize on a scalar

  /** The outcome of a step that either produces a value or raises. */
  datatype Result<T> = Ok(value: T) | Err(error: Error)
}
