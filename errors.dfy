/** Outcomes of the operations that can raise in the original program. */
module Errors {

  /** The Python exceptions the modelled core can raise. */
  datatype PyError =
    | FileNotFoundError   // opening or sizing an input path that does not exist
    | StructError         // struct.unpack on a byte string that is not whole records
    | ZeroDivisionError   // run_id % k with k == 0
    | IndexError          // a list index out of range

  datatype Result<T> = Ok(value: T) | Err(error: PyError)

  datatype Option<T> = None | Some(value: T)
}
