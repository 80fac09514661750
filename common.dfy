/** Shared value types: optional values, results, and the Python exceptions the model raises. */
module Common {

  datatype Option<+T> = None | Some(value: T)

  /** The exceptions that escape the modelled code (they are not caught where they are raised). */
  datatype Failure =
    | KeyError(key: string)            // a dictionary lookup of a missing key
    | FileNotFoundError(path: string)  // os.makedirs('') and friends
    | EOFError                         // input() after the end of the answers

  datatype Result<+T> = Ok(value: T) | Err(error: Failure)
}
