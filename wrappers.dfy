/** Option and Result, and the Python exceptions the script can raise, as values. */
module Wrappers {

  datatype Option<+T> = None | Some(value: T)

  /** The exceptions of the script that the model keeps: each one aborts the
      action that raised it. */
  datatype Error =
    | KeyError(key: string)      // a dictionary lookup of a missing key
    | IOError(path: string)      // opening a file that is not there
    | NameError(name: string)    // reading a local variable that was never assigned
    | IndexError                 // indexing an empty list
    | HTTPError                  // raise_for_status on a non-2xx response

  datatype Result<+T> = Ok(value: T) | Err(error: Error)
}
