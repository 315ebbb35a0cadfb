/** Option and Result values, and the Python exceptions that the scripts let escape. */
module Wrappers {

  datatype Option<+T> = None | Some(value: T)

  /** The exceptions the scripts raise and do not catch; each one ends the script. */
  datatype PyError =
    | IndexError         // a list index past the end (`parts[i]`, `lines[1]`)
    | KeyError           // a dict lookup or `os.environ[...]` with a missing key
    | ValueError         // `int(...)` of text that is not an integer
    | ZeroDivisionError  // a division by a zero maximum
    | CalledProcessError // a command run with `check=True` that exited with a non-zero status

  datatype Result<+T> = Ok(value: T) | Err(error: PyError)
}
