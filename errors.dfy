/** Results and the Python exceptions the modelled code can raise. */
module Errors {

  datatype Option<T> = None | Some(value: T)

  /** The exceptions of `main.py` that the model keeps track of. */
  datatype Error =
    /** A list subscript out of range. */
    | IndexError
    /** `int(...)` of a token that is not a number (an empty line, or the empty
        string `readline` returns at end of file), or a header line whose
        number of values does not match the names it is unpacked into. */
    | ValueError(line: nat)
    /** A declared count that differs from the number of records built. */
    | CountMismatch(expected: int, actual: nat)

  datatype Result<T> = Ok(value: T) | Err(error: Error)
}
