/** Small value types shared by every part of the model. */
module Common {

  /** A value that may be absent (a JavaScript `null` / `undefined`). */
  datatype Option<+T> = None | Some(value: T)

  /** The outcome of a step that returns a value or throws. */
  datatype Result<+T, +E> = Ok(value: T) | Err(error: E)

  /** The outcome of a step that returns nothing useful or throws. */
  datatype Outcome<+E> = Pass | Fail(error: E)

  /** The notification a handler shows through the toast library, if any. */
  datatype Toast = NoToast | SuccessToast(message: string) | ErrorToast(message: string)
}
