/** The optional-value wrapper shared by the whole model. */
module Wrappers {

  /** A value that may be absent (a JavaScript `null` / `undefined`). */
  datatype Option<+T> = None | Some(value: T)
}
