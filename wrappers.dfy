/** The optional value used for a JavaScript `null`/`undefined` that the client checks for. */
module Wrappers {

  datatype Option<+T> = None | Some(value: T)
}
