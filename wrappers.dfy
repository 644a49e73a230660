/** A value that may be absent (JavaScript's `undefined` / `null`), shared by
    the other modules. */
module Wrappers {

  datatype Option<+T> = None | Some(value: T)

}
