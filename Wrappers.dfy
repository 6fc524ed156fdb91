/** A value that may be absent: JavaScript's `null`/`undefined` where only
    presence matters. */
module Wrappers {

  datatype Option<+T> = None | Some(value: T)
}
