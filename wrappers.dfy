/** The optional value returned by a cache lookup and by a fetch handler. */
module Wrappers {

  datatype Option<+T> = None | Some(value: T)
}
