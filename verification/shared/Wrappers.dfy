/** The result of a computation that may have none. */
module Wrappers {

  datatype Option<+T> = None | Some(value: T)
}
