/** A value or nothing: a failed lookup, an operation that blocks. */
module Wrappers {

  datatype Option<+T> = None | Some(value: T)

}
