/** The optional value used wherever the source works with a reference that may be null. */
module Wrappers {

  datatype Option<+T> = None | Some(value: T)
}
