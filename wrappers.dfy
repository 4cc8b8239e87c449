/** The optional value used for a field the issue tracker may leave out. */
module Wrappers {

  datatype Option<+T> = None | Some(value: T)
}
