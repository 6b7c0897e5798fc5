/** The optional value used for the builder's nullable fields. */
module Wrappers {

  datatype Option<+T> = None | Some(value: T)
}
