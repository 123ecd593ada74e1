/** The optional value used for a slot that may be empty (a nullable field in the app). */
module Wrappers {

  datatype Option<+T> = None | Some(value: T)
}
