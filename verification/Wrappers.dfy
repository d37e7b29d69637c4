/** The optional value every module here uses where the source has a nullable. */
module Wrappers {

  datatype Option<+T> = None | Some(value: T)
}
