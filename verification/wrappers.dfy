/** The optional value used for Java's nullable results. */
module Wrappers {

  datatype Option<+T> = None | Some(value: T)
}
