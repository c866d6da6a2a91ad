/** The optional value used wherever the Java code allows `null`. */
module Wrappers {

  datatype Option<+T> = None | Some(value: T)
}
