/** The optional value used wherever the quiz may or may not have something to give back. */
module Wrappers {

  datatype Option<+T> = None | Some(value: T)
}
