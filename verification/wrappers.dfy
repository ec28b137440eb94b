/** The optional value used wherever the program stores `null` or a missing hit. */
module Wrappers {

  datatype Option<+T> = None | Some(value: T)

}
