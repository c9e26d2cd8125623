/** The optional value used for parse results and for the context-creation error. */
module Wrappers {

  datatype Option<+T> = None | Some(value: T)
}
