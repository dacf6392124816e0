/** The optional value used wherever a JavaScript operation may produce nothing. */
module Wrappers {

  datatype Option<+T> = None | Some(value: T)
}
