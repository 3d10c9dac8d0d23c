/** The optional value the scanners and the document lookup return. */
module Wrappers {

  datatype Option<+T> = None | Some(value: T)
}
