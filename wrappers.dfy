/** The optional value used wherever the page may lack an element or a result. */
module Wrappers {

  datatype Option<+T> = None | Some(value: T)
}
