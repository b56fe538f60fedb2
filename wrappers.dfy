/** The optional value used where the page may or may not find something. */
module Wrappers {

  datatype Option<+T> = None | Some(value: T)
}
