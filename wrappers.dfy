/** The optional value used wherever the program reports "no result". */
module Wrappers {

  datatype Option<T> = None | Some(value: T)
}
