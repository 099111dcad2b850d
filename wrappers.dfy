/** The optional value used for Kotlin's nullable types and for parse results. */
module Wrappers {

  datatype Option<+T> = None | Some(value: T)
}
