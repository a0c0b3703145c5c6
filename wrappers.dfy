/** Kotlin's nullable values (`T?`), written as an option datatype. */
module Wrappers {

  datatype Option<+T> = None | Some(value: T)
}
