/** The optional-value datatype used where the source relies on Kotlin's nullable types. */
module Wrappers {

  datatype Option<+T> = None | Some(value: T)
}
