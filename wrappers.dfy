/** The nullable values of the source (`T?` in Kotlin) are modelled as Option. */
module Wrappers {
  datatype Option<+T> = None | Some(value: T)
}
