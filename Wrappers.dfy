/** The "value or nothing" wrapper that stands for Kotlin's nullable `Double?`. */
module Wrappers {
  datatype Option<+T> = None | Some(value: T)
}
