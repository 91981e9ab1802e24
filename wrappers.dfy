/** Option: the model's rendering of Go's `nil` slice versus a real batch. */
module Wrappers {
  datatype Option<+T> = None | Some(value: T)
}
