/** The optional values the Swift source expresses with `?` and `nil`. */
module Wrappers {

  datatype Option<+T> = None | Some(value: T)
}
