/** The optional value the source expresses with Rust's `Option`. */
module Wrappers {
  datatype Option<+T> = None | Some(value: T)
}
