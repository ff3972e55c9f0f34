/** The optional-value datatype the model uses in place of Rust's `Option`. */
module Wrappers {
  datatype Option<+T> = None | Some(value: T)
}
