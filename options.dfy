/** The optional value used for Rust's `Option` and C++'s nullable results. */
module Options {
  datatype Option<+T> = None | Some(value: T)
}
