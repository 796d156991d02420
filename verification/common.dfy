/** Values shared by every module of the model. */
module Common {
  /** Rust's `Option<T>`. */
  datatype Option<T> = None | Some(value: T)
}
