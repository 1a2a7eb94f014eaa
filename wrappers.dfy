/** Nullable references of the host language: `None` stands for `null`. */
module Wrappers {
  datatype Option<+T> = None | Some(value: T)
}
