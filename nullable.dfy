/** A value or nothing: the model's stand-in for a pointer that may be NULL. */
module Nullable {
  datatype Option<T> = None | Some(value: T)
}
