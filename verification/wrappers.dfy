/** The optional-value datatype that stands in for C#'s `null` and `Nullable<T>`. */
module Wrappers {

  /** `None` plays the part of `null` (or a `Nullable<T>` without a value). */
  datatype Option<+T> = None | Some(value: T)
}
