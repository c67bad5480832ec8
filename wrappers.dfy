/** The optional value used for null pointers and failed lookups throughout the model. */
module Wrappers {

  /** `None` stands for a null pointer or a missing entry. */
  datatype Option<+T> = None | Some(value: T)
}
