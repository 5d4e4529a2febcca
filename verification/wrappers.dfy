/** The optional-value datatype used for lookups that may find nothing. */
module Wrappers {

  /** `None` stands for the source's `null` / absent value. */
  datatype Option<+T> = None | Some(value: T)
}
