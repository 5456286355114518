/** The optional-value datatype used for the session draft slot and for lookups. */
module Wrappers {

  /** Some/None in place of a nullable reference. */
  datatype Option<+T> = None | Some(value: T)
}
