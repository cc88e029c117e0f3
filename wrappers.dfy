/** The optional-value datatype used throughout the model: a regex match that
    may fail, a dictionary lookup that may miss, a rule that may not fire. */
module Wrappers {
  datatype Option<+T> = None | Some(value: T)
}
