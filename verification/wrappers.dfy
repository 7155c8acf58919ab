/** The optional value used for the soft failures of the model (a timestamp that does not parse). */
module Wrappers {
  datatype Option<+T> = None | Some(value: T)
}
