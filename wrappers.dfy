/** The optional-value datatype used for the partial decoders of this model. */
module Wrappers {
  datatype Option<+T> = None | Some(value: T)
}
