/** The option type used throughout the models; C's NULL is `None`. */
module Wrappers {
  datatype Option<+T> = None | Some(value: T)
}
