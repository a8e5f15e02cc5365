/** Option datatype used across the model for "absent", "raised" and "not given". */
module Wrappers {

  datatype Option<+T> = None | Some(value: T)
}
