/** Optional values shared by the whole model. */
module Wrappers {

  /** An optional value; as an error, `None` stands for Go's nil error. */
  datatype Option<+T> = None | Some(value: T)
}
