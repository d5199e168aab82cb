/** Small failure-carrying datatypes shared by the other modules. */
module Wrappers {

  /** An optional value. A Go `error` is modelled as `Option<Error>`: `None` is `nil`. */
  datatype Option<+T> = None | Some(value: T)
}
