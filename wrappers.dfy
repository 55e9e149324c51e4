/** `Option` stands for the JavaScript convention of returning `null` when there is no result. */
module Wrappers {

  datatype Option<+T> = None | Some(value: T)
}
