/** Java's nullable references, as a value: None stands for null. */
module Wrappers {

  datatype Option<+T> = None | Some(value: T)
}
