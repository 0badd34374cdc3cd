/** An optional value: the pagination object is either emitted or absent. */
module Wrappers {

  datatype Option<+T> = None | Some(value: T)
}
