/** The optional value used for the calendar's nullable state fields. */
module Wrappers {

  datatype Option<+T> = None | Some(value: T)
}
