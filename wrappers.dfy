/** The optional value the scheduler's parsers return in place of Python's `None`. */
module Wrappers {

  datatype Option<+T> = None | Some(value: T)

}
