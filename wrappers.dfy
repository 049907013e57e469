/** A value that may be missing: JavaScript's `NaN`, an unparsable string, no request made. */
module Wrappers {
  datatype Option<+T> = None | Some(value: T)
}
