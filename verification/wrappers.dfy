/** An optional value, standing in for Go's nil results and "ok" results. */
module Wrappers {

  datatype Option<+T> = None | Some(value: T)
}
