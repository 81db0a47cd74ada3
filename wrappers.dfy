/** The failure-compatible Option type used for the runtime errors of the emitted Lua decoder. */
module Wrappers {

  datatype Option<+T> = None | Some(value: T)

}
