/** An optional value: used for a speed command the controller leaves
    uninitialised and for a rule search that finds nothing. */
module Wrappers {
  datatype Option<+T> = None | Some(value: T)
}
