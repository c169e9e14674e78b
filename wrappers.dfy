/** The conventional optional-value datatype, used for "no batch found" and
    for "nothing was emitted". */
module Wrappers {
  datatype Option<+T> = None | Some(value: T)
}
