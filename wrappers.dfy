/** The outcome of a call into the daemon: `None` stands for a call that faults (a panic in the source). */
module Wrappers {
  datatype Option<+T> = None | Some(value: T)
}
