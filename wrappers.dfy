/** The usual optional-value datatype; `None` stands for a Rust panic the
    solvers raise on malformed input. */
module Wrappers {
  datatype Option<+T> = None | Some(value: T)
}
