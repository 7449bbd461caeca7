/** Failure-aware values shared by the other modules. */
module Wrappers {

  /** `None` stands for a lookup or conversion that raises in the modelled program. */
  datatype Option<+T> = None | Some(value: T)
}
