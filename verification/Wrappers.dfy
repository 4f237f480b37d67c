/** Results of calls that may revert. */
module Wrappers {
  /** `None` stands for a revert (or a Go error): the call had no effect. */
  datatype Option<+T> = None | Some(value: T)
}
