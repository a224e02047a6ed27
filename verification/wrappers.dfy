/** Optional values, for the installer's `None` returns and failed probes. */
module Wrappers {
  datatype Option<+T> = None | Some(value: T)
}
