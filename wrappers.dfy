/** Optional values. `None` stands for Python's `None` and, in the dashboards, for NaN. */
module Wrappers {

  datatype Option<+T> = None | Some(value: T)
}
