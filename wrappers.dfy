/** Optional values. `None` stands for a pandas NaN: a value that is not
    defined yet (a rolling window that is not full) or that came out of 0/0. */
module Wrappers {

  datatype Option<+T> = None | Some(value: T)
}
