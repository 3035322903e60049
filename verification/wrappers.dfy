/** An optional value: the store's nullable filter, and the browser-storage entry,
    which may be absent. */
module Wrappers {

  datatype Option<+T> = None | Some(value: T)
}
