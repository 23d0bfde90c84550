/** Optional values: the component stores "no second type" as `false` and a
    missing sprite as `null`; both become `None` here. */
module Wrappers {

  datatype Option<+T> = None | Some(value: T)

  function Max(a: int, b: int): int
  {
    if a < b then b else a
  }
}
