/** Option and Result, as used by the readers and the cache. */
module Wrappers {

  datatype Option<+T> = None | Some(value: T)

  /** The outcome of a step that the source can abort by throwing a TypeError. */
  datatype Result<+T> = Ok(value: T) | Thrown(reason: string)
}
