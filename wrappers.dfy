/** An optional value: `None` stands for a `None` the source returns, and also for an exception it raises (`GetUploadedChunks`, `OpenSession`, `ParseInt`). */
module Wrappers {
  datatype Option<+T> = None | Some(value: T)
}
