/** Optional values and error-or-value results, used wherever the source has
    `null`/`undefined` or a thrown/rejected error. */
module Wrappers {

  datatype Option<+T> = None | Some(value: T)

  datatype Result<+T, +E> = Success(value: T) | Failure(error: E)

  /** A JavaScript value that may be an absent key, an explicit `null`, or a value:
      zod schemas and the submitted records keep the three apart. */
  datatype Nullish<+T> = Missing | Null | Value(value: T)
}
