/** Optional values: TypeScript's `T | undefined` / `T | null` and C#'s nullable references. */
module Wrappers {

  datatype Option<+T> = None | Some(value: T)
}
