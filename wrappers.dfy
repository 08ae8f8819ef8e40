/** Optional values and success-or-error results, used where the TypeScript
    code has `?:` fields, `T | null` values and rejected promises, and the
    one list predicate the archive and the category list share. */
module Wrappers {

  datatype Option<+T> = None | Some(value: T)

  datatype Result<+T, +E> = Ok(value: T) | Err(error: E)

  /** No entry of the list occurs twice. */
  predicate NoDuplicates<T(==)>(xs: seq<T>) {
    forall i, j :: 0 <= i < j < |xs| ==> xs[i] != xs[j]
  }
}
