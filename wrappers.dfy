/** Optional values and success-or-error results, used where the TypeScript code
    has `undefined`/`null` or throws; and the one sequence fact the
    step-by-step proofs of appending loops share. */
module Wrappers {

  datatype Option<+T> = None | Some(value: T)

  datatype Result<+T, +E> = Success(value: T) | Failure(error: E)

  /** Appending is associative. */
  lemma AppendAssociates<T>(a: seq<T>, b: seq<T>, c: seq<T>)
    ensures a + (b + c) == a + b + c
  {
  }
}
