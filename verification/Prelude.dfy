/** What every part of the model shares: results, and calls that may fail. */
module Prelude {
  datatype Option<+T> = None | Some(value: T)

  datatype Result<+T, +E> = Ok(value: T) | Err(error: E)

  /** Whether the k-th call of a run succeeds. */
  type Oracle = nat -> bool

  /** The calls from one count of calls to another all succeed. */
  predicate AllSucceeded(ok: Oracle, from: nat, to: nat) {
    forall k :: from <= k < to ==> ok(k)
  }

  ghost predicate Distinct<T>(s: seq<T>) {
    forall i, j :: 0 <= i < j < |s| ==> s[i] != s[j]
  }
}
