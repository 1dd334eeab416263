/** The vocabulary every other module shares. */
module Wrappers {

  /** A nullable field or an absent document of the source. */
  datatype Option<+T> = None | Some(value: T)

  /** A value, or the error the source would have thrown. */
  datatype Result<+T, +E> = Ok(value: T) | Err(error: E)

  /** No element occurs twice. */
  ghost predicate NoRepeats<T>(s: seq<T>) {
    forall i, j :: 0 <= i < j < |s| ==> s[i] != s[j]
  }

  /** 0, 1, ..., n - 1. */
  function Upto(n: nat): (s: seq<nat>)
    ensures |s| == n && forall i :: 0 <= i < n ==> s[i] == i
  {
    seq(n, i requires 0 <= i < n => i)
  }
}
