/**
 * Sequences without repetition.
 */
module Sequences {

  ghost predicate NoDup<T>(r: seq<T>) {
    forall i, j {:trigger r[i], r[j]} :: 0 <= i < j < |r| ==> r[i] != r[j]
  }

  function RemoveAt<T>(r: seq<T>, k: nat): seq<T>
    requires k < |r|
  {
    r[..k] + r[k + 1..]
  }
}
