/** Small shared vocabulary: Kotlin's nullable values, thrown-or-not outcomes, and
    lists without repeats. */
module Wrappers {

  /** A nullable Kotlin value (`T?`). */
  datatype Option<+T> = None | Some(value: T) {
    function GetOr(default: T): T {
      match this
      case Some(v) => v
      case None => default
    }
  }

  /** Whether a call completed or threw. */
  datatype Outcome<+E> = Pass | Fail(error: E)

  /** No element occurs twice. */
  predicate NoDup<T(==)>(s: seq<T>) {
    forall i, j :: 0 <= i < j < |s| ==> s[i] != s[j]
  }
}
