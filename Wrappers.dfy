/** Optional values, standing for Python's `None` and for the `.get` of a dictionary. */
module Wrappers {

  datatype Option<+T> = None | Some(value: T)

  /** No element of `s` occurs twice. */
  predicate Distinct<T(==)>(s: seq<T>) {
    forall i, j :: 0 <= i < j < |s| ==> s[i] != s[j]
  }
}
