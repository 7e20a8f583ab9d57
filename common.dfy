/**
 * General helpers shared by the other modules; nothing in the program
 * corresponds to them directly.
 */
module Common {

  datatype Option<T> = None | Some(value: T)

  /** No string occurs twice. */
  predicate Distinct(s: seq<string>)
  {
    forall i, j :: 0 <= i < j < |s| ==> s[i] != s[j]
  }
}
