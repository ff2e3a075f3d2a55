/** What several modules say about sequences and numbers. */
module Sequences {
  ghost predicate NoDuplicates<T>(s: seq<T>) {
    forall i, j :: 0 <= i < j < |s| ==> s[i] != s[j]
  }

  function Min(a: nat, b: nat): nat {
    if a <= b then a else b
  }
}
