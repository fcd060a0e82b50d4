/** What the retrieval modules share. */
module Basics {
  /** An account of the chain, by its address. */
  datatype Account = Account(address: string)

  ghost predicate Distinct(s: seq<nat>) {
    forall i, j :: 0 <= i < j < |s| ==> s[i] != s[j]
  }
}
