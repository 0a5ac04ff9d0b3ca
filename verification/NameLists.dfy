/**
  Lists of names without repetition.
 */
module NameLists {

  predicate Distinct(names: seq<string>) {
    forall i, j :: 0 <= i < j < |names| ==> names[i] != names[j]
  }
}
