/** The option type shared by the modules of this project. */
module Wrappers {
  datatype Option<+T> = None | Some(value: T)

  lemma AtIsIn<T>(s: seq<T>, i: nat)
    ensures i < |s| ==> s[i] in s
  {}
}
