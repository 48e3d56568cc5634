/** The optional value used throughout the model. */
module Options {
  datatype Option<+T> = None | Some(value: T)
}

/** Small functions every module may need. */
module Helpers {
  function Min(a: nat, b: nat): nat { if a < b then a else b }

  function Max(a: nat, b: nat): nat { if a < b then b else a }

  ghost predicate Rising(at: seq<nat>) { forall i, j :: 0 <= i < j < |at| ==> at[i] < at[j] }

  function AsSet<T>(s: seq<T>): set<T> { set x | x in s }
}
