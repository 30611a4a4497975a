/** Types shared by the modules. */
module Basics {
  /** An octet; the texts of the program are sequences of these. */
  type byte = c: char | c as int < 256 witness '\0'

  /** A watcher. */
  type Id = nat

  datatype Option<+T> = None | Some(value: T)

  predicate Distinct<T(==)>(s: seq<T>) {
    forall i, j :: 0 <= i < j < |s| ==> s[i] != s[j]
  }

  function Min(a: nat, b: nat): nat { if a < b then a else b }
}
