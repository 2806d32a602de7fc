/** Names shared by the other modules. */
module Basics {

  /** An identifier. 0 is the nil one. */
  type Uuid = nat

  type CredentialsType = string

  predicate Distinct<T(==)>(xs: seq<T>) {
    forall i, j :: 0 <= i < j < |xs| ==> xs[i] != xs[j]
  }
}
