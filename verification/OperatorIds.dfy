/** Operator ids, shared by the message rules, the network tables and the key shares. */
module OperatorIds {
  type OperatorId = nat

  predicate Distinct<T(==)>(s: seq<T>) {
    forall i, j :: 0 <= i < j < |s| ==> s[i] != s[j]
  }
}
