/** Facts about sequences shared by the graph and the id providers. */
module Sequences {

  predicate Distinct<T(==)>(s: seq<T>) {
    forall i, j :: 0 <= i < j < |s| ==> s[i] != s[j]
  }

  /** The handles 0, 1, ..., n - 1, in order. */
  function Range(n: nat): (r: seq<nat>)
    ensures |r| == n && forall k :: 0 <= k < n ==> r[k] == k
  {
    if n == 0 then [] else Range(n - 1) + [n - 1]
  }

  /** The elements of cs that are not in order, in the order of cs. */
  function Unlisted<T(==)>(order: seq<T>, cs: seq<T>): (r: seq<T>)
    ensures forall i :: 0 <= i < |r| ==> r[i] in cs && r[i] !in order
    ensures forall k :: 0 <= k < |cs| && cs[k] !in order ==> cs[k] in r
  {
    if cs == [] then []
    else Unlisted(order, cs[..|cs| - 1]) + (if cs[|cs| - 1] in order then [] else [cs[|cs| - 1]])
  }

  /** Nothing is listed yet: every element is new, in order. */
  lemma {:induction false} UnlistedEmpty<T>(cs: seq<T>)
    ensures Unlisted([], cs) == cs
  {
    if cs != [] {
      UnlistedEmpty(cs[..|cs| - 1]);
    }
  }
}
