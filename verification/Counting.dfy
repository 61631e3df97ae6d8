/** Counting numbers below a bound. */
module Counting {

  function Below(n: nat): (s: set<nat>)
    ensures |s| == n && forall x: nat :: x in s <==> x < n
  {
    if n == 0 then {} else Below(n - 1) + {n - 1}
  }

  lemma SubsetCount(a: set<nat>, b: set<nat>)
    requires a <= b
    ensures |a| <= |b|
    ensures |a| == |b| ==> a == b
  {
    assert b == a + (b - a);
  }

  function Elements(values: seq<nat>): (s: set<nat>)
    ensures forall x :: x in s <==> x in values
  {
    if values == [] then {} else {values[0]} + Elements(values[1..])
  }

  lemma {:induction false} DistinctCount(values: seq<nat>)
    requires forall i, j | 0 <= i < j < |values| :: values[i] != values[j]
    ensures |Elements(values)| == |values|
  {
    if values != [] {
      var x, rest := values[0], values[1..];
      assert forall i | 0 <= i < |rest| :: rest[i] == values[i + 1];
      DistinctCount(rest);
      assert x !in rest;
    }
  }

  /** No more distinct numbers below `n` than `n`, and exactly `n` of them are all of them. */
  lemma Pigeonhole(values: seq<nat>, n: nat)
    requires forall i | 0 <= i < |values| :: values[i] < n
    requires forall i, j | 0 <= i < j < |values| :: values[i] != values[j]
    ensures |values| <= n
    ensures |values| == n ==> forall x: nat | x < n :: x in values
  {
    DistinctCount(values);
    SubsetCount(Elements(values), Below(n));
  }
}
