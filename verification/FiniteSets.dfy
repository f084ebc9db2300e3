/** Counting: sequences without duplicates, the sets of their elements, and initial segments. */
module FiniteSets {

  ghost predicate NoDuplicates(s: seq<nat>) {
    forall i, j :: 0 <= i < j < |s| ==> s[i] != s[j]
  }

  ghost function SetOf(s: seq<nat>): (r: set<nat>)
    ensures forall p :: p in r <==> p in s
  {
    if s == [] then {}
    else
      var n := |s| - 1;
      assert s == s[..n] + [s[n]];
      SetOf(s[..n]) + {s[n]}
  }

  lemma {:induction false} SetOfSize(s: seq<nat>)
    requires NoDuplicates(s)
    ensures |SetOf(s)| == |s|
  {
    if s != [] {
      var n := |s| - 1;
      SetOfSize(s[..n]);
      assert s[n] !in s[..n];
    }
  }

  /** 0, 1, ..., n - 1. */
  function Below(n: nat): (r: set<nat>)
    ensures forall p :: p in r <==> 0 <= p < n
    ensures |r| == n
  {
    if n == 0 then {} else Below(n - 1) + {n - 1}
  }

  lemma SubsetSize<T>(a: set<T>, b: set<T>)
    requires a <= b
    ensures |a| <= |b| && (|a| == |b| ==> a == b)
  {
    assert b == a + (b - a);
  }

  /** n distinct numbers below n are all of them. */
  lemma Pigeonhole(s: seq<nat>)
    requires NoDuplicates(s) && forall i :: 0 <= i < |s| ==> s[i] < |s|
    ensures forall x :: 0 <= x < |s| ==> x in s
  {
    SetOfSize(s);
    SubsetSize(SetOf(s), Below(|s|));
  }
}
