// Sequences without repetition, and how many values they can hold.
module Counting {

  ghost predicate Distinct(s: seq<nat>) {
    forall i, j :: 0 <= i < j < |s| ==> s[i] != s[j]
  }

  function Members(s: seq<nat>): set<nat> { set z | z in s }

  function Below(n: nat): (r: set<nat>)
    ensures forall z: nat :: z in r <==> z < n
  {
    if n == 0 then {} else Below(n - 1) + {n - 1}
  }

  lemma {:induction false} BelowCount(n: nat)
    ensures |Below(n)| == n
  {
    if n > 0 { BelowCount(n - 1); }
  }

  lemma {:induction false} DistinctCount(s: seq<nat>)
    requires Distinct(s)
    ensures |Members(s)| == |s|
  {
    if s != [] {
      var rest := s[1..];
      DistinctCount(rest);
      assert s == [s[0]] + rest;
      assert Members(s) == {s[0]} + Members(rest);
      assert forall i :: 0 <= i < |rest| ==> rest[i] == s[i + 1] != s[0];
    }
  }

  lemma SubsetCount(a: set<nat>, b: set<nat>)
    requires a <= b
    ensures |a| <= |b|
  {
    assert b == a + (b - a);
  }

  lemma DistinctBelow(s: seq<nat>, n: nat)
    requires Distinct(s) && forall i :: i in s ==> i < n
    ensures |s| <= n
  {
    DistinctCount(s);
    BelowCount(n);
    SubsetCount(Members(s), Below(n));
  }

  // Two lists without repetition that share the numbers below n between them.
  lemma SplitCount(a: seq<nat>, b: seq<nat>, n: nat)
    requires Distinct(a) && Distinct(b)
    requires forall i: nat :: i in a <==> i < n && i !in b
    requires forall i :: i in b ==> i < n
    ensures |a| + |b| == n
  {
    DistinctCount(a);
    DistinctCount(b);
    BelowCount(n);
    assert Members(a) !! Members(b);
    assert Below(n) == Members(a) + Members(b);
  }
}
