// The page cache: a least-recently-used list with an index.
module PageCaches {
  import opened Counting

  function Without(s: seq<nat>, x: nat): (r: seq<nat>)
    ensures |r| <= |s| && x !in r && forall y :: y in r <==> y in s && y != x
    ensures x !in s ==> r == s
  {
    if s == [] then []
    else if s[0] == x then Without(s[1..], x)
    else
      assert s == [s[0]] + s[1..];
      [s[0]] + Without(s[1..], x)
  }

  lemma {:induction false} WithoutDistinct(s: seq<nat>, x: nat)
    requires Distinct(s)
    ensures Distinct(Without(s, x)) && (x in s ==> |Without(s, x)| == |s| - 1)
  {
    if s != [] {
      assert s == [s[0]] + s[1..];
      assert forall i :: 0 <= i < |s[1..]| ==> s[1..][i] == s[i + 1];
      WithoutDistinct(s[1..], x);
      var rest := Without(s[1..], x);
      assert s[0] !in s[1..];
      assert forall i :: 0 <= i < |rest| ==> rest[i] in rest;
    }
  }

  // What `put` makes of the list: x in front, the oldest dropped if x is new
  // and the list full.
  function Inserted(s: seq<nat>, cap: nat, x: nat): seq<nat>
    requires cap > 0
  {
    if x in s then [x] + Without(s, x)
    else if |s| >= cap then [x] + s[..cap - 1]
    else [x] + s
  }

  // ---------- A larger cache holds more ----------

  // A lookup with insertion on a miss, or a deletion.
  datatype Access = Use(page: nat) | Drop(page: nat)

  function Step(s: seq<nat>, cap: nat, a: Access): seq<nat>
    requires cap > 0
  {
    match a
    case Use(x) => Inserted(s, cap, x)
    case Drop(x) => Without(s, x)
  }

  function Run(s: seq<nat>, cap: nat, accesses: seq<Access>): seq<nat>
    requires cap > 0
    decreases |accesses|
  {
    if accesses == [] then s else Step(Run(s, cap, accesses[..|accesses| - 1]), cap, accesses[|accesses| - 1])
  }

  ghost predicate ListOk(s: seq<nat>, cap: nat) { Distinct(s) && |s| <= cap }

  lemma StepListOk(s: seq<nat>, cap: nat, a: Access)
    requires cap > 0 && ListOk(s, cap)
    ensures ListOk(Step(s, cap, a), cap)
  {
    WithoutDistinct(s, a.page);
  }

  lemma {:induction false} WithoutPrefix(s: seq<nat>, t: seq<nat>, x: nat)
    requires s <= t
    ensures Without(s, x) <= Without(t, x)
  {
    if s != [] {
      assert t[0] == s[0] && s[1..] <= t[1..];
      WithoutPrefix(s[1..], t[1..], x);
    }
  }

  lemma StepPrefix(s: seq<nat>, m: nat, t: seq<nat>, n: nat, a: Access)
    requires 0 < m <= n && ListOk(s, m) && ListOk(t, n) && s <= t
    ensures Step(s, m, a) <= Step(t, n, a)
  {
    var x := a.page;
    WithoutPrefix(s, t, x);
    if a.Use? && x !in s && x !in t && |s| < m {
      assert |t| >= n ==> |s| <= n - 1;
    }
  }

  // On the same accesses and deletions, the list of a smaller cache is always
  // a prefix of the list of a larger one.
  lemma {:induction false} LargerHoldsMore(m: nat, n: nat, accesses: seq<Access>)
    requires 0 < m <= n
    ensures Run([], m, accesses) <= Run([], n, accesses)
    ensures ListOk(Run([], m, accesses), m) && ListOk(Run([], n, accesses), n)
    decreases |accesses|
  {
    if accesses != [] {
      var before, a := accesses[..|accesses| - 1], accesses[|accesses| - 1];
      LargerHoldsMore(m, n, before);
      StepPrefix(Run([], m, before), m, Run([], n, before), n, a);
      StepListOk(Run([], m, before), m, a);
      StepListOk(Run([], n, before), n, a);
    }
  }

  // ---------- The cache itself ----------

  class LRUCache {
    const cap: nat
    var cache: seq<nat>    // most recent first
    var index: set<nat>    // the keys of the source's map to list nodes

    ghost predicate Valid()
      reads this
    {
      cap > 0 && ListOk(cache, cap) && forall x :: x in index <==> x in cache
    }

    constructor (capacity: nat)
      requires capacity > 0
      ensures Valid() && cache == [] && cap == capacity
    {
      cap := capacity;
      cache, index := [], {};
    }

    // A lookup makes a cached page the most recent one.
    method Get(page: nat) returns (hit: bool)
      requires Valid()
      modifies this`cache
      ensures Valid() && (hit <==> page in old(cache))
      ensures cache == if hit then Inserted(old(cache), cap, page) else old(cache)
    {
      if page !in index {
        return false;
      }
      WithoutDistinct(cache, page);
      cache := Without(cache, page);
      cache := [page] + cache;
      hit := true;
    }

    method Put(page: nat)
      requires Valid()
      modifies this
      ensures Valid() && cache == Inserted(old(cache), cap, page)
    {
      WithoutDistinct(cache, page);
      if page !in index {
        if |cache| == cap {
          assert cache == cache[..cap - 1] + [cache[cap - 1]];
          index := index - {cache[|cache| - 1]};
          cache := cache[..|cache| - 1];
        }
      } else {
        cache := Without(cache, page);
      }
      cache := [page] + cache;
      index := index + {page};
    }

    method Del(page: nat)
      requires Valid()
      modifies this
      ensures Valid() && cache == Without(old(cache), page)
    {
      if page !in index {
        return;
      }
      WithoutDistinct(cache, page);
      cache := Without(cache, page);
      index := index - {page};
    }
  }
}
