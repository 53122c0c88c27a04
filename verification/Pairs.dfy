// Key-value pairs in ascending key order: the shape of a memtable's bottom
// list, of a table's content and of a compaction's output.
module Pairs {
  import opened Options

  datatype Pair = Pair(key: nat, val: string)

  // The tombstone written by a deletion.
  const DEL := "~DELETED~"

  predicate Ascending(s: seq<Pair>) {
    forall i, j :: 0 <= i < j < |s| ==> s[i].key < s[j].key
  }

  // Linear lookup.
  function Find(s: seq<Pair>, k: nat): (r: Option<string>)
    ensures r.Some? ==> exists i :: 0 <= i < |s| && s[i] == Pair(k, r.value)
    ensures r.None? ==> forall i :: 0 <= i < |s| ==> s[i].key != k
  {
    if s == [] then None
    else if s[0].key == k then Some(s[0].val)
    else
      var rest := Find(s[1..], k);
      assert rest.Some? ==> exists i :: 0 <= i < |s[1..]| && s[1..][i] == Pair(k, rest.value) && s[i + 1] == s[1..][i];
      assert forall i :: 0 < i < |s| ==> s[i] == s[1..][i - 1];
      rest
  }

  lemma FindAt(s: seq<Pair>, i: nat)
    requires Ascending(s) && i < |s|
    ensures Find(s, s[i].key) == Some(s[i].val)
  {
    var r := Find(s, s[i].key);
    assert r.Some?;
    var j :| 0 <= j < |s| && s[j] == Pair(s[i].key, r.value);
    assert i == j;
  }

  lemma FindAppend(s: seq<Pair>, t: seq<Pair>, k: nat)
    ensures Find(s + t, k) == Find(s, k).OrElse(Find(t, k))
  {
    if s == [] {
      assert s + t == t;
    } else {
      assert (s + t)[1..] == s[1..] + t;
      FindAppend(s[1..], t, k);
    }
  }

  // Nothing is found below the first key.
  lemma FindBelow(s: seq<Pair>, k: nat)
    requires Ascending(s) && (s != [] ==> k < s[0].key)
    ensures Find(s, k) == None
  {}

  lemma FindFirst(s: seq<Pair>, k: nat)
    requires Ascending(s) && s != []
    ensures Ascending(s[1..]) && Find(s[1..], s[0].key) == None
    ensures k != s[0].key ==> Find(s, k) == Find(s[1..], k)
  {
    FindBelow(s[1..], s[0].key);
  }

  // An ascending list is determined by its lookups.
  lemma {:induction false} SameFind(a: seq<Pair>, b: seq<Pair>)
    requires Ascending(a) && Ascending(b)
    requires forall k :: Find(a, k) == Find(b, k)
    ensures a == b
  {
    if a != [] && b != [] {
      FindAt(a, 0);
      FindAt(b, 0);
      assert Find(b, a[0].key).Some? && Find(a, b[0].key).Some?;
      assert a[0] == b[0];
      forall k ensures Find(a[1..], k) == Find(b[1..], k) {
        assert Find(a, k) == Find(b, k);
        FindFirst(a, k);
        FindFirst(b, k);
      }
      SameFind(a[1..], b[1..]);
    } else if a != [] || b != [] {
      var k := if a != [] then a[0].key else b[0].key;
      assert Find(a, k) != Find(b, k);
    }
  }

  // Insertion or replacement of one key.
  function Insert(s: seq<Pair>, k: nat, v: string): (r: seq<Pair>)
    ensures |r| <= |s| + 1
    ensures r != []
  {
    if s == [] || k < s[0].key then [Pair(k, v)] + s
    else if s[0].key == k then [Pair(k, v)] + s[1..]
    else [s[0]] + Insert(s[1..], k, v)
  }

  lemma {:induction false} InsertMembers(s: seq<Pair>, k: nat, v: string)
    ensures forall i :: 0 <= i < |Insert(s, k, v)| ==> Insert(s, k, v)[i] == Pair(k, v) || Insert(s, k, v)[i] in s
  {
    var r := Insert(s, k, v);
    if s != [] && s[0].key < k {
      InsertMembers(s[1..], k, v);
      forall i | 0 <= i < |r| ensures r[i] == Pair(k, v) || r[i] in s {
        if i > 0 { assert r[i] == Insert(s[1..], k, v)[i - 1]; }
      }
    }
  }

  lemma {:induction false} InsertAscending(s: seq<Pair>, k: nat, v: string)
    requires Ascending(s)
    ensures Ascending(Insert(s, k, v))
  {
    var r := Insert(s, k, v);
    if s != [] && s[0].key < k {
      var rest := Insert(s[1..], k, v);
      InsertAscending(s[1..], k, v);
      InsertMembers(s[1..], k, v);
      hide Insert;
      assert r == [s[0]] + rest;
      forall j | 0 <= j < |rest| ensures s[0].key < rest[j].key {}
    }
  }

  lemma {:induction false} InsertFind(s: seq<Pair>, k: nat, v: string, q: nat)
    requires Ascending(s)
    ensures Find(Insert(s, k, v), q) == if q == k then Some(v) else Find(s, q)
  {
    var r := Insert(s, k, v);
    if s == [] || k < s[0].key {
      assert r[1..] == s;
    } else if s[0].key == k {
      assert r[1..] == s[1..];
    } else {
      InsertFind(s[1..], k, v, q);
      assert r[1..] == Insert(s[1..], k, v);
    }
  }

  lemma InsertIsUpdate(s: seq<Pair>, k: nat, v: string)
    requires Ascending(s)
    ensures Ascending(Insert(s, k, v))
    ensures forall q :: Find(Insert(s, k, v), q) == if q == k then Some(v) else Find(s, q)
    ensures forall i :: 0 <= i < |Insert(s, k, v)| ==> Insert(s, k, v)[i] == Pair(k, v) || Insert(s, k, v)[i] in s
  {
    InsertAscending(s, k, v);
    InsertMembers(s, k, v);
    forall q ensures Find(Insert(s, k, v), q) == if q == k then Some(v) else Find(s, q) { InsertFind(s, k, v, q); }
  }

  // Two-way merge in which the second, newer list wins.
  function Override(a: seq<Pair>, b: seq<Pair>): (r: seq<Pair>)
    ensures |r| <= |a| + |b|
    ensures forall i :: 0 <= i < |r| ==> r[i] in a || r[i] in b
    decreases |a| + |b|
  {
    if a == [] then b
    else if b == [] then a
    else if a[0].key < b[0].key then [a[0]] + Override(a[1..], b)
    else if a[0].key == b[0].key then [b[0]] + Override(a[1..], b[1..])
    else [b[0]] + Override(a, b[1..])
  }

  lemma {:induction false} OverrideAscending(a: seq<Pair>, b: seq<Pair>)
    requires Ascending(a) && Ascending(b)
    ensures Ascending(Override(a, b))
    decreases |a| + |b|
  {
    if a != [] && b != [] {
      var first := if a[0].key < b[0].key then a[0] else b[0];
      var a1 := if a[0].key <= b[0].key then a[1..] else a;
      var b1 := if b[0].key <= a[0].key then b[1..] else b;
      OverrideAscending(a1, b1);
      var rest := Override(a1, b1);
      assert Override(a, b) == [first] + rest;
      OverrideAbove(a1, b1, first.key);
      hide Override;
      PrependAscending(first, rest);
    }
  }

  lemma OverrideAbove(a: seq<Pair>, b: seq<Pair>, k: nat)
    requires (forall i :: 0 <= i < |a| ==> k < a[i].key) && forall i :: 0 <= i < |b| ==> k < b[i].key
    ensures forall i :: 0 <= i < |Override(a, b)| ==> k < Override(a, b)[i].key
  {
    var r := Override(a, b);
    hide Override;
    forall i | 0 <= i < |r| ensures k < r[i].key { assert r[i] in a || r[i] in b; }
  }

  lemma PrependAscending(p: Pair, s: seq<Pair>)
    requires Ascending(s) && forall i :: 0 <= i < |s| ==> p.key < s[i].key
    ensures Ascending([p] + s)
  {}

  // The merged list holds the newer value of a key both lists hold.
  lemma {:induction false} OverrideFind(a: seq<Pair>, b: seq<Pair>, k: nat)
    requires Ascending(a) && Ascending(b)
    ensures Find(Override(a, b), k) == Find(b, k).OrElse(Find(a, k))
    decreases |a| + |b|
  {
    if a != [] && b != [] {
      var a1 := if a[0].key <= b[0].key then a[1..] else a;
      var b1 := if b[0].key <= a[0].key then b[1..] else b;
      assert Override(a, b)[1..] == Override(a1, b1);
      OverrideFind(a1, b1, k);
      FindFirst(a, k);
      FindFirst(b, k);
      if k < a[0].key { FindBelow(a, k); }
      if k < b[0].key { FindBelow(b, k); }
    }
  }
}
