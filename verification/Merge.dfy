// The k-way merge of a compaction: what it must produce, and the loop over
// one cursor per source and an ordered map of head keys that produces it.
module Merge {
  import opened Options
  import opened Counting
  import opened Pairs

  const TABLE_SIZE := 64 * 1024 * 1024
  const INITIAL_SIZE := 7 * 4 + 1024 * 1024

  // ---------- What a merge produces ----------

  // The sources are ordered oldest first; a key takes the value of the last
  // source that holds it.
  function Newest(src: seq<seq<Pair>>, k: nat): Option<string> {
    if src == [] then None
    else Find(src[|src| - 1], k).OrElse(Newest(src[..|src| - 1], k))
  }

  function Merged(src: seq<seq<Pair>>): (r: seq<Pair>)
    ensures |r| <= TotalPairs(src)
  {
    if src == [] then [] else Override(Merged(src[..|src| - 1]), src[|src| - 1])
  }

  function TotalPairs(src: seq<seq<Pair>>): nat {
    if src == [] then 0 else TotalPairs(src[..|src| - 1]) + |src[|src| - 1]|
  }

  function WithoutTombstones(s: seq<Pair>): (r: seq<Pair>)
    ensures |r| <= |s|
    ensures forall p :: p in r ==> p in s && p.val != DEL
  {
    if s == [] then []
    else if s[0].val == DEL then WithoutTombstones(s[1..])
    else [s[0]] + WithoutTombstones(s[1..])
  }

  function MergeResult(src: seq<seq<Pair>>, lastLevel: bool): (r: seq<Pair>)
    ensures |r| <= TotalPairs(src)
  {
    if lastLevel then WithoutTombstones(Merged(src)) else Merged(src)
  }

  // A lookup result once tombstones are dropped.
  function Kept(o: Option<string>, lastLevel: bool): Option<string> {
    if lastLevel && o == Some(DEL) then None else o
  }

  ghost predicate AllAscending(src: seq<seq<Pair>>) {
    forall i :: 0 <= i < |src| ==> Ascending(src[i])
  }

  ghost predicate HasKey(s: seq<Pair>, k: nat) {
    exists i :: 0 <= i < |s| && s[i].key == k
  }

  lemma {:induction false} MergedCorrect(src: seq<seq<Pair>>)
    requires AllAscending(src)
    ensures Ascending(Merged(src))
    ensures forall k :: Find(Merged(src), k) == Newest(src, k)
  {
    if src != [] {
      var rest, last := src[..|src| - 1], src[|src| - 1];
      MergedCorrect(rest);
      OverrideAscending(Merged(rest), last);
      forall k ensures Find(Merged(src), k) == Newest(src, k) {
        OverrideFind(Merged(rest), last, k);
      }
    }
  }

  lemma {:induction false} WithoutTombstonesCorrect(s: seq<Pair>)
    requires Ascending(s)
    ensures Ascending(WithoutTombstones(s))
    ensures forall k :: Find(WithoutTombstones(s), k) == Kept(Find(s, k), true)
  {
    if s != [] {
      WithoutTombstonesCorrect(s[1..]);
      var r := WithoutTombstones(s);
      if s[0].val != DEL { assert r[1..] == WithoutTombstones(s[1..]); }
      forall i, j | 0 <= i < j < |r| ensures r[i].key < r[j].key {
        if s[0].val != DEL && i == 0 { assert r[j] == r[1..][j - 1] && r[j] in s[1..]; }
      }
      forall k ensures Find(r, k) == Kept(Find(s, k), true) {
        FindFirst(s, k);
        FindBelow(s[1..], s[0].key);
      }
    }
  }

  // The output of a compaction: strictly ascending keys, exactly those of the
  // union of the sources, each with the value of the newest source holding
  // it, minus the tombstones exactly when merging into the last level.
  lemma MergeResultCorrect(src: seq<seq<Pair>>, lastLevel: bool)
    requires AllAscending(src)
    ensures Ascending(MergeResult(src, lastLevel))
    ensures forall k :: Find(MergeResult(src, lastLevel), k) == Kept(Newest(src, k), lastLevel)
  {
    MergedCorrect(src);
    WithoutTombstonesCorrect(Merged(src));
  }

  // Which source wins: the last one that has the key.
  lemma {:induction false} NewestIs(src: seq<seq<Pair>>, h: nat, k: nat)
    requires h < |src| && HasKey(src[h], k)
    requires forall i :: h < i < |src| ==> !HasKey(src[i], k)
    ensures Newest(src, k) == Find(src[h], k) && Find(src[h], k).Some?
    decreases |src|
  {
    var last := src[|src| - 1];
    if h < |src| - 1 {
      assert !HasKey(last, k);
      assert Find(last, k).None?;
      NewestIs(src[..|src| - 1], h, k);
    } else {
      assert Find(last, k).Some?;
    }
  }

  lemma {:induction false} NewestNone(src: seq<seq<Pair>>, k: nat)
    requires forall i :: 0 <= i < |src| ==> !HasKey(src[i], k)
    ensures Newest(src, k) == None
  {
    if src != [] {
      assert !HasKey(src[|src| - 1], k);
      assert Find(src[|src| - 1], k).None?;
      NewestNone(src[..|src| - 1], k);
    }
  }

  lemma {:induction false} NewestMember(src: seq<seq<Pair>>, k: nat)
    ensures Newest(src, k).Some? ==> exists i :: 0 <= i < |src| && Pair(k, Newest(src, k).value) in src[i]
  {
    if src != [] {
      var rest := src[..|src| - 1];
      NewestMember(rest, k);
      if Find(src[|src| - 1], k).None? && Newest(rest, k).Some? {
        var i :| 0 <= i < |rest| && Pair(k, Newest(rest, k).value) in rest[i];
        assert src[i] == rest[i];
      }
    }
  }

  // ---------- Packing the output into tables ----------

  function PairBytes(p: Pair): nat { |p.val| + 1 + 12 }

  function Bytes(s: seq<Pair>): nat {
    if s == [] then INITIAL_SIZE else Bytes(s[..|s| - 1]) + PairBytes(s[|s| - 1])
  }

  // A value is not empty and fits in a table of its own.
  predicate Fits(p: Pair) { p.val != "" && INITIAL_SIZE + PairBytes(p) <= TABLE_SIZE }

  ghost predicate AllFit(s: seq<Pair>) { forall p :: p in s ==> Fits(p) }

  // Tables already written, and the one being filled.
  datatype Packing = Packing(written: seq<seq<Pair>>, open: seq<Pair>) {
    function Add(p: Pair): Packing {
      if Bytes(open) + PairBytes(p) > TABLE_SIZE then Packing(written + [open], [p])
      else Packing(written, open + [p])
    }
    function Close(): seq<seq<Pair>> {
      if open == [] then written else written + [open]
    }
  }

  function PackAll(s: seq<Pair>): Packing {
    if s == [] then Packing([], []) else PackAll(s[..|s| - 1]).Add(s[|s| - 1])
  }

  function Pack(s: seq<Pair>): seq<seq<Pair>> { PackAll(s).Close() }

  function Flatten(tables: seq<seq<Pair>>): seq<Pair> {
    if tables == [] then [] else Flatten(tables[..|tables| - 1]) + tables[|tables| - 1]
  }

  ghost predicate GoodTable(t: seq<Pair>) { t != [] && Bytes(t) <= TABLE_SIZE }

  // The table could not have taken the first pair of its successor.
  ghost predicate FullBefore(t: seq<Pair>, next: seq<Pair>) {
    next != [] && Bytes(t) + PairBytes(next[0]) > TABLE_SIZE
  }

  ghost predicate WellPacked(tables: seq<seq<Pair>>) {
    && (forall i :: 0 <= i < |tables| ==> GoodTable(tables[i]))
    && (forall i :: 0 <= i < |tables| - 1 ==> FullBefore(tables[i], tables[i + 1]))
  }

  lemma WellPackedAppend(tables: seq<seq<Pair>>, t: seq<Pair>)
    requires WellPacked(tables) && GoodTable(t)
    requires tables != [] ==> FullBefore(tables[|tables| - 1], t)
    ensures WellPacked(tables + [t])
  {}

  lemma WellPackedReplaceLast(tables: seq<seq<Pair>>, t: seq<Pair>, u: seq<Pair>)
    requires WellPacked(tables + [t]) && t != [] && GoodTable(u) && u[0] == t[0]
    ensures WellPacked(tables + [u])
  {
    var before := tables + [t];
    assert before[|tables|] == t && GoodTable(t);
    assert forall i :: 0 <= i < |tables| ==> before[i] == tables[i] && GoodTable(before[i]);
    forall i | 0 <= i < |tables| ensures FullBefore(tables[i], (tables + [u])[i + 1]) {
      assert FullBefore(before[i], before[i + 1]);
    }
  }

  lemma BytesAppend(s: seq<Pair>, p: Pair)
    ensures Bytes(s + [p]) == Bytes(s) + PairBytes(p)
  {
    assert (s + [p])[..|s|] == s;
  }

  lemma FlattenAppend(tables: seq<seq<Pair>>, last: seq<Pair>)
    ensures Flatten(tables + [last]) == Flatten(tables) + last
  {
    assert (tables + [last])[..|tables|] == tables;
  }

  // One more pair keeps what has been packed so far in order.
  ghost predicate PackingOf(pk: Packing, s: seq<Pair>) {
    && WellPacked(pk.Close())
    && Flatten(pk.written) + pk.open == s
    && Bytes(pk.open) <= TABLE_SIZE
    && (pk.open == [] ==> pk.written == [])
  }

  lemma AddKeepsPacking(pk: Packing, s: seq<Pair>, p: Pair)
    requires PackingOf(pk, s) && Fits(p)
    ensures PackingOf(pk.Add(p), s + [p])
  {
    BytesAppend(pk.open, p);
    if Bytes(pk.open) + PairBytes(p) > TABLE_SIZE {
      assert pk.open != [];
      FlattenAppend(pk.written, pk.open);
      BytesAppend([], p);
      assert [] + [p] == [p];
      WellPackedAppend(pk.Close(), [p]);
    } else {
      if pk.open == [] {
        assert pk.written == [] && [] + [p] == [p];
        WellPackedAppend([], [p]);
      } else {
        assert GoodTable(pk.open + [p]);
        WellPackedReplaceLast(pk.written, pk.open, pk.open + [p]);
      }
      assert Flatten(pk.written) + (pk.open + [p]) == s + [p];
    }
  }

  lemma {:induction false} PackAllCorrect(s: seq<Pair>)
    requires AllFit(s)
    ensures PackingOf(PackAll(s), s)
  {
    if s != [] {
      var rest, p := s[..|s| - 1], s[|s| - 1];
      assert p in s && forall q :: q in rest ==> q in s;
      PackAllCorrect(rest);
      AddKeepsPacking(PackAll(rest), rest, p);
      assert rest + [p] == s;
    }
  }

  // The tables a compaction writes hold exactly the merged pairs, in order.
  lemma PackCorrect(s: seq<Pair>)
    requires AllFit(s)
    ensures WellPacked(Pack(s)) && Flatten(Pack(s)) == s
  {
    PackAllCorrect(s);
    var pk := PackAll(s);
    if pk.open != [] { FlattenAppend(pk.written, pk.open); }
  }

  // ---------- The merge loop ----------

  // A key of `head` leads to the source whose cursor is at it.
  ghost predicate HeadAt(src: seq<seq<Pair>>, cursor: seq<nat>, out: set<nat>, k: nat, i: nat)
    requires |cursor| == |src|
  {
    i < |src| && i !in out && cursor[i] < |src[i]| && src[i][cursor[i]].key == k
  }

  // A source whose cursor is at a key that `head` leads back from.
  ghost predicate IsHead(src: seq<seq<Pair>>, cursor: seq<nat>, head: map<nat, nat>, i: nat)
    requires i < |src| == |cursor| && cursor[i] < |src[i]|
  {
    src[i][cursor[i]].key in head && head[src[i][cursor[i]].key] == i
  }

  // `head` is a bijection between the sources outside `out` that are not
  // exhausted and the keys their cursors are at.
  ghost predicate Registered(src: seq<seq<Pair>>, cursor: seq<nat>, head: map<nat, nat>, out: set<nat>) {
    && |cursor| == |src|
    && (forall i :: 0 <= i < |src| ==> cursor[i] <= |src[i]|)
    && (forall k :: k in head ==> HeadAt(src, cursor, out, k, head[k]))
    && (forall i :: 0 <= i < |src| && i !in out && cursor[i] < |src[i]| ==> IsHead(src, cursor, head, i))
  }

  // The entry was emitted, or a newer source is about to emit its key.
  ghost predicate Passed(head: map<nat, nat>, last: int, i: nat, k: nat) {
    k <= last || (k in head && head[k] > i)
  }

  ghost predicate Superseded(src: seq<seq<Pair>>, cursor: seq<nat>, head: map<nat, nat>, last: int) {
    && |cursor| == |src|
    && (forall i, j :: 0 <= i < |src| && 0 <= j < cursor[i] && j < |src[i]| ==> Passed(head, last, i, src[i][j].key))
  }

  // Nothing at or below `last` is still to come.
  ghost predicate Ahead(src: seq<seq<Pair>>, cursor: seq<nat>, last: int) {
    && |cursor| == |src|
    && (forall i, j :: 0 <= i < |src| && cursor[i] <= j < |src[i]| ==> src[i][j].key > last)
  }

  // The three moves of a source looking for a head: its key is free,
  lemma RegisterFree(src: seq<seq<Pair>>, cursor: seq<nat>, head: map<nat, nat>, out: set<nat>, last: int, index: nat)
    requires Registered(src, cursor, head, out) && Superseded(src, cursor, head, last)
    requires index < |src| && index in out && cursor[index] < |src[index]|
    requires src[index][cursor[index]].key !in head
    ensures var h := head[src[index][cursor[index]].key := index];
            Registered(src, cursor, h, out - {index}) && Superseded(src, cursor, h, last)
  {
    var h := head[src[index][cursor[index]].key := index];
    forall i, j | 0 <= i < |src| && 0 <= j < cursor[i] && j < |src[i]| ensures Passed(h, last, i, src[i][j].key) {
      assert Passed(head, last, i, src[i][j].key);
    }
    forall i | 0 <= i < |src| && i !in out - {index} && cursor[i] < |src[i]| ensures IsHead(src, cursor, h, i) {
      if i != index { assert IsHead(src, cursor, head, i); }
    }
    forall k | k in h ensures HeadAt(src, cursor, out - {index}, k, h[k]) {
      if k in head { assert HeadAt(src, cursor, out, k, head[k]); }
    }
  }

  lemma Exhausted(src: seq<seq<Pair>>, cursor: seq<nat>, head: map<nat, nat>, index: nat, out: set<nat>)
    requires Registered(src, cursor, head, out)
    requires index < |src| && index in out && cursor[index] == |src[index]|
    ensures Registered(src, cursor, head, out - {index})
  {
    forall k | k in head ensures HeadAt(src, cursor, out - {index}, k, head[k]) {
      assert HeadAt(src, cursor, out, k, head[k]);
    }
  }

  // or an older source has it and must give it up,
  lemma TakeOver(src: seq<seq<Pair>>, cursor: seq<nat>, head: map<nat, nat>, out: set<nat>, last: int, index: nat)
    requires Registered(src, cursor, head, out) && Superseded(src, cursor, head, last)
    requires index < |src| && index in out && cursor[index] < |src[index]|
    requires src[index][cursor[index]].key in head && head[src[index][cursor[index]].key] < index
    ensures var k := src[index][cursor[index]].key; var h := head[k := index];
            && head[k] < |src| && head[k] !in out
            && Registered(src, cursor, h, out - {index} + {head[k]}) && Superseded(src, cursor, h, last)
  {
    var k := src[index][cursor[index]].key;
    var h, pos := head[k := index], head[k];
    assert HeadAt(src, cursor, out, k, pos);
    var out' := out - {index} + {pos};
    forall i, j | 0 <= i < |src| && 0 <= j < cursor[i] && j < |src[i]| ensures Passed(h, last, i, src[i][j].key) {
      assert Passed(head, last, i, src[i][j].key);
    }
    forall i | 0 <= i < |src| && i !in out' && cursor[i] < |src[i]| ensures IsHead(src, cursor, h, i) {
      if i != index { assert IsHead(src, cursor, head, i); }
    }
    forall q | q in h ensures HeadAt(src, cursor, out', q, h[q]) {
      if q != k {
        assert HeadAt(src, cursor, out, q, head[q]);
        assert head[q] != pos;
      }
    }
  }

  // or a newer source has it and the entry is skipped.
  lemma SkipOne(src: seq<seq<Pair>>, cursor: seq<nat>, head: map<nat, nat>, out: set<nat>, last: int, index: nat)
    requires Registered(src, cursor, head, out) && Superseded(src, cursor, head, last)
    requires index < |src| && index in out && cursor[index] < |src[index]|
    requires src[index][cursor[index]].key in head && head[src[index][cursor[index]].key] > index
    ensures var c := cursor[index := cursor[index] + 1];
            Registered(src, c, head, out) && Superseded(src, c, head, last)
  {
    var c := cursor[index := cursor[index] + 1];
    forall i, j | 0 <= i < |src| && 0 <= j < c[i] && j < |src[i]| ensures Passed(head, last, i, src[i][j].key) {
      if j < cursor[i] { assert Passed(head, last, i, src[i][j].key); }
    }
    forall i | 0 <= i < |src| && i !in out && c[i] < |src[i]| ensures IsHead(src, c, head, i) {
      assert IsHead(src, cursor, head, i);
    }
    forall k | k in head ensures HeadAt(src, c, out, k, head[k]) {
      assert HeadAt(src, cursor, out, k, head[k]);
    }
  }

  lemma LeastExists(s: set<nat>)
    requires s != {}
    ensures exists k :: k in s && forall q :: q in s ==> k <= q
  {
    var x :| x in s;
    if s != {x} {
      LeastExists(s - {x});
      var y :| y in s - {x} && forall q :: q in s - {x} ==> y <= q;
      var k := if x < y then x else y;
      assert k in s && forall q :: q in s ==> k <= q by {
        assert forall q :: q in s ==> q == x || q in s - {x};
      }
    }
  }

  // The first key of an ordered map.
  function Least(s: set<nat>): (k: nat)
    requires s != {}
    ensures k in s && forall q :: q in s ==> k <= q
  {
    LeastExists(s);
    var k :| k in s && forall q :: q in s ==> k <= q;
    k
  }

  // An entry still to come is at or after its source's head.
  lemma NotBeforeHead(src: seq<seq<Pair>>, cursor: seq<nat>, head: map<nat, nat>, i: nat, j: nat)
    requires AllAscending(src) && Registered(src, cursor, head, {})
    requires i < |src| && cursor[i] <= j < |src[i]|
    ensures IsHead(src, cursor, head, i) && src[i][cursor[i]].key <= src[i][j].key
    ensures src[i][cursor[i]].key == src[i][j].key ==> j == cursor[i]
  {
    assert Ascending(src[i]);
  }

  // The source registered for the least head key is the newest that has it.
  lemma LeastHeadIsNewest(src: seq<seq<Pair>>, cursor: seq<nat>, head: map<nat, nat>, last: int)
    requires AllAscending(src)
    requires Registered(src, cursor, head, {}) && Superseded(src, cursor, head, last) && Ahead(src, cursor, last)
    requires head.Keys != {}
    ensures var k := Least(head.Keys); var h := head[k];
            && HeadAt(src, cursor, {}, k, h)
            && k > last
            && Newest(src, k) == Some(src[h][cursor[h]].val)
  {
    var k := Least(head.Keys);
    var h := head[k];
    assert HeadAt(src, cursor, {}, k, h);
    forall i, j | h < i < |src| && 0 <= j < |src[i]| ensures src[i][j].key != k {
      if j < cursor[i] {
        assert Passed(head, last, i, src[i][j].key);
      } else {
        NotBeforeHead(src, cursor, head, i, j);
        assert src[i][cursor[i]].key in head.Keys;
      }
    }
    assert HasKey(src[h], k);
    NewestIs(src, h, k);
    assert Ascending(src[h]);
    FindAt(src[h], cursor[h]);
  }

  // No source has a key strictly between the last emitted one and the least head.
  lemma NothingBetween(src: seq<seq<Pair>>, cursor: seq<nat>, head: map<nat, nat>, last: int, k: nat)
    requires AllAscending(src)
    requires Registered(src, cursor, head, {}) && Superseded(src, cursor, head, last)
    requires last < k && forall q :: q in head ==> k < q
    ensures Newest(src, k) == None
  {
    forall i, j | 0 <= i < |src| && 0 <= j < |src[i]| ensures src[i][j].key != k {
      if j < cursor[i] {
        assert Passed(head, last, i, src[i][j].key);
      } else {
        NotBeforeHead(src, cursor, head, i, j);
      }
    }
    NewestNone(src, k);
  }

  lemma CursorAt(src: seq<seq<Pair>>, cursor: seq<nat>, head: map<nat, nat>, out: set<nat>, i: nat)
    requires Registered(src, cursor, head, out) && i < |src|
    ensures |cursor| == |src| && cursor[i] <= |src[i]|
    ensures cursor[i] < |src[i]| && src[i][cursor[i]].key in head ==>
              var pos := head[src[i][cursor[i]].key]; pos < |src| && pos !in out
  {
    if cursor[i] < |src[i]| && src[i][cursor[i]].key in head {
      assert HeadAt(src, cursor, out, src[i][cursor[i]].key, head[src[i][cursor[i]].key]);
    }
  }

  lemma HeadFacts(src: seq<seq<Pair>>, cursor: seq<nat>, out: set<nat>, k: nat, i: nat)
    requires |cursor| == |src| && HeadAt(src, cursor, out, k, i)
    ensures i < |src| && cursor[i] < |src[i]| && src[i][cursor[i]].key == k
  {}

  lemma AheadNext(src: seq<seq<Pair>>, cursor: seq<nat>, last: int, i: nat)
    requires Ahead(src, cursor, last) && i < |src| && i < |cursor|
    ensures Ahead(src, cursor[i := cursor[i] + 1], last)
  {}

  // Taking the least head away and moving its cursor leaves only that source
  // to be registered again.
  lemma StepKeepsInvariant(src: seq<seq<Pair>>, cursor: seq<nat>, head: map<nat, nat>, last: int)
    requires AllAscending(src)
    requires Registered(src, cursor, head, {}) && Superseded(src, cursor, head, last) && Ahead(src, cursor, last)
    requires head.Keys != {}
    ensures var k := Least(head.Keys); var h := head[k]; var c := cursor[h := cursor[h] + 1];
            && Registered(src, c, head - {k}, {h})
            && Superseded(src, c, head - {k}, k)
            && Ahead(src, c, k)
  {
    var k := Least(head.Keys);
    var h, rest := head[k], head - {k};
    assert HeadAt(src, cursor, {}, k, h);
    var c := cursor[h := cursor[h] + 1];
    forall i, j | 0 <= i < |src| && c[i] <= j < |src[i]| ensures src[i][j].key > k {
      NotBeforeHead(src, cursor, head, i, j);
      assert src[i][cursor[i]].key in head.Keys;
    }
    forall i, j | 0 <= i < |src| && 0 <= j < c[i] && j < |src[i]| ensures Passed(rest, k, i, src[i][j].key) {
      if j < cursor[i] {
        assert Passed(head, last, i, src[i][j].key);
        assert last < k by { assert src[h][cursor[h]].key == k; }
      }
    }
    forall i | 0 <= i < |src| && i !in {h} && c[i] < |src[i]| ensures IsHead(src, c, rest, i) {
      assert IsHead(src, cursor, head, i);
    }
    forall q | q in rest ensures HeadAt(src, c, {h}, q, rest[q]) {
      assert HeadAt(src, cursor, {}, q, head[q]);
    }
  }
  class Merger {
    const src: seq<seq<Pair>>
    var cursor: seq<nat>
    var head: map<nat, nat>

    ghost predicate Valid(last: int)
      reads this
    {
      && AllAscending(src)
      && Registered(src, cursor, head, {})
      && Superseded(src, cursor, head, last)
      && Ahead(src, cursor, last)
    }

    // Registers the head of every source, from the newest down.
    constructor (src: seq<seq<Pair>>)
      requires AllAscending(src)
      ensures this.src == src && Valid(-1)
    {
      this.src := src;
      cursor := seq(|src|, _ => 0);
      head := map[];
      new;
      var i := |src|;
      while i > 0
        invariant 0 <= i <= |src|
        invariant Registered(src, cursor, head, Below(i)) && Superseded(src, cursor, head, -1)
        invariant forall x :: 0 <= x < i ==> cursor[x] == 0
      {
        i := i - 1;
        RegisterFirst(i);
      }
      assert Below(0) == {};
    }

    // A key that a newer source already has is passed over.
    method RegisterFirst(i: nat)
      requires i < |src|
      requires Registered(src, cursor, head, Below(i + 1)) && Superseded(src, cursor, head, -1)
      modifies this
      ensures Registered(src, cursor, head, Below(i)) && Superseded(src, cursor, head, -1)
      ensures forall x :: 0 <= x < i ==> cursor[x] == old(cursor[x])
    {
      hide *;
      CursorAt(src, cursor, head, Below(i + 1), i);
      while cursor[i] < |src[i]|
        invariant |cursor| == |src| && cursor[i] <= |src[i]|
        invariant Registered(src, cursor, head, Below(i + 1)) && Superseded(src, cursor, head, -1)
        invariant forall x :: 0 <= x < i ==> cursor[x] == old(cursor[x])
        decreases |src[i]| - cursor[i]
      {
        var k := src[i][cursor[i]].key;
        if k !in head {
          RegisterFree(src, cursor, head, Below(i + 1), -1, i);
          assert Below(i + 1) - {i} == Below(i);
          head := head[k := i];
          return;
        }
        CursorAt(src, cursor, head, Below(i + 1), i);
        SkipOne(src, cursor, head, Below(i + 1), -1, i);
        cursor := cursor[i := cursor[i] + 1];
        CursorAt(src, cursor, head, Below(i + 1), i);
      }
      Exhausted(src, cursor, head, i, Below(i + 1));
      assert Below(i + 1) - {i} == Below(i);
    }

    // Finds a new head for a source whose cursor has just moved. A key it
    // shares with an older source is taken from that source, which then has
    // to find another head.
    method Update(index: nat, ghost last: int)
      requires AllAscending(src) && index < |src|
      requires Registered(src, cursor, head, {index})
      requires Superseded(src, cursor, head, last)
      requires Ahead(src, cursor, last)
      modifies this
      ensures Valid(last)
      ensures forall i :: 0 <= i < |src| ==> cursor[i] >= old(cursor[i])
      ensures forall i :: index < i < |src| ==> cursor[i] == old(cursor[i])
      ensures forall k :: k in old(head) ==> k in head && head[k] >= old(head[k])
      decreases index
    {
      hide *;
      CursorAt(src, cursor, head, {index}, index);
      while cursor[index] < |src[index]|
        invariant |cursor| == |src| && cursor[index] <= |src[index]|
        invariant Registered(src, cursor, head, {index})
        invariant Superseded(src, cursor, head, last)
        invariant Ahead(src, cursor, last)
        invariant head == old(head)
        invariant forall i :: 0 <= i < |src| && i != index ==> cursor[i] == old(cursor[i])
        invariant cursor[index] >= old(cursor[index])
        decreases |src[index]| - cursor[index]
      {
        CursorAt(src, cursor, head, {index}, index);
        var select := src[index][cursor[index]].key;
        if select !in head {
          RegisterFree(src, cursor, head, {index}, last, index);
          assert {index} - {index} == {};
          head := head[select := index];
          ValidFrom(last);
          return;
        } else if index > head[select] {
          var pos := head[select];
          TakeOver(src, cursor, head, {index}, last, index);
          assert {index} - {index} + {pos} == {pos};
          head := head[select := index];
          Update(pos, last);
          return;
        }
        SkipOne(src, cursor, head, {index}, last, index);
        AheadNext(src, cursor, last, index);
        cursor := cursor[index := cursor[index] + 1];
        CursorAt(src, cursor, head, {index}, index);
      }
      Exhausted(src, cursor, head, index, {index});
      assert {index} - {index} == {};
      ValidFrom(last);
    }

    lemma ValidFrom(last: int)
      requires AllAscending(src) && Registered(src, cursor, head, {})
      requires Superseded(src, cursor, head, last) && Ahead(src, cursor, last)
      ensures Valid(last)
    {}

    lemma ValidParts(last: int)
      requires Valid(last)
      ensures AllAscending(src) && Registered(src, cursor, head, {})
      ensures Superseded(src, cursor, head, last) && Ahead(src, cursor, last)
    {}

    // Takes the pair with the least head key.
    method Next(ghost last: int) returns (p: Pair)
      requires Valid(last) && head != map[]
      modifies this
      ensures Valid(p.key)
      ensures p.key > last && Newest(src, p.key) == Some(p.val)
      ensures forall k: nat :: last < k < p.key ==> Newest(src, k) == None
      ensures exists i :: 0 <= i < |src| && p in src[i]
      ensures forall i :: 0 <= i < |src| ==> cursor[i] >= old(cursor[i])
      ensures exists i :: 0 <= i < |src| && cursor[i] > old(cursor[i])
    {
      hide *;
      ValidParts(last);
      assert head.Keys != {} by { var k :| k in head; assert k in head.Keys; }
      var tempKey := Least(head.Keys);
      var index := head[tempKey];
      LeastHeadIsNewest(src, cursor, head, last);
      HeadFacts(src, cursor, {}, tempKey, index);
      forall k: nat | last < k < tempKey ensures Newest(src, k) == None {
        NothingBetween(src, cursor, head, last, k);
      }
      p := src[index][cursor[index]];
      assert p in src[index];
      StepKeepsInvariant(src, cursor, head, last);
      head := head - {tempKey};
      cursor := cursor[index := cursor[index] + 1];
      Update(index, tempKey);
      ValidParts(tempKey);
      CursorAt(src, cursor, head, {}, index);
      assert cursor[index] > old(cursor[index]);
    }
  }

  // What the loop has emitted once every key up to `last` is dealt with.
  ghost predicate EmittedUpTo(src: seq<seq<Pair>>, lastLevel: bool, out: seq<Pair>, last: int) {
    && Ascending(out)
    && (forall p :: p in out ==> p.key <= last)
    && (forall k: nat :: k <= last ==> Find(out, k) == Kept(Newest(src, k), lastLevel))
  }

  lemma NothingAbove(out: seq<Pair>, last: int)
    requires forall p :: p in out ==> p.key <= last
    ensures forall k: nat :: k > last ==> Find(out, k) == None
  {}

  lemma EmitKey(src: seq<seq<Pair>>, lastLevel: bool, out: seq<Pair>, last: int, p: Pair, k: nat)
    requires EmittedUpTo(src, lastLevel, out, last) && k <= p.key
    requires p.key > last && Newest(src, p.key) == Some(p.val)
    requires last < k < p.key ==> Newest(src, k) == None
    ensures Find(if lastLevel && p.val == DEL then out else out + [p], k) == Kept(Newest(src, k), lastLevel)
  {
    NothingAbove(out, last);
    FindAppend(out, [p], k);
    assert Find([p], k) == if k == p.key then Some(p.val) else None;
    hide Find, Newest, Ascending;
  }

  lemma EmitOne(src: seq<seq<Pair>>, lastLevel: bool, out: seq<Pair>, last: int, p: Pair)
    requires EmittedUpTo(src, lastLevel, out, last)
    requires p.key > last && Newest(src, p.key) == Some(p.val)
    requires forall k: nat :: last < k < p.key ==> Newest(src, k) == None
    ensures EmittedUpTo(src, lastLevel, if lastLevel && p.val == DEL then out else out + [p], p.key)
  {
    hide *;
    var next := if lastLevel && p.val == DEL then out else out + [p];
    EmittedGrows(src, lastLevel, out, last, p);
    forall k: nat | k <= p.key ensures Find(next, k) == Kept(Newest(src, k), lastLevel) {
      EmitKey(src, lastLevel, out, last, p, k);
    }
    EmittedFrom(src, lastLevel, next, p.key);
  }

  lemma EmittedGrows(src: seq<seq<Pair>>, lastLevel: bool, out: seq<Pair>, last: int, p: Pair)
    requires EmittedUpTo(src, lastLevel, out, last) && p.key > last
    ensures Ascending(out) && Ascending(out + [p])
    ensures (forall q :: q in out ==> q.key <= p.key) && forall q :: q in out + [p] ==> q.key <= p.key
  {
    hide Find, Newest, Kept;
    assert forall i :: 0 <= i < |out| ==> out[i] in out;
  }

  lemma EmittedFrom(src: seq<seq<Pair>>, lastLevel: bool, out: seq<Pair>, last: int)
    requires Ascending(out) && forall p :: p in out ==> p.key <= last
    requires forall k: nat :: k <= last ==> Find(out, k) == Kept(Newest(src, k), lastLevel)
    ensures EmittedUpTo(src, lastLevel, out, last)
  {
    hide Find, Newest, Kept, Ascending;
  }

  lemma EmittedAll(src: seq<seq<Pair>>, lastLevel: bool, out: seq<Pair>, cursor: seq<nat>, last: int)
    requires AllAscending(src)
    requires Registered(src, cursor, map[], {}) && Superseded(src, cursor, map[], last)
    requires EmittedUpTo(src, lastLevel, out, last)
    ensures out == MergeResult(src, lastLevel)
  {
    MergeResultCorrect(src, lastLevel);
    forall k: nat ensures Find(out, k) == Find(MergeResult(src, lastLevel), k) {
      if k > last {
        NothingBetween(src, cursor, map[], last, k);
        NothingAbove(out, last);
      }
    }
    SameFind(out, MergeResult(src, lastLevel));
  }

  ghost function Remaining(src: seq<seq<Pair>>, cursor: seq<nat>, n: nat): nat
    requires n <= |src| == |cursor|
    requires forall i :: 0 <= i < |src| ==> cursor[i] <= |src[i]|
  {
    if n == 0 then 0 else Remaining(src, cursor, n - 1) + |src[n - 1]| - cursor[n - 1]
  }

  lemma RemainingDecreases(src: seq<seq<Pair>>, c: seq<nat>, d: seq<nat>, n: nat, h: nat)
    requires n <= |src| == |c| == |d|
    requires forall i :: 0 <= i < |src| ==> c[i] <= d[i] <= |src[i]|
    requires h < |src| && c[h] < d[h]
    ensures Remaining(src, c, n) >= Remaining(src, d, n) + if h < n then 1 else 0
  {}

  lemma PackStep(out: seq<Pair>, p: Pair)
    ensures PackAll(out + [p]) == PackAll(out).Add(p)
  {
    assert (out + [p])[..|out|] == out;
  }

  // Adds a pair to the table being filled, which is written first when the
  // pair would make it too large.
  method AppendPair(tables: seq<seq<Pair>>, newTable: seq<Pair>, size: nat, p: Pair)
    returns (tables': seq<seq<Pair>>, newTable': seq<Pair>, size': nat)
    requires size == Bytes(newTable)
    ensures Packing(tables', newTable') == Packing(tables, newTable).Add(p)
    ensures size' == Bytes(newTable')
  {
    tables', newTable' := tables, newTable;
    size' := size + |p.val| + 1 + 12;
    BytesAppend(newTable, p);
    if size' > TABLE_SIZE {
      tables' := tables + [newTable];
      newTable' := [];
      size' := INITIAL_SIZE + |p.val| + 1 + 12;
      BytesAppend([], p);
    }
    newTable' := newTable' + [p];
    assert [] + [p] == [p];
  }

  // Merges the sources, oldest first, into tables.
  method MergeTables(src: seq<seq<Pair>>, lastLevel: bool) returns (tables: seq<seq<Pair>>)
    requires AllAscending(src)
    requires forall i :: 0 <= i < |src| ==> AllFit(src[i])
    ensures tables == Pack(MergeResult(src, lastLevel))
    ensures WellPacked(tables) && Flatten(tables) == MergeResult(src, lastLevel)
  {
    var merger := new Merger(src);
    tables := [];
    var size := INITIAL_SIZE;
    var newTable: seq<Pair> := [];
    ghost var out: seq<Pair> := [];
    ghost var last: int := -1;
    while merger.head != map[]
      invariant merger.src == src && merger.Valid(last)
      invariant EmittedUpTo(src, lastLevel, out, last)
      invariant PackAll(out) == Packing(tables, newTable)
      invariant size == Bytes(newTable)
      invariant AllFit(out)
      decreases Remaining(src, merger.cursor, |src|)
    {
      ghost var before := merger.cursor;
      var p := merger.Next(last);
      ghost var i :| 0 <= i < |src| && merger.cursor[i] > before[i];
      RemainingDecreases(src, before, merger.cursor, |src|, i);
      EmitOne(src, lastLevel, out, last, p);
      last := p.key;
      if !(lastLevel && p.val == DEL) {
        PackStep(out, p);
        tables, newTable, size := AppendPair(tables, newTable, size, p);
        out := out + [p];
      }
    }
    EmittedAll(src, lastLevel, out, merger.cursor, last);
    PackCorrect(out);
    if newTable != [] {
      tables := tables + [newTable];
    }
  }
}
