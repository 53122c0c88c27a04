// What a compaction keeps: every lookup, the order of the levels in time, and
// the disjointness of the tables of a level.
module Compaction {
  import opened Options
  import opened Pairs
  import opened Merge
  import opened Tables
  import opened Levels

  // ---------- Lookups ----------

  // The newest table of a level that has the key.
  function LevelGet(l: seq<Table>, k: nat): Option<string> {
    if l == [] then None
    else Find(l[|l| - 1].keyValue, k).OrElse(LevelGet(l[..|l| - 1], k))
  }

  lemma {:induction false} LevelGetIsNewest(l: seq<Table>, k: nat)
    ensures LevelGet(l, k) == Newest(Contents(l), k)
  {
    if l != [] {
      var rest := l[..|l| - 1];
      LevelGetIsNewest(rest, k);
      assert Contents(l)[..|l| - 1] == Contents(rest);
    }
  }

  lemma {:induction false} LevelGetAppend(a: seq<Table>, b: seq<Table>, k: nat)
    ensures LevelGet(a + b, k) == LevelGet(b, k).OrElse(LevelGet(a, k))
  {
    if b == [] {
      assert a + b == a;
    } else {
      assert (a + b)[..|a + b| - 1] == a + b[..|b| - 1];
      LevelGetAppend(a, b[..|b| - 1], k);
    }
  }

  ghost predicate Holds(t: Table, k: nat) { Find(t.keyValue, k).Some? }

  lemma {:induction false} LevelGetSome(l: seq<Table>, k: nat)
    ensures LevelGet(l, k).Some? ==> exists t :: t in l && Find(t.keyValue, k) == LevelGet(l, k)
    ensures LevelGet(l, k).None? ==> forall t :: t in l ==> !Holds(t, k)
  {
    if l != [] {
      LevelGetSome(l[..|l| - 1], k);
      assert forall t :: t in l ==> t == l[|l| - 1] || t in l[..|l| - 1];
      if Find(l[|l| - 1].keyValue, k).None? && LevelGet(l, k).Some? {
        var t :| t in l[..|l| - 1] && Find(t.keyValue, k) == LevelGet(l, k);
        assert t in l;
      }
    }
  }

  // What a caller sees: a tombstone looks like no value at all.
  function View(o: Option<string>): string {
    if o == None || o == Some(DEL) then "" else o.value
  }

  // ---------- Invariants of a level ----------

  // The key ranges do not meet.
  predicate Apart(a: Table, b: Table) { a.maxKey < b.minKey || b.maxKey < a.minKey }

  ghost predicate Disjoint(l: seq<Table>) {
    forall i, j :: 0 <= i < j < |l| ==> Apart(l[i], l[j])
  }

  ghost predicate InRange(t: Table) {
    && t.keyValue != [] && Ascending(t.keyValue)
    && t.minKey <= t.keyValue[0].key && t.keyValue[|t.keyValue| - 1].key <= t.maxKey
  }

  ghost predicate AllInRange(l: seq<Table>) { forall t :: t in l ==> InRange(t) }

  lemma HeldInRange(t: Table, k: nat)
    requires InRange(t) && Holds(t, k)
    ensures t.minKey <= k <= t.maxKey
  {
    var i :| 0 <= i < |t.keyValue| && t.keyValue[i] == Pair(k, Find(t.keyValue, k).value);
    assert t.keyValue[0].key <= t.keyValue[i].key <= t.keyValue[|t.keyValue| - 1].key;
  }

  // In a level of disjoint tables at most one has the key.
  lemma DisjointGet(l: seq<Table>, t: Table, k: nat)
    requires Disjoint(l) && AllInRange(l) && t in l && Holds(t, k)
    ensures LevelGet(l, k) == Find(t.keyValue, k)
  {
    LevelGetSome(l, k);
    var u :| u in l && Find(u.keyValue, k) == LevelGet(l, k);
    HeldInRange(t, k);
    HeldInRange(u, k);
    var i :| 0 <= i < |l| && l[i] == t;
    var j :| 0 <= j < |l| && l[j] == u;
    assert i < j ==> Apart(l[i], l[j]);
    assert j < i ==> Apart(l[j], l[i]);
  }

  // ---------- The order of the sources ----------

  ghost predicate AllBefore(a: seq<Table>, t: Table) { forall x :: x in a ==> Before(x, t) }
  ghost predicate BeforeAll(t: Table, a: seq<Table>) { forall x :: x in a ==> Before(t, x) }

  lemma {:induction false} EnqueueBetween(a: seq<Table>, b: seq<Table>, t: Table)
    requires AllBefore(a, t) && BeforeAll(t, b)
    ensures Enqueue(a + b, t) == a + [t] + b
  {
    if a == [] {
      assert a + b == b;
      if b != [] { assert Before(t, b[0]); }
    } else {
      assert Before(a[0], t);
      assert (a + b)[1..] == a[1..] + b;
      EnqueueBetween(a[1..], b, t);
    }
  }

  lemma {:induction false} EnqueueSorted(l: seq<Table>)
    requires SortedLevel(l)
    ensures EnqueueAll(l) == l
  {
    if l != [] {
      var rest := l[..|l| - 1];
      EnqueueSorted(rest);
      EnqueueBetween(rest, [], l[|l| - 1]);
      assert rest + [] == rest && rest + [l[|l| - 1]] + [] == l;
    }
  }

  lemma {:induction false} EnqueueOlder(picked: seq<Table>, sel: seq<Table>)
    requires SortedLevel(picked) && SortedLevel(sel)
    requires forall p, q :: p in picked && q in sel ==> Before(q, p)
    ensures EnqueueAll(picked + sel) == sel + picked
    decreases |sel|
  {
    if sel == [] {
      assert picked + sel == picked && sel + picked == picked;
      EnqueueSorted(picked);
    } else {
      var rest, t := sel[..|sel| - 1], sel[|sel| - 1];
      assert (picked + sel)[..|picked + sel| - 1] == picked + rest;
      EnqueueOlder(picked, rest);
      EnqueueBetween(rest, picked, t);
      assert rest + [t] + picked == sel + picked;
    }
  }

  // ---------- Emplacing and erasing ----------

  lemma {:induction false} EmplaceSorted(l: seq<Table>, t: Table)
    requires SortedLevel(l)
    ensures SortedLevel(Emplace(l, t))
  {
    if l != [] && Before(l[0], t) {
      EmplaceSorted(l[1..], t);
      var r := Emplace(l[1..], t);
      assert forall x :: x in r ==> x in l[1..] || x == t;
      assert forall i :: 0 <= i < |r| ==> r[i] in r;
      assert forall x :: x in l[1..] ==> Before(l[0], x);
    }
  }

  // The table goes in unless an equivalent one is there.
  lemma {:induction false} EmplaceMembers(l: seq<Table>, t: Table)
    requires SortedLevel(l)
    ensures forall x :: x in Emplace(l, t) <==> x in l || (x == t && !EquivalentToOne(t, l))
  {
    if l != [] {
      assert l == [l[0]] + l[1..];
      if Before(l[0], t) {
        EmplaceMembers(l[1..], t);
        assert forall i :: 0 < i < |l| ==> l[i] == l[1..][i - 1];
        assert EquivalentToOne(t, l) <==> EquivalentToOne(t, l[1..]);
      } else if Before(t, l[0]) {
        assert forall i :: 0 <= i < |l| ==> i == 0 || Before(l[0], l[i]);
      }
    }
  }

  // No two of the tables are equivalent.
  ghost predicate AllDiffer(added: seq<Table>) {
    forall i, j :: 0 <= i < j < |added| ==> !Equivalent(added[i], added[j])
  }

  // A new table that no table of the level turns away.
  predicate Entered(l: seq<Table>, added: seq<Table>, t: Table) {
    t in added && !EquivalentToOne(t, l)
  }

  // None of the tables is turned away.
  ghost predicate AllFresh(l: seq<Table>, added: seq<Table>) {
    forall t :: t in added ==> !EquivalentToOne(t, l)
  }

  lemma {:induction false} EmplaceAllMembers(l: seq<Table>, added: seq<Table>)
    requires SortedLevel(l) && AllDiffer(added)
    ensures SortedLevel(EmplaceAll(l, added))
    ensures forall t :: t in EmplaceAll(l, added) <==> t in l || Entered(l, added, t)
  {
    if added != [] {
      var rest, t := added[..|added| - 1], added[|added| - 1];
      var r := EmplaceAll(l, rest);
      EmplaceAllMembers(l, rest);
      EmplaceSorted(r, t);
      EmplaceMembers(r, t);
      LastDiffers(l, added, r);
      assert forall x :: x in added <==> x in rest || x == t;
    }
  }

  // The last table is turned away by the level or not at all.
  lemma LastDiffers(l: seq<Table>, added: seq<Table>, r: seq<Table>)
    requires added != [] && AllDiffer(added)
    requires forall x :: x in r <==> x in l || Entered(l, added[..|added| - 1], x)
    ensures EquivalentToOne(added[|added| - 1], r) <==> EquivalentToOne(added[|added| - 1], l)
  {
    var t := added[|added| - 1];
    forall i | 0 <= i < |r| && Equivalent(t, r[i]) ensures r[i] in l {
      assert r[i] in r;
    }
    EquivalentAmong(t, l, r);
    if i :| 0 <= i < |r| && Equivalent(t, r[i]) {
      var m :| 0 <= m < |l| && l[m] == r[i];
      assert Equivalent(t, l[m]);
    }
  }

  lemma EquivalentAmong(t: Table, a: seq<Table>, b: seq<Table>)
    requires forall x :: x in a ==> x in b
    ensures EquivalentToOne(t, a) ==> EquivalentToOne(t, b)
  {
    if i :| 0 <= i < |a| && Equivalent(t, a[i]) {
      assert a[i] in b;
      var m :| 0 <= m < |b| && b[m] == a[i];
      assert Equivalent(t, b[m]);
    }
  }

  lemma {:induction false} EraseSorted(l: seq<Table>, gone: seq<Table>)
    requires SortedLevel(l)
    ensures SortedLevel(Erase(l, gone))
  {
    if l != [] {
      EraseSorted(l[1..], gone);
      var r := Erase(l, gone);
      if !EquivalentToOne(l[0], gone) {
        forall i, j | 0 <= i < j < |r| ensures Before(r[i], r[j]) {
          if i == 0 {
            assert r[j] in Erase(l[1..], gone);
            var m :| 0 <= m < |l[1..]| && l[1..][m] == r[j];
            assert l[m + 1] == r[j];
          }
        }
      }
    }
  }

  lemma SortedDistinct(l: seq<Table>, a: Table, b: Table)
    requires SortedLevel(l) && a in l && b in l && a != b
    ensures !Equivalent(a, b)
  {
    var i :| 0 <= i < |l| && l[i] == a;
    var j :| 0 <= j < |l| && l[j] == b;
    assert i < j ==> Before(l[i], l[j]);
    assert j < i ==> Before(l[j], l[i]);
  }

  lemma {:induction false} SelectSorted(l: seq<Table>, lo: nat, hi: nat)
    requires SortedLevel(l)
    ensures SortedLevel(Select(l, lo, hi))
  {
    if l != [] {
      SelectSorted(l[1..], lo, hi);
      var r := Select(l, lo, hi);
      if Overlaps(l[0], lo, hi) {
        forall i, j | 0 <= i < j < |r| ensures Before(r[i], r[j]) {
          if i == 0 {
            assert r[j] in Select(l[1..], lo, hi);
            var m :| 0 <= m < |l[1..]| && l[1..][m] == r[j];
            assert l[m + 1] == r[j];
          }
        }
      }
    }
  }

  // The compacted level holds the new tables that went in and the tables that
  // were not merged.
  lemma CompactedMembers(low: seq<Table>, added: seq<Table>, lo: nat, hi: nat)
    requires SortedLevel(low) && AllDiffer(added)
    ensures var r := Erase(EmplaceAll(low, added), Select(low, lo, hi));
            && SortedLevel(r)
            && (forall t :: t in r <==> Entered(low, added, t) || LeftAlone(low, lo, hi, t))
  {
    var sel, all := Select(low, lo, hi), EmplaceAll(low, added);
    EmplaceAllMembers(low, added);
    EraseSorted(all, sel);
    forall t ensures t in Erase(all, sel) <==> Entered(low, added, t) || LeftAlone(low, lo, hi, t) {
      if t in low {
        var m :| 0 <= m < |low| && low[m] == t;
        assert Equivalent(t, low[m]);
        if Overlaps(t, lo, hi) {
          assert t in sel;
          var i :| 0 <= i < |sel| && sel[i] == t;
          assert Equivalent(t, sel[i]);
        } else if i :| 0 <= i < |sel| && Equivalent(t, sel[i]) {
          assert sel[i] in sel;
          SortedDistinct(low, t, sel[i]);
          assert false;
        }
      } else {
        EquivalentAmong(t, sel, low);
      }
    }
  }

  // ---------- The new tables ----------

  lemma {:induction false} NewTablesAt(h: Hash, level: nat, count: nat, timeStamp: nat, chunks: seq<seq<Pair>>, i: nat)
    requires i < |chunks| && NonEmpty(chunks)
    ensures var c := chunks[i];
            NewTables(h, level, count, timeStamp, chunks)[i] ==
            MakeTable(h, Length, level, count + i + 1, timeStamp, c[0].key, c[|c| - 1].key, c)
    decreases |chunks|
  {
    if i < |chunks| - 1 { NewTablesAt(h, level, count, timeStamp, chunks[..|chunks| - 1], i); }
  }

  lemma {:induction false} FlattenFind(chunks: seq<seq<Pair>>, k: nat)
    requires Ascending(Flatten(chunks))
    ensures Newest(chunks, k) == Find(Flatten(chunks), k)
  {
    if chunks != [] {
      var rest, last := chunks[..|chunks| - 1], chunks[|chunks| - 1];
      var a := Flatten(rest);
      assert Ascending(a) by { assert forall i :: 0 <= i < |a| ==> Flatten(chunks)[i] == a[i]; }
      FlattenFind(rest, k);
      FindAppend(a, last, k);
      if Find(a, k).Some? {
        var i :| 0 <= i < |a| && a[i] == Pair(k, Find(a, k).value);
        forall j | 0 <= j < |last| ensures last[j].key != k {
          assert Flatten(chunks)[i].key < Flatten(chunks)[|a| + j].key;
        }
        assert Find(last, k).None?;
      }
    }
  }

  lemma {:induction false} FlattenMember(chunks: seq<seq<Pair>>, i: nat, p: Pair)
    requires i < |chunks| && p in chunks[i]
    ensures p in Flatten(chunks)
    decreases |chunks|
  {
    if i < |chunks| - 1 {
      FlattenMember(chunks[..|chunks| - 1], i, p);
    }
  }

  // Chunks of an ascending list follow one another.
  lemma {:induction false} FlattenOrder(chunks: seq<seq<Pair>>, i: nat, j: nat)
    requires Ascending(Flatten(chunks)) && i < j < |chunks|
    requires NonEmpty(chunks)
    ensures Ascending(chunks[i]) && Ascending(chunks[j])
    ensures chunks[i][|chunks[i]| - 1].key < chunks[j][0].key
    decreases |chunks|
  {
    var rest, last := chunks[..|chunks| - 1], chunks[|chunks| - 1];
    var a := Flatten(rest);
    assert Ascending(a) by { assert forall x :: 0 <= x < |a| ==> Flatten(chunks)[x] == a[x]; }
    if j < |chunks| - 1 {
      FlattenOrder(rest, i, j);
    } else {
      ChunkAscending(chunks, i);
      ChunkAscending(chunks, j);
      FlattenMember(rest, i, chunks[i][|chunks[i]| - 1]);
      var x :| 0 <= x < |a| && a[x] == chunks[i][|chunks[i]| - 1];
      assert Flatten(chunks)[x].key < Flatten(chunks)[|a|].key;
    }
  }

  lemma {:induction false} ChunkAscending(chunks: seq<seq<Pair>>, i: nat)
    requires Ascending(Flatten(chunks)) && i < |chunks|
    ensures Ascending(chunks[i])
    decreases |chunks|
  {
    var rest, last := chunks[..|chunks| - 1], chunks[|chunks| - 1];
    var a := Flatten(rest);
    if i < |chunks| - 1 {
      assert Ascending(a) by { assert forall x :: 0 <= x < |a| ==> Flatten(chunks)[x] == a[x]; }
      ChunkAscending(rest, i);
    } else {
      assert forall x :: 0 <= x < |last| ==> Flatten(chunks)[|a| + x] == last[x];
    }
  }

  // ---------- One compaction ----------

  // The tables to merge down and the lower level are in order.
  ghost predicate InOrder(picked: seq<Table>, low: seq<Table>) {
    && picked != [] && SortedLevel(picked) && AllInRange(picked) && Solid(picked)
    && SortedLevel(low) && AllInRange(low) && Solid(low) && Disjoint(low)
  }

  // The picked tables are newer than every table their hull meets.
  ghost predicate Mergeable(picked: seq<Table>, low: seq<Table>) {
    && InOrder(picked, low)
    && (forall p, q :: p in picked && q in low && Overlaps(q, HullMin(picked), HullMax(picked)) ==>
          q.timeStamp < p.timeStamp)
  }

  // A table of the lower level that the hull does not meet.
  predicate LeftAlone(low: seq<Table>, lo: nat, hi: nat, t: Table) {
    t in low && !Overlaps(t, lo, hi)
  }

  predicate Unmerged(picked: seq<Table>, low: seq<Table>, t: Table) {
    LeftAlone(low, HullMin(picked), HullMax(picked), t)
  }

  lemma SourcesOrder(picked: seq<Table>, low: seq<Table>)
    requires Mergeable(picked, low)
    ensures Sources(picked, low) == Select(low, HullMin(picked), HullMax(picked)) + picked
  {
    var sel := Select(low, HullMin(picked), HullMax(picked));
    SelectSorted(low, HullMin(picked), HullMax(picked));
    EnqueueOlder(picked, sel);
  }

  lemma SourcesAscending(picked: seq<Table>, low: seq<Table>)
    requires InOrder(picked, low)
    ensures AllAscending(Contents(Sources(picked, low)))
  {
    var s := Sources(picked, low);
    forall i | 0 <= i < |s| ensures Ascending(Contents(s)[i]) {
      assert s[i] in s && s[i] in picked + Select(low, HullMin(picked), HullMax(picked));
      assert s[i] in picked || s[i] in low;
    }
  }

  // Every key of the output comes from one of the merged tables.
  lemma OutputSource(src: seq<Table>, lastLevel: bool, p: Pair) returns (t: Table)
    requires AllAscending(Contents(src))
    requires p in MergeResult(Contents(src), lastLevel)
    ensures t in src && Holds(t, p.key)
  {
    MergeResultCorrect(Contents(src), lastLevel);
    var r := MergeResult(Contents(src), lastLevel);
    var x :| 0 <= x < |r| && r[x] == p;
    FindAt(r, x);
    NewestMember(Contents(src), p.key);
    var i :| 0 <= i < |Contents(src)| && Pair(p.key, Newest(Contents(src), p.key).value) in Contents(src)[i];
    t := src[i];
    var m :| 0 <= m < |t.keyValue| && t.keyValue[m].key == p.key;
    FindAt(t.keyValue, m);
  }

  // A key of a merged table lies on the hull's side of a table left alone.
  lemma HeldAvoids(low: seq<Table>, lo: nat, hi: nat, t: Table, w: Table, k: nat)
    requires Disjoint(low) && AllInRange(low) && LeftAlone(low, lo, hi, w)
    requires InRange(t) && Holds(t, k)
    requires (t in low && Overlaps(t, lo, hi)) || (lo <= t.minKey && t.maxKey <= hi)
    ensures if w.maxKey < lo then w.maxKey < k else k < w.minKey
  {
    HeldInRange(t, k);
    assert InRange(w);
    RangeOrder(w);
    if t in low && Overlaps(t, lo, hi) {
      var a :| 0 <= a < |low| && low[a] == t;
      var b :| 0 <= b < |low| && low[b] == w;
      assert a != b;
      assert Apart(low[a], low[b]) || Apart(low[b], low[a]);
    }
  }

  // A key of the merged output lies on the hull's side of every table left
  // alone, although overlap is tested against the hull only.
  lemma OutputAvoidsUnmerged(picked: seq<Table>, low: seq<Table>, lastLevel: bool, p: Pair, w: Table)
    requires InOrder(picked, low) && Unmerged(picked, low, w)
    requires p in MergeResult(Contents(Sources(picked, low)), lastLevel)
    ensures if w.maxKey < HullMin(picked) then w.maxKey < p.key else p.key < w.minKey
  {
    SourcesAscending(picked, low);
    var t := OutputSource(Sources(picked, low), lastLevel, p);
    assert t in picked || (t in low && Overlaps(t, HullMin(picked), HullMax(picked)));
    HeldAvoids(low, HullMin(picked), HullMax(picked), t, w, p.key);
  }

  // What is known of the tables written.
  ghost predicate Written(t: Table, level: nat, timeStamp: nat) {
    && InRange(t) && ExactRange(t) && t.timeStamp == timeStamp && t.level == level
    && AllFit(t.keyValue) && Bytes(t.keyValue) <= TABLE_SIZE
  }

  // The tables written are well formed, in key order, and apart from every
  // table left alone.
  lemma AddedTables(h: Hash, picked: seq<Table>, low: seq<Table>, level: nat, count: nat, lastLevel: bool)
    requires InOrder(picked, low)
    ensures var T := picked[|picked| - 1].timeStamp;
            var added := Added(h, picked, low, level, count, lastLevel);
            && (forall t :: t in added ==> Written(t, level, T) && WellFormed(h, t))
            && InKeyOrder(added)
            && (forall t, w :: t in added && Unmerged(picked, low, w) ==> Apart(t, w))
  {
    var T := picked[|picked| - 1].timeStamp;
    var src := Sources(picked, low);
    var chunks := Chunks(picked, low, lastLevel);
    var added := Added(h, picked, low, level, count, lastLevel);
    SourcesAscending(picked, low);
    MergeResultCorrect(Contents(src), lastLevel);
    ChunksCorrect(picked, low, lastLevel);
    forall t | t in added ensures Written(t, level, T) && WellFormed(h, t) {
      var i :| 0 <= i < |added| && added[i] == t;
      AddedTable(h, level, count, T, chunks, i);
    }
    AddedInOrder(h, level, count, T, chunks);
    forall t, w | t in added && Unmerged(picked, low, w) ensures Apart(t, w) {
      var i :| 0 <= i < |added| && added[i] == t;
      AddedApart(h, picked, low, level, count, lastLevel, i, w);
    }
  }

  lemma AddedApart(h: Hash, picked: seq<Table>, low: seq<Table>, level: nat, count: nat, lastLevel: bool,
                   i: nat, w: Table)
    requires InOrder(picked, low) && Unmerged(picked, low, w)
    requires i < |Chunks(picked, low, lastLevel)|
    ensures Apart(Added(h, picked, low, level, count, lastLevel)[i], w)
  {
    var chunks := Chunks(picked, low, lastLevel);
    ChunksCorrect(picked, low, lastLevel);
    NewTablesAt(h, level, count, picked[|picked| - 1].timeStamp, chunks, i);
    var c := chunks[i];
    FlattenMember(chunks, i, c[0]);
    FlattenMember(chunks, i, c[|c| - 1]);
    OutputAvoidsUnmerged(picked, low, lastLevel, c[0], w);
    OutputAvoidsUnmerged(picked, low, lastLevel, c[|c| - 1], w);
  }

  ghost predicate InKeyOrder(l: seq<Table>) {
    forall i, j :: 0 <= i < j < |l| ==> l[i].maxKey < l[j].minKey
  }

  lemma AddedInOrder(h: Hash, level: nat, count: nat, T: nat, chunks: seq<seq<Pair>>)
    requires Ascending(Flatten(chunks)) && NonEmpty(chunks)
    ensures InKeyOrder(NewTables(h, level, count, T, chunks))
  {
    var added := NewTables(h, level, count, T, chunks);
    forall i, j | 0 <= i < j < |added| ensures added[i].maxKey < added[j].minKey {
      NewTablesAt(h, level, count, T, chunks, i);
      NewTablesAt(h, level, count, T, chunks, j);
      FlattenOrder(chunks, i, j);
    }
  }

  // When the picked tables are newer, the ordered set turns no table away.
  lemma NoneTurnedAway(h: Hash, picked: seq<Table>, low: seq<Table>, level: nat, count: nat, lastLevel: bool)
    requires Mergeable(picked, low)
    ensures AllFresh(low, Added(h, picked, low, level, count, lastLevel))
  {
    var added := Added(h, picked, low, level, count, lastLevel);
    AddedTables(h, picked, low, level, count, lastLevel);
    hide Added, Solid;
    forall t, x | t in added && x in low ensures !Equivalent(t, x) {
      RangeOrder(x);
      RangeOrder(t);
      assert Unmerged(picked, low, x) ==> Apart(t, x);
      assert picked[|picked| - 1] in picked;
    }
  }

  lemma KeyOrderDiffers(added: seq<Table>)
    requires AllInRange(added) && InKeyOrder(added)
    ensures AllDiffer(added)
  {
    forall i, j | 0 <= i < j < |added| ensures !Equivalent(added[i], added[j]) {
      assert added[i] in added;
      RangeOrder(added[i]);
    }
  }

  lemma RangeOrder(t: Table)
    requires InRange(t)
    ensures t.minKey <= t.maxKey
  {
    assert t.keyValue[0].key <= t.keyValue[|t.keyValue| - 1].key;
  }

  lemma AddedTable(h: Hash, level: nat, count: nat, T: nat, chunks: seq<seq<Pair>>, i: nat)
    requires WellPacked(chunks) && Ascending(Flatten(chunks)) && AllFit(Flatten(chunks))
    requires NonEmpty(chunks)
    requires i < |chunks|
    ensures var t := NewTables(h, level, count, T, chunks)[i]; Written(t, level, T) && WellFormed(h, t)
  {
    NewTablesAt(h, level, count, T, chunks, i);
    ChunkAscending(chunks, i);
    var c := chunks[i];
    MakeTableWellFormed(h, Length, level, count + i + 1, T, c[0].key, c[|c| - 1].key, c);
    assert GoodTable(c);
    forall p | p in c ensures Fits(p) { FlattenMember(chunks, i, p); }
  }

  lemma {:induction false} NewTablesContents(h: Hash, level: nat, count: nat, T: nat, chunks: seq<seq<Pair>>)
    requires NonEmpty(chunks)
    ensures Contents(NewTables(h, level, count, T, chunks)) == chunks
  {
    var added := NewTables(h, level, count, T, chunks);
    forall i | 0 <= i < |chunks| ensures Contents(added)[i] == chunks[i] {
      NewTablesAt(h, level, count, T, chunks, i);
    }
  }

  lemma MembersDisjoint(low: seq<Table>, added: seq<Table>, low': seq<Table>, lo: nat, hi: nat)
    requires Disjoint(low) && AllInRange(added) && InKeyOrder(added)
    requires forall t, w :: t in added && LeftAlone(low, lo, hi, w) ==> Apart(t, w)
    requires SortedLevel(low') && forall t :: t in low' ==> t in added || LeftAlone(low, lo, hi, t)
    ensures Disjoint(low')
  {
    forall i, j | 0 <= i < j < |low'| ensures Apart(low'[i], low'[j]) {
      var a, b := low'[i], low'[j];
      assert a in low' && b in low' && Before(a, b);
      if a in added && b in added {
        var x :| 0 <= x < |added| && added[x] == a;
        var y :| 0 <= y < |added| && added[y] == b;
        assert x != y;
      } else if a in added {
        assert LeftAlone(low, lo, hi, b);
      } else if b in added {
        assert LeftAlone(low, lo, hi, a);
      } else {
        var x :| 0 <= x < |low| && low[x] == a;
        var y :| 0 <= y < |low| && low[y] == b;
        assert x != y;
        assert Apart(low[x], low[y]) || Apart(low[y], low[x]);
      }
    }
  }

  // The lower level after a compaction keeps its invariants, whether or not
  // the ordered set turned new tables away.
  lemma MergedLevelKeeps(h: Hash, picked: seq<Table>, low: seq<Table>, level: nat, count: nat, lastLevel: bool)
    requires InOrder(picked, low)
    ensures var T := picked[|picked| - 1].timeStamp;
            var added := Added(h, picked, low, level, count, lastLevel);
            var low' := MergedLevel(low, picked, added);
            && SortedLevel(low') && AllInRange(low') && Solid(low') && Disjoint(low')
            && (forall t :: t in low' <==> Entered(low, added, t) || Unmerged(picked, low, t))
            && (forall t :: t in added ==> Written(t, level, T) && WellFormed(h, t))
            && Disjoint(added)
  {
    var added := Added(h, picked, low, level, count, lastLevel);
    var low' := MergedLevel(low, picked, added);
    AddedTables(h, picked, low, level, count, lastLevel);
    KeyOrderDiffers(added);
    CompactedMembers(low, added, HullMin(picked), HullMax(picked));
    MembersDisjoint(low, added, low', HullMin(picked), HullMax(picked));
  }

  // Every lookup in the two levels finds what it found before, except that a
  // tombstone may be gone when there is no deeper level.
  ghost predicate SameGet(before: Option<string>, after: Option<string>, lastLevel: bool) {
    after == before || (lastLevel && before == Some(DEL) && after == None)
  }

  lemma MergedLevelGet(h: Hash, picked: seq<Table>, low: seq<Table>, level: nat, count: nat, lastLevel: bool, k: nat)
    requires Mergeable(picked, low)
    ensures SameGet(LevelGet(picked, k).OrElse(LevelGet(low, k)),
                    LevelGet(MergedLevel(low, picked, Added(h, picked, low, level, count, lastLevel)), k), lastLevel)
  {
    var sel := Select(low, HullMin(picked), HullMax(picked));
    NoneTurnedAway(h, picked, low, level, count, lastLevel);
    MergedLevelIs(h, picked, low, level, count, lastLevel, k);
    SourcesOrder(picked, low);
    LevelGetAppend(sel, picked, k);
  }

  // A new table with the key is turned away.
  ghost predicate TurnedAway(low: seq<Table>, added: seq<Table>, k: nat) {
    exists t :: t in added && Holds(t, k) && EquivalentToOne(t, low)
  }

  // What the level answers afterwards, whatever the order of the sources.
  lemma MergedLevelIs(h: Hash, picked: seq<Table>, low: seq<Table>, level: nat, count: nat, lastLevel: bool, k: nat)
    requires InOrder(picked, low)
    ensures var lo, hi := HullMin(picked), HullMax(picked);
            var added := Added(h, picked, low, level, count, lastLevel);
            var merged := LevelGet(Sources(picked, low), k);
            var after := LevelGet(MergedLevel(low, picked, added), k);
            if exists w :: LeftAlone(low, lo, hi, w) && Holds(w, k)
            then after == LevelGet(low, k) && LevelGet(picked, k) == None && !TurnedAway(low, added, k)
            else
              && LevelGet(Select(low, lo, hi), k) == LevelGet(low, k)
              && (TurnedAway(low, added, k) ==> Kept(merged, lastLevel).Some?)
              && after == if TurnedAway(low, added, k) then None else Kept(merged, lastLevel)
  {
    var T := picked[|picked| - 1].timeStamp;
    var chunks := Chunks(picked, low, lastLevel);
    var added := Added(h, picked, low, level, count, lastLevel);
    var src := Sources(picked, low);
    MergedLevelKeeps(h, picked, low, level, count, lastLevel);
    AddedTables(h, picked, low, level, count, lastLevel);
    SourcesAscending(picked, low);
    ChunksCorrect(picked, low, lastLevel);
    MergeResultCorrect(Contents(src), lastLevel);
    LevelGetIsNewest(src, k);
    NewTablesContents(h, level, count, T, chunks);
    LevelGetIsNewest(added, k);
    FlattenFind(chunks, k);
    LevelGetSome(added, k);
    hide Added, MergedLevel, Solid, Merged, MergeResult, Chunks, Pack, NewTables;
    GetAfter(picked, low, added, MergedLevel(low, picked, added), HullMin(picked), HullMax(picked), k);
  }

  lemma GetAfter(picked: seq<Table>, low: seq<Table>, added: seq<Table>, low': seq<Table>, lo: nat, hi: nat, k: nat)
    requires Disjoint(low) && AllInRange(low) && Disjoint(low') && AllInRange(low') && AllInRange(picked)
    requires Disjoint(added) && AllInRange(added)
    requires forall t :: t in picked ==> lo <= t.minKey && t.maxKey <= hi
    requires forall t, w :: t in added && LeftAlone(low, lo, hi, w) ==> Apart(t, w)
    requires forall t :: t in low' <==> Entered(low, added, t) || LeftAlone(low, lo, hi, t)
    ensures if exists w :: LeftAlone(low, lo, hi, w) && Holds(w, k)
            then LevelGet(low', k) == LevelGet(low, k) && LevelGet(picked, k) == None && !TurnedAway(low, added, k)
            else
              && LevelGet(Select(low, lo, hi), k) == LevelGet(low, k)
              && LevelGet(low', k) == if TurnedAway(low, added, k) then None else LevelGet(added, k)
  {
    LevelGetSome(added, k);
    LevelGetSome(low', k);
    if w :| LeftAlone(low, lo, hi, w) && Holds(w, k) {
      OnlyLeftAlone(picked, low, added, lo, hi, k, w);
      DisjointGet(low', w, k);
    } else {
      SelectedGet(low, lo, hi, k);
      if t :| t in added && Holds(t, k) {
        OnlyOne(added, t, k);
        DisjointGet(added, t, k);
        if !EquivalentToOne(t, low) {
          DisjointGet(low', t, k);
        }
      }
    }
  }

  // A table left alone that has the key is the only one that has it.
  lemma OnlyLeftAlone(picked: seq<Table>, low: seq<Table>, added: seq<Table>, lo: nat, hi: nat, k: nat, w: Table)
    requires Disjoint(low) && AllInRange(low) && AllInRange(picked) && AllInRange(added)
    requires forall t :: t in picked ==> lo <= t.minKey && t.maxKey <= hi
    requires forall t :: t in added && LeftAlone(low, lo, hi, w) ==> Apart(t, w)
    requires LeftAlone(low, lo, hi, w) && Holds(w, k)
    ensures LevelGet(low, k) == Find(w.keyValue, k) && LevelGet(picked, k) == None
    ensures forall t :: t in added ==> !Holds(t, k)
  {
    HeldInRange(w, k);
    DisjointGet(low, w, k);
    LevelGetSome(picked, k);
    forall t | t in picked ensures !Holds(t, k) {
      if Holds(t, k) { HeldInRange(t, k); }
    }
    forall t | t in added ensures !Holds(t, k) {
      ApartHolders(w, t, k);
    }
  }

  // Two disjoint tables do not share a key.
  lemma ApartHolders(a: Table, b: Table, k: nat)
    requires InRange(a) && InRange(b) && (Apart(a, b) || Apart(b, a)) && Holds(a, k)
    ensures !Holds(b, k)
  {
    HeldInRange(a, k);
    if Holds(b, k) { HeldInRange(b, k); }
  }

  lemma OnlyOne(l: seq<Table>, t: Table, k: nat)
    requires Disjoint(l) && AllInRange(l) && t in l && Holds(t, k)
    ensures forall x :: x in l && Holds(x, k) ==> x == t
  {
    forall x | x in l && x != t ensures !Holds(x, k) {
      var i :| 0 <= i < |l| && l[i] == t;
      var j :| 0 <= j < |l| && l[j] == x;
      assert i != j;
      assert Apart(l[i], l[j]) || Apart(l[j], l[i]);
      ApartHolders(t, x, k);
    }
  }

  // When no table left alone has the key, the merged ones decide.
  lemma SelectedGet(low: seq<Table>, lo: nat, hi: nat, k: nat)
    requires Disjoint(low) && AllInRange(low)
    requires forall w :: LeftAlone(low, lo, hi, w) ==> !Holds(w, k)
    ensures LevelGet(Select(low, lo, hi), k) == LevelGet(low, k)
  {
    var sel := Select(low, lo, hi);
    LevelGetSome(low, k);
    LevelGetSome(sel, k);
    if LevelGet(low, k).Some? {
      var t :| t in low && Find(t.keyValue, k) == LevelGet(low, k);
      assert Holds(t, k) && !LeftAlone(low, lo, hi, t);
      assert t in sel;
      var u :| u in sel && Find(u.keyValue, k) == LevelGet(sel, k);
      DisjointGet(low, u, k);
    } else {
      assert forall u :: u in sel ==> u in low && !Holds(u, k);
    }
  }
}
