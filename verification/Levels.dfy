// The levels of a store: each an ordered set of tables, and one compaction
// between two of them.
module Levels {
  import opened Pairs
  import opened Merge
  import opened Tables

  const INT64_MAX := 0x7fff_ffff_ffff_ffff
  const LEVEL0 := 3

  function Pow3(n: nat): (r: nat)
    ensures r > n
  {
    if n == 0 then 1 else 3 * Pow3(n - 1)
  }

  // How many tables a level may keep.
  function UpperNum(i: nat): nat { Pow3(i + 1) }

  // ---------- A level as an ordered set ----------

  // Older tables first, then smaller keys.
  predicate Before(a: Table, b: Table) {
    a.timeStamp < b.timeStamp || (a.timeStamp == b.timeStamp && a.minKey < b.minKey)
  }

  // Neither comes first: an ordered set keeps only one of them.
  predicate Equivalent(a: Table, b: Table) {
    !Before(a, b) && !Before(b, a)
  }

  ghost predicate SortedLevel(l: seq<Table>) {
    forall i, j :: 0 <= i < j < |l| ==> Before(l[i], l[j])
  }

  // set::emplace: nothing happens when an equivalent table is there.
  function Emplace(l: seq<Table>, t: Table): (r: seq<Table>)
    ensures forall x :: x in r ==> x in l || x == t
    ensures forall x :: x in l ==> x in r
  {
    if l == [] then [t]
    else if Before(t, l[0]) then [t] + l
    else if Before(l[0], t) then [l[0]] + Emplace(l[1..], t)
    else l
  }

  function EmplaceAll(l: seq<Table>, added: seq<Table>): (r: seq<Table>)
    ensures forall x :: x in r ==> x in l || x in added
    ensures forall x :: x in l ==> x in r
  {
    if added == [] then l else Emplace(EmplaceAll(l, added[..|added| - 1]), added[|added| - 1])
  }

  predicate EquivalentToOne(t: Table, gone: seq<Table>) {
    exists i :: 0 <= i < |gone| && Equivalent(t, gone[i])
  }

  function Erase(l: seq<Table>, gone: seq<Table>): (r: seq<Table>)
    ensures forall x :: x in r <==> x in l && !EquivalentToOne(x, gone)
  {
    if l == [] then []
    else if EquivalentToOne(l[0], gone) then Erase(l[1..], gone)
    else [l[0]] + Erase(l[1..], gone)
  }

  // The priority queue of tables to merge; the oldest is popped first.
  function Enqueue(q: seq<Table>, t: Table): (r: seq<Table>)
    ensures forall x :: x in r <==> x in q || x == t
  {
    if q == [] then [t]
    else if Before(t, q[0]) then [t] + q
    else [q[0]] + Enqueue(q[1..], t)
  }

  function EnqueueAll(ts: seq<Table>): (r: seq<Table>)
    ensures forall x :: x in r <==> x in ts
  {
    if ts == [] then [] else Enqueue(EnqueueAll(ts[..|ts| - 1]), ts[|ts| - 1])
  }

  // ---------- Which tables are compacted ----------

  function HullMin(picked: seq<Table>): (r: nat)
    ensures forall t :: t in picked ==> r <= t.minKey
  {
    if picked == [] then INT64_MAX
    else
      var m := HullMin(picked[..|picked| - 1]);
      if picked[|picked| - 1].minKey < m then picked[|picked| - 1].minKey else m
  }

  function HullMax(picked: seq<Table>): (r: nat)
    ensures forall t :: t in picked ==> t.maxKey <= r
  {
    if picked == [] then 0
    else
      var m := HullMax(picked[..|picked| - 1]);
      if picked[|picked| - 1].maxKey > m then picked[|picked| - 1].maxKey else m
  }

  predicate Overlaps(t: Table, lo: nat, hi: nat) {
    t.maxKey >= lo && t.minKey <= hi
  }

  function Select(l: seq<Table>, lo: nat, hi: nat): (r: seq<Table>)
    ensures forall x :: x in r <==> x in l && Overlaps(x, lo, hi)
  {
    if l == [] then []
    else if Overlaps(l[0], lo, hi) then [l[0]] + Select(l[1..], lo, hi)
    else Select(l[1..], lo, hi)
  }

  function Contents(ts: seq<Table>): (r: seq<seq<Pair>>)
    ensures |r| == |ts|
    ensures forall i :: 0 <= i < |ts| ==> r[i] == ts[i].keyValue
  {
    if ts == [] then [] else Contents(ts[..|ts| - 1]) + [ts[|ts| - 1].keyValue]
  }

  // ---------- One compaction ----------

  ghost predicate NonEmpty(chunks: seq<seq<Pair>>) {
    forall i :: 0 <= i < |chunks| ==> chunks[i] != []
  }

  // The tables written for the merged chunks, numbered on from `count`.
  function NewTables(h: Hash, level: nat, count: nat, timeStamp: nat, chunks: seq<seq<Pair>>): (r: seq<Table>)
    requires NonEmpty(chunks)
    ensures |r| == |chunks|
  {
    if chunks == [] then []
    else
      var c := chunks[|chunks| - 1];
      NewTables(h, level, count, timeStamp, chunks[..|chunks| - 1])
      + [MakeTable(h, Length, level, count + |chunks|, timeStamp, c[0].key, c[|c| - 1].key, c)]
  }

  // Non-empty tables whose values fit one by one.
  ghost predicate Solid(l: seq<Table>) {
    forall t :: t in l ==> t.keyValue != [] && AllFit(t.keyValue)
  }

  lemma ContentsFit(ts: seq<Table>, lastLevel: bool)
    requires Solid(ts)
    ensures AllFit(MergeResult(Contents(ts), lastLevel))
    ensures forall i :: 0 <= i < |ts| ==> AllFit(Contents(ts)[i])
  {
    forall i | 0 <= i < |ts| ensures AllFit(Contents(ts)[i]) { assert ts[i] in ts; }
    MergedFits(Contents(ts));
  }

  lemma {:induction false} MergedFits(src: seq<seq<Pair>>)
    requires forall i :: 0 <= i < |src| ==> AllFit(src[i])
    ensures AllFit(Merged(src))
  {
    if src != [] {
      MergedFits(src[..|src| - 1]);
    }
  }

  function Sources(picked: seq<Table>, low: seq<Table>): seq<Table> {
    EnqueueAll(picked + Select(low, HullMin(picked), HullMax(picked)))
  }

  lemma SourcesSolid(picked: seq<Table>, low: seq<Table>)
    requires Solid(picked) && Solid(low)
    ensures Solid(Sources(picked, low))
  {}

  function Chunks(picked: seq<Table>, low: seq<Table>, lastLevel: bool): (r: seq<seq<Pair>>)
    requires Solid(picked) && Solid(low)
    ensures NonEmpty(r)
  {
    ChunksCorrect(picked, low, lastLevel);
    Pack(MergeResult(Contents(Sources(picked, low)), lastLevel))
  }

  lemma ChunksCorrect(picked: seq<Table>, low: seq<Table>, lastLevel: bool)
    requires Solid(picked) && Solid(low)
    ensures var r := Pack(MergeResult(Contents(Sources(picked, low)), lastLevel));
            && WellPacked(r) && NonEmpty(r)
            && Flatten(r) == MergeResult(Contents(Sources(picked, low)), lastLevel)
            && AllFit(Flatten(r))
  {
    SourcesSolid(picked, low);
    ContentsFit(Sources(picked, low), lastLevel);
    PackCorrect(MergeResult(Contents(Sources(picked, low)), lastLevel));
    var r := Pack(MergeResult(Contents(Sources(picked, low)), lastLevel));
    assert forall i :: 0 <= i < |r| ==> GoodTable(r[i]);
  }

  // The tables a merge of the picked tables into a level writes.
  function Added(h: Hash, picked: seq<Table>, low: seq<Table>, level: nat, count: nat, lastLevel: bool): seq<Table>
    requires picked != [] && Solid(picked) && Solid(low)
  {
    NewTables(h, level, count, picked[|picked| - 1].timeStamp, Chunks(picked, low, lastLevel))
  }

  // That level afterwards. The new tables go in before the merged ones are
  // taken out.
  function MergedLevel(low: seq<Table>, picked: seq<Table>, added: seq<Table>): seq<Table> {
    Erase(EmplaceAll(low, added), Select(low, HullMin(picked), HullMax(picked)))
  }

  // The tables of all levels and the number of tables each was given.
  datatype Tiers = Tiers(levels: seq<seq<Table>>, count: seq<nat>) {
    ghost predicate Sound() {
      && |levels| == |count| && levels != []
      && forall i :: 0 <= i < |levels| ==> Solid(levels[i])
    }

    function Extend(level: nat): Tiers {
      if |levels| <= level then Tiers(levels + [[]], count + [0]) else this
    }
  }

  // How many of the upper level's tables are compacted.
  function CompactNum(t: Tiers, level: nat): nat
    requires 1 <= level <= |t.levels| && Due(t, level)
  {
    if level == 1 then LEVEL0 + 1 else |t.levels[level - 1]| - UpperNum(level - 1)
  }

  // The upper level holds too many tables.
  predicate Due(t: Tiers, level: nat)
    requires 1 <= level <= |t.levels|
  {
    if level == 1 then |t.levels[0]| > LEVEL0 else |t.levels[level - 1]| > UpperNum(level - 1)
  }

  function Compact(h: Hash, t: Tiers, level: nat): Tiers
    requires 1 <= level <= |t.levels| && t.Sound() && Due(t, level)
  {
    var n := CompactNum(t, level);
    var x := t.Extend(level);
    var up, low := x.levels[level - 1], x.levels[level];
    assert up == t.levels[level - 1] && Solid(t.levels[level - 1]);
    assert level < |t.levels| ==> Solid(t.levels[level]);
    var added := Added(h, up[..n], low, level, x.count[level], level == |x.levels| - 1);
    Tiers(x.levels[level - 1 := up[n..]][level := MergedLevel(low, up[..n], added)],
          x.count[level := x.count[level] + |added|])
  }

  // ---------- One table more ----------

  lemma ContentsNext(ts: seq<Table>, t: Table)
    ensures Contents(ts + [t]) == Contents(ts) + [t.keyValue] && Contents([]) == []
  {
    assert (ts + [t])[..|ts|] == ts;
  }

  lemma NewTablesNext(h: Hash, level: nat, count: nat, T: nat, chunks: seq<seq<Pair>>, c: seq<Pair>)
    requires NonEmpty(chunks + [c])
    ensures NonEmpty(chunks) && c != []
    ensures NewTables(h, level, count, T, chunks + [c])
         == NewTables(h, level, count, T, chunks)
           + [MakeTable(h, Length, level, count + |chunks| + 1, T, c[0].key, c[|c| - 1].key, c)]
  {
    assert (chunks + [c])[..|chunks|] == chunks && (chunks + [c])[|chunks|] == c;
    forall i | 0 <= i < |chunks| ensures chunks[i] != [] { assert (chunks + [c])[i] != []; }
  }

  lemma EmplaceAllNext(l: seq<Table>, added: seq<Table>, t: Table)
    ensures EmplaceAll(l, added + [t]) == Emplace(EmplaceAll(l, added), t) && EmplaceAll(l, []) == l
  {
    assert (added + [t])[..|added|] == added;
  }

  lemma {:induction false} EmplaceLast(l: seq<Table>, t: Table)
    requires forall x :: x in l ==> Before(x, t)
    ensures Emplace(l, t) == l + [t]
  {
    if l != [] {
      assert l[0] in l;
      EmplaceLast(l[1..], t);
    }
  }

  lemma EnqueueNext(ts: seq<Table>, t: Table)
    ensures EnqueueAll(ts + [t]) == Enqueue(EnqueueAll(ts), t)
  {
    assert (ts + [t])[..|ts|] == ts;
  }

  lemma HullNext(ts: seq<Table>, t: Table)
    ensures HullMin(ts + [t]) == if t.minKey < HullMin(ts) then t.minKey else HullMin(ts)
    ensures HullMax(ts + [t]) == if t.maxKey > HullMax(ts) then t.maxKey else HullMax(ts)
  {
    assert (ts + [t])[..|ts|] == ts;
  }

  lemma AddedSize(h: Hash, picked: seq<Table>, low: seq<Table>, level: nat, count: nat, lastLevel: bool)
    requires picked != [] && Solid(picked) && Solid(low)
    ensures var chunks := Chunks(picked, low, lastLevel);
            && Added(h, picked, low, level, count, lastLevel)
               == NewTables(h, level, count, picked[|picked| - 1].timeStamp, chunks)
            && |Added(h, picked, low, level, count, lastLevel)| == |chunks|
  {
    hide Chunks, NewTables;
  }
}
