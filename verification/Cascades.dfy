// The cascade of compactions a flush can start: it ends, it bounds every
// level, and it keeps what the levels hold.
module Cascades {
  import opened Pairs
  import opened Merge
  import opened Tables
  import opened Levels
  import opened Compaction

  // ---------- Pairs never multiply ----------

  function PairsOf(l: seq<Table>): nat {
    if l == [] then 0 else |l[0].keyValue| + PairsOf(l[1..])
  }

  function PairsIn(levels: seq<seq<Table>>): nat {
    if levels == [] then 0 else PairsOf(levels[0]) + PairsIn(levels[1..])
  }

  lemma {:induction false} PairsOfAppend(a: seq<Table>, b: seq<Table>)
    ensures PairsOf(a + b) == PairsOf(a) + PairsOf(b)
  {
    if a == [] {
      assert a + b == b;
    } else {
      assert (a + b)[1..] == a[1..] + b;
      PairsOfAppend(a[1..], b);
    }
  }

  lemma {:induction false} PairsInUpdate(levels: seq<seq<Table>>, i: nat, l: seq<Table>)
    requires i < |levels|
    ensures PairsIn(levels[i := l]) == PairsIn(levels) - PairsOf(levels[i]) + PairsOf(l)
  {
    if i > 0 {
      assert levels[i := l][1..] == levels[1..][i - 1 := l];
      PairsInUpdate(levels[1..], i - 1, l);
    } else {
      assert levels[i := l][1..] == levels[1..];
    }
  }

  lemma {:induction false} PairsInAt(levels: seq<seq<Table>>, i: nat)
    requires i < |levels|
    ensures PairsOf(levels[i]) <= PairsIn(levels)
  {
    if i > 0 { PairsInAt(levels[1..], i - 1); }
  }

  lemma {:induction false} PairsInAppend(levels: seq<seq<Table>>, l: seq<Table>)
    ensures PairsIn(levels + [l]) == PairsIn(levels) + PairsOf(l)
  {
    if levels != [] {
      assert (levels + [l])[1..] == levels[1..] + [l];
      PairsInAppend(levels[1..], l);
    }
  }

  lemma {:induction false} TablesAtMostPairs(l: seq<Table>)
    requires Solid(l)
    ensures |l| <= PairsOf(l)
  {
    if l != [] {
      assert l[0] in l;
      TablesAtMostPairs(l[1..]);
    }
  }

  lemma {:induction false} PairsEnqueue(q: seq<Table>, t: Table)
    ensures PairsOf(Enqueue(q, t)) == PairsOf(q) + |t.keyValue|
  {
    if q != [] && !Before(t, q[0]) {
      PairsEnqueue(q[1..], t);
    }
  }

  lemma {:induction false} PairsEnqueueAll(ts: seq<Table>)
    ensures PairsOf(EnqueueAll(ts)) == PairsOf(ts)
  {
    if ts != [] {
      var rest, t := ts[..|ts| - 1], ts[|ts| - 1];
      PairsEnqueueAll(rest);
      PairsEnqueue(EnqueueAll(rest), t);
      assert rest + [t] == ts;
      PairsOfAppend(rest, [t]);
    }
  }

  lemma {:induction false} PairsContents(ts: seq<Table>)
    ensures TotalPairs(Contents(ts)) == PairsOf(ts)
  {
    if ts != [] {
      var rest, t := ts[..|ts| - 1], ts[|ts| - 1];
      PairsContents(rest);
      assert Contents(ts)[..|ts| - 1] == Contents(rest);
      assert rest + [t] == ts;
      PairsOfAppend(rest, [t]);
    }
  }

  lemma {:induction false} PairsNewTables(h: Hash, level: nat, count: nat, T: nat, chunks: seq<seq<Pair>>)
    requires NonEmpty(chunks)
    ensures PairsOf(NewTables(h, level, count, T, chunks)) == |Flatten(chunks)|
  {
    if chunks != [] {
      var rest := chunks[..|chunks| - 1];
      PairsNewTables(h, level, count, T, rest);
      var added := NewTables(h, level, count, T, chunks);
      var a, b := NewTables(h, level, count, T, rest), [added[|chunks| - 1]];
      assert added == a + b;
      PairsOfAppend(a, b);
    }
  }

  lemma {:induction false} PairsEmplaceErase(l: seq<Table>, t: Table, gone: seq<Table>)
    ensures PairsOf(Erase(Emplace(l, t), gone)) <= PairsOf(Erase(l, gone)) + |t.keyValue|
  {
    if l != [] && !Before(t, l[0]) && Before(l[0], t) {
      PairsEmplaceErase(l[1..], t, gone);
    } else {
      assert l != [] && Before(t, l[0]) ==> Emplace(l, t)[1..] == l;
    }
  }

  lemma {:induction false} PairsEmplaceAllErase(l: seq<Table>, added: seq<Table>, gone: seq<Table>)
    ensures PairsOf(Erase(EmplaceAll(l, added), gone)) <= PairsOf(Erase(l, gone)) + PairsOf(added)
  {
    if added != [] {
      var rest, t := added[..|added| - 1], added[|added| - 1];
      PairsEmplaceAllErase(l, rest, gone);
      hide Emplace, Erase;
      PairsEmplaceErase(EmplaceAll(l, rest), t, gone);
      assert rest + [t] == added;
      PairsOfAppend(rest, [t]);
    }
  }

  lemma {:induction false} PairsSelectErase(l: seq<Table>, lo: nat, hi: nat, gone: seq<Table>)
    requires forall x :: x in Select(l, lo, hi) ==> x in gone
    ensures PairsOf(Erase(l, gone)) + PairsOf(Select(l, lo, hi)) <= PairsOf(l)
  {
    if l != [] {
      assert forall x :: x in Select(l[1..], lo, hi) ==> x in Select(l, lo, hi);
      PairsSelectErase(l[1..], lo, hi, gone);
      if Overlaps(l[0], lo, hi) {
        assert l[0] in Select(l, lo, hi);
        var i :| 0 <= i < |gone| && gone[i] == l[0];
        assert Equivalent(l[0], gone[i]);
      }
    }
  }

  lemma MergedLevelShrinks(h: Hash, picked: seq<Table>, low: seq<Table>, level: nat, count: nat, lastLevel: bool)
    requires picked != [] && Solid(picked) && Solid(low)
    ensures PairsOf(MergedLevel(low, picked, Added(h, picked, low, level, count, lastLevel)))
            <= PairsOf(picked) + PairsOf(low)
    ensures Solid(MergedLevel(low, picked, Added(h, picked, low, level, count, lastLevel)))
  {
    var T := picked[|picked| - 1].timeStamp;
    var chunks := Chunks(picked, low, lastLevel);
    var added := Added(h, picked, low, level, count, lastLevel);
    var lo, hi := HullMin(picked), HullMax(picked);
    var sel := Select(low, lo, hi);
    PairsNewTables(h, level, count, T, chunks);
    PairsContents(Sources(picked, low));
    PairsEnqueueAll(picked + sel);
    PairsOfAppend(picked, sel);
    PairsEmplaceAllErase(low, added, sel);
    PairsSelectErase(low, lo, hi, sel);
    ChunksCorrect(picked, low, lastLevel);
    forall t | t in added ensures t.keyValue != [] && AllFit(t.keyValue) {
      var i :| 0 <= i < |added| && added[i] == t;
      NewTablesAt(h, level, count, T, chunks, i);
      forall p | p in t.keyValue ensures Fits(p) { FlattenMember(chunks, i, p); }
    }
  }

  // One compaction touches two levels and nothing else: `x` is the state with
  // the lower level there, `t'` the result.
  ghost predicate Framed(t: Tiers, x: Tiers, t': Tiers, level: nat)
    requires 1 <= level <= |t.levels| && Due(t, level)
  {
    && 0 < CompactNum(t, level) <= |t.levels[level - 1]|
    && |x.levels| == |x.count| == (if |t.levels| <= level then |t.levels| + 1 else |t.levels|)
    && level < |x.levels|
    && (forall i :: 0 <= i < |t.levels| ==> x.levels[i] == t.levels[i])
    && (|t.levels| <= level ==> x.levels[level] == [] && x.levels == t.levels + [[]])
    && |t'.levels| == |t'.count| == |x.levels|
    && t'.levels[level - 1] == x.levels[level - 1][CompactNum(t, level)..]
    && (forall i :: 0 <= i < |x.levels| && i != level - 1 && i != level ==> t'.levels[i] == x.levels[i])
    && (forall i :: 0 <= i < |x.levels| && i != level ==> t'.count[i] == x.count[i])
  }

  // And this is what the lower level becomes.
  ghost predicate Merges(h: Hash, picked: seq<Table>, x: Tiers, t': Tiers, level: nat)
    requires level < |x.levels| == |x.count| == |t'.levels| == |t'.count|
    requires picked != [] && Solid(picked) && Solid(x.levels[level])
  {
    var added := Added(h, picked, x.levels[level], level, x.count[level], level == |x.levels| - 1);
    && t'.levels[level] == MergedLevel(x.levels[level], picked, added)
    && t'.count[level] == x.count[level] + |added|
  }

  lemma CompactUnfold(h: Hash, t: Tiers, level: nat)
    requires 1 <= level <= |t.levels| && t.Sound() && Due(t, level)
    ensures var n, x, t' := CompactNum(t, level), t.Extend(level), Compact(h, t, level);
            && x.Sound() && Framed(t, x, t', level)
            && Solid(t.levels[level - 1]) && Solid(x.levels[level])
            && Merges(h, t.levels[level - 1][..n], x, t', level)
  {
    hide MergedLevel, Added;
    var x := t.Extend(level);
    assert Solid(t.levels[level - 1]);
    assert level < |t.levels| ==> Solid(t.levels[level]);
    assert Solid(x.levels[level]);
  }

  lemma PairsInTwo(ls: seq<seq<Table>>, ls': seq<seq<Table>>, i: nat)
    requires |ls'| == |ls| && i + 1 < |ls|
    requires forall j :: 0 <= j < |ls| && j != i && j != i + 1 ==> ls'[j] == ls[j]
    requires PairsOf(ls'[i]) + PairsOf(ls'[i + 1]) <= PairsOf(ls[i]) + PairsOf(ls[i + 1])
    ensures PairsIn(ls') <= PairsIn(ls)
  {
    var m := ls[i := ls'[i]];
    assert ls' == m[i + 1 := ls'[i + 1]];
    PairsInUpdate(ls, i, ls'[i]);
    PairsInUpdate(m, i + 1, ls'[i + 1]);
  }

  lemma TwoLevelsShrink(h: Hash, up: seq<Table>, n: nat, low: seq<Table>, level: nat, count: nat, lastLevel: bool)
    requires 0 < n <= |up| && Solid(up) && Solid(low)
    ensures var low' := MergedLevel(low, up[..n], Added(h, up[..n], low, level, count, lastLevel));
            PairsOf(up[n..]) + PairsOf(low') <= PairsOf(up) + PairsOf(low) && Solid(low') && Solid(up[n..])
  {
    hide MergedLevel, Added;
    assert up == up[..n] + up[n..];
    PairsOfAppend(up[..n], up[n..]);
    MergedLevelShrinks(h, up[..n], low, level, count, lastLevel);
  }

  lemma FramedShrinks(t: Tiers, x: Tiers, t': Tiers, level: nat)
    requires 1 <= level <= |t.levels| && t.Sound() && Due(t, level) && x.Sound()
    requires Framed(t, x, t', level)
    requires PairsOf(t'.levels[level - 1]) + PairsOf(t'.levels[level])
             <= PairsOf(x.levels[level - 1]) + PairsOf(x.levels[level])
    requires Solid(t'.levels[level - 1]) && Solid(t'.levels[level])
    ensures t'.Sound()
    ensures PairsIn(t'.levels) <= PairsIn(t.levels)
  {
    if |t.levels| <= level { PairsInAppend(t.levels, []); } else { assert x.levels == t.levels; }
    PairsInTwo(x.levels, t'.levels, level - 1);
    forall i | 0 <= i < |t'.levels| ensures Solid(t'.levels[i]) {
      assert Solid(x.levels[i]);
    }
  }

  lemma CompactShrinks(h: Hash, t: Tiers, level: nat)
    requires 1 <= level <= |t.levels| && t.Sound() && Due(t, level)
    ensures Compact(h, t, level).Sound()
    ensures PairsIn(Compact(h, t, level).levels) <= PairsIn(t.levels)
    ensures |Compact(h, t, level).levels| > level
  {
    hide Compact, MergedLevel, Added, Solid;
    var n, x, t' := CompactNum(t, level), t.Extend(level), Compact(h, t, level);
    CompactUnfold(h, t, level);
    TwoLevelsShrink(h, t.levels[level - 1], n, x.levels[level], level, x.count[level], level == |x.levels| - 1);
    assert PairsOf(t'.levels[level - 1]) + PairsOf(t'.levels[level])
           <= PairsOf(x.levels[level - 1]) + PairsOf(x.levels[level]);
    FramedShrinks(t, x, t', level);
  }

  // ---------- The cascade ----------

  // A level deeper than the total number of pairs cannot be over full.
  function Depth(t: Tiers, level: nat): nat {
    if PairsIn(t.levels) > level then PairsIn(t.levels) - level else 0
  }

  lemma DueIsShallow(t: Tiers, level: nat)
    requires 1 <= level <= |t.levels| && t.Sound() && Due(t, level)
    ensures PairsIn(t.levels) > level
  {
    assert Solid(t.levels[level - 1]);
    TablesAtMostPairs(t.levels[level - 1]);
    PairsInAt(t.levels, level - 1);
  }

  // compactionForLevel: stops at the first level that is not over full.
  function Cascade(h: Hash, t: Tiers, level: nat): Tiers
    requires 1 <= level <= |t.levels| && t.Sound()
    decreases Depth(t, level)
  {
    if !Due(t, level) then t
    else
      DueIsShallow(t, level);
      CompactShrinks(h, t, level);
      Cascade(h, Compact(h, t, level), level + 1)
  }

  // One step of the cascade.
  lemma CascadeStep(h: Hash, t: Tiers, level: nat)
    requires 1 <= level <= |t.levels| && t.Sound()
    ensures !Due(t, level) ==> Cascade(h, t, level) == t
    ensures Due(t, level) ==>
              var c := Compact(h, t, level);
              && PairsIn(t.levels) > level && c.Sound() && PairsIn(c.levels) <= PairsIn(t.levels)
              && |c.levels| > level && Depth(c, level + 1) < Depth(t, level)
              && Cascade(h, t, level) == Cascade(h, c, level + 1)
  {
    hide Compact, PairsIn, Tiers.Sound;
    if Due(t, level) {
      DueIsShallow(t, level);
      CompactShrinks(h, t, level);
    }
  }

  lemma {:induction false} CascadeSound(h: Hash, t: Tiers, level: nat)
    requires 1 <= level <= |t.levels| && t.Sound()
    ensures Cascade(h, t, level).Sound()
    ensures PairsIn(Cascade(h, t, level).levels) <= PairsIn(t.levels)
    decreases Depth(t, level)
  {
    hide *;
    CascadeStep(h, t, level);
    if Due(t, level) {
      CascadeSound(h, Compact(h, t, level), level + 1);
    }
  }

  // Level 0 keeps at most 3 tables and level i at most 3^(i+1).
  predicate Within(t: Tiers, i: nat)
    requires i < |t.levels|
  {
    |t.levels[i]| <= if i == 0 then LEVEL0 else UpperNum(i)
  }

  lemma FramedBounds(t: Tiers, x: Tiers, t': Tiers, level: nat)
    requires 1 <= level <= |t.levels| && Due(t, level)
    requires Framed(t, x, t', level)
    requires |t.levels[0]| <= LEVEL0 + 1
    requires forall j :: 0 <= j < |t.levels| && j != level - 1 ==> Within(t, j)
    ensures forall i :: 0 <= i < |t'.levels| && i != level ==> Within(t', i)
  {
    forall i | 0 <= i < |t'.levels| && i != level ensures Within(t', i) {
      if i != level - 1 { assert Within(t, i); }
    }
  }

  // When only one level may be over full, the cascade leaves none.
  lemma {:induction false} CascadeBounds(h: Hash, t: Tiers, level: nat)
    requires 1 <= level <= |t.levels| && t.Sound()
    requires |t.levels[0]| <= LEVEL0 + 1
    requires forall i :: 0 <= i < |t.levels| && i != level - 1 ==> Within(t, i)
    ensures forall i :: 0 <= i < |Cascade(h, t, level).levels| ==> Within(Cascade(h, t, level), i)
    decreases Depth(t, level)
  {
    hide *;
    CascadeStep(h, t, level);
    if Due(t, level) {
      CompactBounds(h, t, level);
      CascadeBounds(h, Compact(h, t, level), level + 1);
    } else {
      NotDueWithin(t, level);
    }
  }

  lemma CompactBounds(h: Hash, t: Tiers, level: nat)
    requires 1 <= level <= |t.levels| && t.Sound() && Due(t, level)
    requires |t.levels[0]| <= LEVEL0 + 1
    requires forall i :: 0 <= i < |t.levels| && i != level - 1 ==> Within(t, i)
    ensures var c := Compact(h, t, level);
            && |c.levels| > level && |c.levels[0]| <= LEVEL0 + 1
            && forall i :: 0 <= i < |c.levels| && i != level ==> Within(c, i)
  {
    CompactUnfold(h, t, level);
    hide Compact, Merges, UpperNum;
    FramedBounds(t, t.Extend(level), Compact(h, t, level), level);
    assert Within(Compact(h, t, level), 0);
  }

  lemma NotDueWithin(t: Tiers, level: nat)
    requires 1 <= level <= |t.levels| && !Due(t, level)
    ensures Within(t, level - 1)
  {}
}
