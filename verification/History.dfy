// What every run of compactions keeps: levels ordered in time and disjoint
// tables from level 1 down, always; the answer to a lookup, exactly when no
// tie does harm to its key.
module History {
  import opened Options
  import opened Pairs
  import opened Merge
  import opened Tables
  import opened Levels
  import opened Compaction
  import opened Cascades
  import opened Ties

  // The first level from i on that has the key answers.
  function LevelsGet(levels: seq<seq<Table>>, k: nat, i: nat): Option<string>
    requires i <= |levels|
    decreases |levels| - i
  {
    if i == |levels| then None else LevelGet(levels[i], k).OrElse(LevelsGet(levels, k, i + 1))
  }

  ghost predicate LevelOk(h: Hash, l: seq<Table>) {
    SortedLevel(l) && AllInRange(l) && forall t :: t in l ==> WellFormed(h, t)
  }

  // A shallower level is no older than a deeper one; level 0 is newer.
  ghost predicate NoOlder(a: seq<Table>, b: seq<Table>, strictly: bool) {
    forall x, y :: x in a && y in b ==> if strictly then y.timeStamp < x.timeStamp else y.timeStamp <= x.timeStamp
  }

  ghost predicate InTime(levels: seq<seq<Table>>) {
    forall i, j :: 0 <= i < j < |levels| ==> NoOlder(levels[i], levels[j], i == 0)
  }

  ghost predicate Good(h: Hash, t: Tiers) {
    && t.Sound()
    && (forall i :: 0 <= i < |t.levels| ==> LevelOk(h, t.levels[i]))
    && (forall i :: 1 <= i < |t.levels| ==> Disjoint(t.levels[i]))
    && InTime(t.levels)
    && |t.levels[0]| <= LEVEL0 + 1
  }

  // ---------- What is compacted ----------

  lemma PickedInOrder(h: Hash, t: Tiers, level: nat)
    requires 1 <= level <= |t.levels| && Good(h, t) && Due(t, level)
    ensures CompactNum(t, level) <= |t.levels[level - 1]| && level < |t.Extend(level).levels|
    ensures InOrder(t.levels[level - 1][..CompactNum(t, level)], t.Extend(level).levels[level])
  {
    var up, low := t.levels[level - 1], t.Extend(level).levels[level];
    assert LevelOk(h, up) && Solid(up);
    if level < |t.levels| {
      assert LevelOk(h, low) && Solid(low) && Disjoint(low);
    }
    hide WellFormed;
  }

  // The tables of level 0 are newer than all of level 1.
  lemma PickedMergeable(h: Hash, t: Tiers)
    requires Good(h, t) && Due(t, 1)
    ensures CompactNum(t, 1) <= |t.levels[0]| && 1 < |t.Extend(1).levels|
    ensures Mergeable(t.levels[0][..CompactNum(t, 1)], t.Extend(1).levels[1])
  {
    PickedInOrder(h, t, 1);
    if 1 < |t.levels| { assert NoOlder(t.levels[0], t.levels[1], true); }
  }

  // From level 2 down the two levels are as Ties asks.
  lemma PickedReady(h: Hash, t: Tiers, level: nat)
    requires 2 <= level <= |t.levels| && Good(h, t) && Due(t, level)
    ensures CompactNum(t, level) <= |t.levels[level - 1]| && level < |t.Extend(level).levels|
    ensures Ready(t.levels[level - 1][..CompactNum(t, level)], t.Extend(level).levels[level])
  {
    PickedInOrder(h, t, level);
    assert Disjoint(t.levels[level - 1]);
    if level < |t.levels| { assert NoOlder(t.levels[level - 1], t.levels[level], false); }
  }

  // ---------- The answers ----------

  lemma {:induction false} GetSuffix(a: seq<seq<Table>>, b: seq<seq<Table>>, k: nat, i: nat)
    requires |a| == |b| && i <= |a| && forall j :: i <= j < |a| ==> a[j] == b[j]
    ensures LevelsGet(a, k, i) == LevelsGet(b, k, i)
    decreases |a| - i
  {
    if i < |a| { GetSuffix(a, b, k, i + 1); }
  }

  // The answer of the first i levels.
  function Above(levels: seq<seq<Table>>, k: nat, i: nat): Option<string>
    requires i <= |levels|
  {
    if i == 0 then None else Above(levels, k, i - 1).OrElse(LevelGet(levels[i - 1], k))
  }

  lemma {:induction false} GetSplit(levels: seq<seq<Table>>, k: nat, i: nat)
    requires i <= |levels|
    ensures LevelsGet(levels, k, 0) == Above(levels, k, i).OrElse(LevelsGet(levels, k, i))
  {
    hide LevelGet;
    if i > 0 { GetSplit(levels, k, i - 1); }
  }

  lemma {:induction false} AboveSame(a: seq<seq<Table>>, b: seq<seq<Table>>, k: nat, i: nat)
    requires i <= |a| && i <= |b| && forall j :: 0 <= j < i ==> a[j] == b[j]
    ensures Above(a, k, i) == Above(b, k, i)
  {
    if i > 0 { AboveSame(a, b, k, i - 1); }
  }

  lemma {:induction false} GetExtended(levels: seq<seq<Table>>, k: nat, i: nat)
    requires i <= |levels|
    ensures LevelsGet(levels + [[]], k, i) == LevelsGet(levels, k, i)
    decreases |levels| - i
  {
    if i < |levels| {
      GetExtended(levels, k, i + 1);
    } else {
      assert LevelsGet(levels + [[]], k, i) == LevelGet([], k).OrElse(LevelsGet(levels + [[]], k, i + 1));
    }
  }

  // What a lookup meets, in order, before a compaction and after it.
  lemma FramedGet(t: Tiers, x: Tiers, t': Tiers, level: nat, k: nat)
    requires 1 <= level <= |t.levels| && Due(t, level) && Framed(t, x, t', level)
    ensures var n, up := CompactNum(t, level), t.levels[level - 1];
            var over := Above(t.levels, k, level - 1).OrElse(LevelGet(up[n..], k));
            var deep := LevelsGet(x.levels, k, level + 1);
            && (level == |x.levels| - 1 ==> deep == None)
            && LevelsGet(t.levels, k, 0)
               == over.OrElse(LevelGet(up[..n], k).OrElse(LevelGet(x.levels[level], k)).OrElse(deep))
            && LevelsGet(t'.levels, k, 0) == over.OrElse(LevelGet(t'.levels[level], k).OrElse(deep))
  {
    var n, up := CompactNum(t, level), t.levels[level - 1];
    hide LevelGet, Due, CompactNum;
    if |t.levels| <= level { GetExtended(t.levels, k, 0); } else { assert x.levels == t.levels; }
    assert up == up[..n] + up[n..];
    LevelGetAppend(up[..n], up[n..], k);
    GetSplit(x.levels, k, level - 1);
    GetSplit(t'.levels, k, level - 1);
    AboveSame(x.levels, t.levels, k, level - 1);
    AboveSame(t'.levels, t.levels, k, level - 1);
    GetSuffix(x.levels, t'.levels, k, level + 1);
    assert LevelsGet(x.levels, k, level - 1)
        == LevelGet(x.levels[level - 1], k)
           .OrElse(LevelGet(x.levels[level], k).OrElse(LevelsGet(x.levels, k, level + 1)));
    assert LevelsGet(t'.levels, k, level - 1)
        == LevelGet(t'.levels[level - 1], k)
           .OrElse(LevelGet(t'.levels[level], k).OrElse(LevelsGet(x.levels, k, level + 1)));
  }

  // A compaction into level 2 or deeper harms a key if no table in front of
  // the picked ones has it and a tie changes its answer.
  ghost predicate CompactHarms(t: Tiers, level: nat, k: nat)
    requires 1 <= level <= |t.levels| && t.Sound() && Due(t, level)
  {
    var n, x := CompactNum(t, level), t.Extend(level);
    CompactReady(t, level);
    && level > 1
    && Above(t.levels, k, level - 1).OrElse(LevelGet(t.levels[level - 1][n..], k)) == None
    && Harmed(t.levels[level - 1][..n], x.levels[level], level == |x.levels| - 1, LevelsGet(x.levels, k, level + 1), k)
  }

  lemma CompactReady(t: Tiers, level: nat)
    requires 1 <= level <= |t.levels| && t.Sound() && Due(t, level)
    ensures var n, x := CompactNum(t, level), t.Extend(level);
            && 0 < n <= |t.levels[level - 1]| && Solid(t.levels[level - 1][..n])
            && level < |x.levels| && Solid(x.levels[level])
  {
    assert Solid(t.levels[level - 1]);
    assert level < |t.levels| ==> Solid(t.levels[level]);
  }

  lemma CompactHarmsIs(t: Tiers, level: nat, k: nat)
    requires 1 <= level <= |t.levels| && t.Sound() && Due(t, level)
    ensures var n, x := CompactNum(t, level), t.Extend(level);
            && 0 < n <= |t.levels[level - 1]| && Solid(t.levels[level - 1][..n])
            && level < |x.levels| && Solid(x.levels[level])
            && (CompactHarms(t, level, k) <==>
                  && level > 1
                  && Above(t.levels, k, level - 1).OrElse(LevelGet(t.levels[level - 1][n..], k)) == None
                  && Harmed(t.levels[level - 1][..n], x.levels[level], level == |x.levels| - 1,
                            LevelsGet(x.levels, k, level + 1), k))
  {
    hide Harmed, Solid, LevelGet, LevelsGet, Above;
    CompactReady(t, level);
  }

  // What is behind the first answer does not show.
  lemma OverSame(over: Option<string>, a: Option<string>, b: Option<string>)
    ensures over.Some? ==> View(over.OrElse(a)) == View(over.OrElse(b))
    ensures over == None ==> over.OrElse(a) == a && over.OrElse(b) == b
  {}

  lemma SameGetView(a: Option<string>, b: Option<string>, deep: Option<string>, lastLevel: bool)
    requires SameGet(a, b, lastLevel) && (lastLevel ==> deep == None)
    ensures View(b.OrElse(deep)) == View(a.OrElse(deep))
  {}

  // A compaction keeps the answer of a key if and only if it does not harm it.
  lemma CompactKeepsExactly(h: Hash, t: Tiers, level: nat, k: nat)
    requires 1 <= level <= |t.levels| && Good(h, t) && Due(t, level)
    ensures t.Sound()
    ensures View(LevelsGet(Compact(h, t, level).levels, k, 0)) == View(LevelsGet(t.levels, k, 0))
            <==> !CompactHarms(t, level, k)
  {
    hide *;
    GoodSound(h, t);
    var n, x, t' := CompactNum(t, level), t.Extend(level), Compact(h, t, level);
    CompactUnfold(h, t, level);
    CompactHarmsIs(t, level, k);
    FramedParts(t, x, t', level);
    MergesParts(h, t.levels[level - 1][..n], x, t', level);
    FramedGet(t, x, t', level, k);
    var p, l, l' := LevelGet(t.levels[level - 1][..n], k), LevelGet(x.levels[level], k), LevelGet(t'.levels[level], k);
    var over := Above(t.levels, k, level - 1).OrElse(LevelGet(t.levels[level - 1][n..], k));
    var deep := LevelsGet(x.levels, k, level + 1);
    OverSame(over, p.OrElse(l).OrElse(deep), l'.OrElse(deep));
    if level == 1 {
      PickedMergeable(h, t);
      MergedLevelGet(h, t.levels[0][..n], x.levels[1], 1, x.count[1], 1 == |x.levels| - 1, k);
      SameGetView(p.OrElse(l), l', deep, 1 == |x.levels| - 1);
    } else {
      PickedReady(h, t, level);
      KeepsOneExactly(h, t.levels[level - 1][..n], x.levels[level], level, x.count[level],
                      level == |x.levels| - 1, deep, k);
    }
  }

  lemma FramedParts(t: Tiers, x: Tiers, t': Tiers, level: nat)
    requires 1 <= level <= |t.levels| && Due(t, level) && Framed(t, x, t', level)
    ensures 0 < CompactNum(t, level) <= |t.levels[level - 1]|
    ensures level < |x.levels| == |t'.levels| == |x.count| == |t'.count|
  {}

  lemma MergesParts(h: Hash, picked: seq<Table>, x: Tiers, t': Tiers, level: nat)
    requires level < |x.levels| == |x.count| == |t'.levels| == |t'.count|
    requires picked != [] && Solid(picked) && Solid(x.levels[level]) && Merges(h, picked, x, t', level)
    ensures t'.levels[level] ==
              MergedLevel(x.levels[level], picked,
                          Added(h, picked, x.levels[level], level, x.count[level], level == |x.levels| - 1))
  {
    hide MergedLevel, Added;
  }

  lemma GoodSound(h: Hash, t: Tiers)
    requires Good(h, t)
    ensures t.Sound()
  {}

  // Nothing is harmed when no picked table shares its time stamp with a table
  // of the lower level that their hull meets; into level 1 nothing ever is.
  lemma NoTieCompact(h: Hash, t: Tiers, level: nat, k: nat)
    requires 1 <= level <= |t.levels| && Good(h, t) && Due(t, level)
    requires CompactNum(t, level) <= |t.levels[level - 1]|
    requires level == 1 || level == |t.levels| || NoTie(t.levels[level - 1][..CompactNum(t, level)], t.levels[level])
    ensures t.Sound() && !CompactHarms(t, level, k)
  {
    hide *;
    GoodSound(h, t);
    CompactHarmsIs(t, level, k);
    if level > 1 {
      var n, x := CompactNum(t, level), t.Extend(level);
      PickedReady(h, t, level);
      LowerLevel(t, level, t.levels[level - 1][..n]);
      NoTieNoHarm(h, t.levels[level - 1][..n], x.levels[level], level == |x.levels| - 1,
                  LevelsGet(x.levels, k, level + 1), k);
    }
  }

  lemma LowerLevel(t: Tiers, level: nat, picked: seq<Table>)
    requires 1 <= level <= |t.levels|
    ensures level < |t.levels| ==> t.Extend(level) == t
    ensures level == |t.levels| ==> t.Extend(level).levels == t.levels + [[]] && NoTie(picked, [])
  {}

  // ---------- The invariants ----------

  lemma LevelOkSuffix(h: Hash, l: seq<Table>, n: nat)
    requires LevelOk(h, l) && n <= |l|
    ensures LevelOk(h, l[n..])
  {}

  lemma DisjointSuffix(l: seq<Table>, n: nat)
    requires Disjoint(l) && n <= |l|
    ensures Disjoint(l[n..])
  {}

  lemma MergedLevelOk(h: Hash, picked: seq<Table>, low: seq<Table>, level: nat, count: nat, lastLevel: bool)
    requires InOrder(picked, low) && LevelOk(h, low)
    ensures var low' := MergedLevel(low, picked, Added(h, picked, low, level, count, lastLevel));
            && LevelOk(h, low') && Disjoint(low')
            && (forall t :: t in low' ==> t in low || t.timeStamp == picked[|picked| - 1].timeStamp)
  {
    MergedLevelKeeps(h, picked, low, level, count, lastLevel);
  }

  // The two levels of a compaction stay in time order with each other and
  // with every third level.
  lemma StaysInTime(ls: seq<seq<Table>>, ls': seq<seq<Table>>, i: nat, n: nat)
    requires InTime(ls) && |ls'| == |ls| && i + 1 < |ls|
    requires forall j :: 0 <= j < |ls| && j != i && j != i + 1 ==> ls'[j] == ls[j]
    requires 0 < n <= |ls[i]| && SortedLevel(ls[i]) && ls'[i] == ls[i][n..]
    requires i == 0 ==> ls'[0] == []
    requires forall t :: t in ls'[i + 1] ==> t in ls[i + 1] || t.timeStamp == ls[i][n - 1].timeStamp
    ensures InTime(ls')
  {
    var p := ls[i][n - 1];
    assert p in ls[i];
    forall a, b | 0 <= a < b < |ls'| ensures NoOlder(ls'[a], ls'[b], a == 0) {
      assert NoOlder(ls[a], ls[b], a == 0);
      if b == i + 1 && a < i { assert NoOlder(ls[a], ls[i], a == 0); }
      if a == i + 1 { assert NoOlder(ls[i], ls[b], i == 0); }
      if a == i && b == i + 1 {
        forall x, y | x in ls'[i] && y in ls'[i + 1] ensures y.timeStamp <= x.timeStamp {
          var m :| 0 <= m < |ls'[i]| && ls'[i][m] == x;
          assert Before(ls[i][n - 1], ls[i][n + m]);
        }
      }
    }
  }

  lemma ExtendedInTime(ls: seq<seq<Table>>)
    requires InTime(ls)
    ensures InTime(ls + [[]])
  {
    var ls' := ls + [[]];
    forall i, j | 0 <= i < j < |ls'| ensures NoOlder(ls'[i], ls'[j], i == 0) {
      if j < |ls| { assert NoOlder(ls[i], ls[j], i == 0); }
    }
  }

  lemma FramedGood(h: Hash, t: Tiers, x: Tiers, t': Tiers, level: nat)
    requires 1 <= level <= |t.levels| && Good(h, t) && Due(t, level) && Framed(t, x, t', level)
    requires LevelOk(h, t'.levels[level]) && Disjoint(t'.levels[level]) && t'.Sound()
    requires forall q :: q in t'.levels[level] ==>
               q in x.levels[level] || q.timeStamp == x.levels[level - 1][CompactNum(t, level) - 1].timeStamp
    ensures Good(h, t')
  {
    var n, up := CompactNum(t, level), t.levels[level - 1];
    assert LevelOk(h, up);
    LevelOkSuffix(h, up, n);
    if level > 1 { DisjointSuffix(up, n); }
    if |t.levels| <= level { ExtendedInTime(t.levels); } else { assert x.levels == t.levels; }
    StaysInTime(x.levels, t'.levels, level - 1, n);
    forall i | 0 <= i < |t'.levels| ensures LevelOk(h, t'.levels[i]) && (i >= 1 ==> Disjoint(t'.levels[i])) {
      if i != level && i != level - 1 { assert LevelOk(h, t.levels[i]); }
    }
  }

  lemma CompactedOk(h: Hash, t: Tiers, level: nat)
    requires 1 <= level <= |t.levels| && Good(h, t) && Due(t, level)
    ensures var n, x, t' := CompactNum(t, level), t.Extend(level), Compact(h, t, level);
            && 0 < n <= |t.levels[level - 1]| && level < |x.levels| == |t'.levels|
            && LevelOk(h, t'.levels[level]) && Disjoint(t'.levels[level])
            && (forall q :: q in t'.levels[level] ==>
                  q in x.levels[level] || q.timeStamp == t.levels[level - 1][n - 1].timeStamp)
  {
    var n, x := CompactNum(t, level), t.Extend(level);
    CompactUnfold(h, t, level);
    PickedInOrder(h, t, level);
    LowerOk(h, t, level);
    hide Compact, MergedLevel, Added, InOrder, Solid, Good, LevelOk, Disjoint;
    MergedLevelOk(h, t.levels[level - 1][..n], x.levels[level], level, x.count[level], level == |x.levels| - 1);
  }

  lemma LowerOk(h: Hash, t: Tiers, level: nat)
    requires 1 <= level <= |t.levels| && Good(h, t)
    ensures level < |t.Extend(level).levels| && LevelOk(h, t.Extend(level).levels[level])
  {
    assert level < |t.levels| ==> LevelOk(h, t.levels[level]);
  }

  // Every compaction keeps the levels' invariants, ties or not.
  lemma CompactKeepsGood(h: Hash, t: Tiers, level: nat)
    requires 1 <= level <= |t.levels| && Good(h, t) && Due(t, level)
    ensures Good(h, Compact(h, t, level))
  {
    CompactUnfold(h, t, level);
    CompactShrinks(h, t, level);
    CompactedOk(h, t, level);
    hide Compact, Merges, Solid, Good, Disjoint, LevelOk;
    FramedGood(h, t, t.Extend(level), Compact(h, t, level), level);
  }

  // ---------- Over a whole cascade ----------

  lemma {:induction false} CascadeKeepsGood(h: Hash, t: Tiers, level: nat)
    requires 1 <= level <= |t.levels| && Good(h, t)
    ensures t.Sound() && Good(h, Cascade(h, t, level))
    decreases Depth(t, level)
  {
    hide *;
    GoodSound(h, t);
    CascadeStep(h, t, level);
    if Due(t, level) {
      CompactKeepsGood(h, t, level);
      CascadeKeepsGood(h, Compact(h, t, level), level + 1);
    }
  }

  // No compaction of the cascade harms a key.
  ghost predicate CascadeHarmless(h: Hash, t: Tiers, level: nat)
    requires 1 <= level <= |t.levels| && t.Sound()
    decreases Depth(t, level)
  {
    if !Due(t, level) then true
    else
      CascadeStep(h, t, level);
      (forall k :: !CompactHarms(t, level, k)) && CascadeHarmless(h, Compact(h, t, level), level + 1)
  }

  lemma HarmlessStep(h: Hash, t: Tiers, level: nat, k: nat)
    requires 1 <= level <= |t.levels| && t.Sound() && Due(t, level) && CascadeHarmless(h, t, level)
    ensures !CompactHarms(t, level, k)
    ensures var c := Compact(h, t, level); |c.levels| > level && c.Sound() && CascadeHarmless(h, c, level + 1)
  {
    CascadeStep(h, t, level);
    hide Compact, CompactHarms, Tiers.Sound, Depth;
  }

  // A cascade that harms no key changes no answer.
  lemma {:induction false} CascadeKeepsGet(h: Hash, t: Tiers, level: nat, k: nat)
    requires 1 <= level <= |t.levels| && Good(h, t) && t.Sound() && CascadeHarmless(h, t, level)
    ensures Cascade(h, t, level).Sound()
    ensures View(LevelsGet(Cascade(h, t, level).levels, k, 0)) == View(LevelsGet(t.levels, k, 0))
    decreases Depth(t, level)
  {
    hide *;
    CascadeStep(h, t, level);
    if Due(t, level) {
      HarmlessStep(h, t, level, k);
      CompactKeepsGood(h, t, level);
      CompactKeepsExactly(h, t, level, k);
      CascadeKeepsGet(h, Compact(h, t, level), level + 1, k);
    }
  }
}
