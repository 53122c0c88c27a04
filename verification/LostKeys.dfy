// Two runs that do not answer like a map, neither with a deletion: one after
// which a key that was put is not found, one after which a key has an older
// value again.
module LostKeys {
  import opened Arithmetic
  import opened Options
  import opened Counting
  import opened Pairs
  import opened Merge
  import opened Tables
  import opened Levels
  import opened Compaction
  import opened Cascades
  import opened Ties
  import opened History
  import opened Stores
  import opened ThinLevels
  import opened ThinStores

  const B: nat := INT64_MAX + 4

  // The keys 1 to n with one time stamp.
  function Upto(n: nat, v: nat): (r: map<nat, nat>)
    ensures |r| == n
    ensures forall k :: k in r <==> 1 <= k <= n
    ensures forall k :: k in r ==> r[k] == v
  {
    if n == 0 then map[] else Upto(n - 1, v)[n := v]
  }

  lemma OnePick(m: map<nat, nat>, x: nat, low: map<nat, nat>, low': map<nat, nat>)
    requires |m| == 10 && x in m && Leads(m, x) && Becomes(Min(INT64_MAX, x), Top(x), m[x], {x}, low, low')
    ensures Moves(m, [x], m - {x}, low, low')
  {
    hide LoOf, TopOf, Becomes, Leads;
    HullNextKey([], x);
    assert [] + [x] == [x] && KeysOf([x]) == {x};
    assert [x][1..] == [] && Leaders(m - {x}, [], m - {x});
  }

  // ---------- A key that is lost ----------

  // What the four batches of puts make of level 1, before its first table
  // moves on if it must.
  const FIRST: map<nat, nat> := Upto(4, 3)
  const SECOND: map<nat, nat> := Upto(4, 3)[5 := 7][6 := 7][A := 7][B := 7]
  const THIRD: map<nat, nat> := Upto(8, 11)[A := 7][B := 7]
  const FOURTH: map<nat, nat> := Upto(9, 15)[B := 7]

  lemma FirstBatch()
    ensures Becomes(0, UINT64, 3, {1, 2, 3, 4}, map[], FIRST) && |FIRST| <= 9
  {
    hide Upto;
  }

  lemma SecondBatch()
    ensures Batch(5, 6, A, B, 5, B, 7, FIRST, SECOND)
  {
    hide Upto;
  }

  lemma SecondSize()
    ensures |SECOND| <= 9
  {
    hide Upto;
  }

  lemma ThirdBatch()
    ensures Batch(1, 7, 8, 2, 1, INT64_MAX + 1, 11, SECOND, THIRD)
  {
    hide Upto;
  }

  lemma ThirdPick()
    ensures |THIRD| == 10 && A in THIRD && Leads(THIRD, A)
    ensures Becomes(Min(INT64_MAX, A), Top(A), THIRD[A], {A}, map[], map[A := 7])
  {
    hide Upto;
  }

  lemma FourthBatch()
    ensures Batch(1, 2, 3, 9, 1, INT64_MAX + 1, 15, THIRD - {A}, FOURTH)
  {
    hide Upto;
  }

  // The table of A has the time stamp of the last picked table, that of B: the
  // table written for A is turned away, and A is lost.
  lemma FourthPick()
    ensures |FOURTH| == 10 && B in FOURTH && Leads(FOURTH, B)
    ensures Becomes(Min(INT64_MAX, B), Top(B), FOURTH[B], {B}, map[A := 7], map[B := 7])
  {
    hide Upto;
  }

  lemma OneMore(a: map<nat, nat>, b: map<nat, nat>)
    ensures MapAt([a], 1) == map[] && MapAt([a, b], 1) == b && |[a]| == 1 && |[a, b]| == 2
    ensures |map[A := 7]| <= 27 && |map[B := 7]| <= 27
  {}

  lemma Following()
    ensures Follows(1, 2) && Follows(2, 3) && Follows(3, 4) && Follows(4, 5) && Follows(5, 6) && Follows(6, A)
    ensures Follows(A, B)
    ensures Follows(B, 1) && Follows(1, 7) && Follows(7, 8) && Follows(8, 2) && Follows(2, 1) && Follows(3, 9)
    ensures Follows(9, 4)
    ensures 1 < INT64_MAX && LEVEL0 == 3 && A != 5 && A != 6 && A != B && A > 9
  {}

  lemma Knowing()
    ensures Known(map[], {2, 3, 4}, map[]) && Known(map[], {5}, map[]) && Known(map[1 := Big()], {2, 3, 4}, map[])
    ensures Known(map[], {6, A, B}, map[A := Big()])
    ensures Known(map[A := Big()], {7, 8, 2}, map[A := Big()]) && Known(map[A := Big()], {2, 3, 9}, map[A := Big()])
    ensures Known(map[A := Big()], {1}, map[A := Big()]) && Known(map[A := Big()], {4}, map[A := Big()])
  {
    hide Big;
  }

  // The store after each batch of four puts, the memtable's first one being
  // the last put of the batch before.
  lemma AfterSecond(e: Env) returns (ops: seq<Op>)
    ensures |ops| == 9 && Basic(EMPTY_STORE) && Trail(e, ops, map[A := Big()], 8, 1, [], [SECOND])
  {
    hide *;
    Following();
    Knowing();
    var done := map[A := Big()];
    TrailStart(e, 1);
    ops := TrailFill(e, [PutOp(1, Big())], map[1 := Big()], 0, 1, [], 2, 3, 4, map[]);
    FirstBatch();
    ops := TrailFirst(e, ops, map[], 1, 2, 3, 4, 5, FIRST);
    ops := TrailFill(e, ops, map[], 4, 5, [FIRST], 6, A, B, done);
    SecondBatch();
    SecondSize();
    ops := TrailMerge(e, ops, done, 7, 5, 6, A, B, 5, B, 1, [FIRST], SECOND);
  }

  lemma AfterThird(e: Env) returns (ops: seq<Op>)
    ensures |ops| == 13 && Basic(EMPTY_STORE) && Trail(e, ops, map[A := Big()], 12, 1, [], [THIRD - {A}, map[A := 7]])
  {
    hide *;
    Following();
    Knowing();
    var done, low := map[A := Big()], map[A := 7];
    ops := AfterSecond(e);
    ops := TrailFill(e, ops, done, 8, 1, [SECOND], 7, 8, 2, done);
    ThirdBatch();
    ThirdPick();
    OnePick(THIRD, A, map[], low);
    OneMore(SECOND, map[]);
    ops := TrailMergeTwo(e, ops, done, 11, 1, 7, 8, 2, 1, INT64_MAX + 1, 1, [SECOND], THIRD, [A], THIRD - {A}, low);
  }

  lemma AfterFourth(e: Env) returns (ops: seq<Op>)
    ensures |ops| == 17 && Basic(EMPTY_STORE) && Trail(e, ops, map[A := Big()], 16, 4, [], [FOURTH - {B}, map[B := 7]])
  {
    hide *;
    Following();
    Knowing();
    var done, ms, low := map[A := Big()], [THIRD - {A}, map[A := 7]], map[B := 7];
    ops := AfterThird(e);
    ops := TrailFill(e, ops, done, 12, 1, ms, 2, 3, 9, done);
    FourthBatch();
    FourthPick();
    OnePick(FOURTH, B, map[A := 7], low);
    OneMore(THIRD - {A}, map[A := 7]);
    ops := TrailMergeTwo(e, ops, done, 15, 1, 2, 3, 9, 1, INT64_MAX + 1, 4, ms, FOURTH, [B], FOURTH - {B}, low);
  }

  // A key no level has is not found.
  lemma {:induction false} NoLevelHas(levels: seq<seq<Table>>, k: nat, i: nat)
    requires i <= |levels| && forall j :: i <= j < |levels| ==> LevelGet(levels[j], k) == None
    ensures LevelsGet(levels, k, i) == None
    decreases |levels| - i
  {
    hide LevelGet;
    if i < |levels| { NoLevelHas(levels, k, i + 1); }
  }

  lemma StageGet(e: Env, s: Store, k: nat, ms: seq<map<nat, nat>>, q: nat)
    requires Stage(e, s, k, [], ms) && q != k && k != HOST
    requires forall i :: 0 <= i < |ms| ==> q !in ms[i] && HOST !in ms[i]
    ensures Get(s, q) == ""
  {
    var levels := s.tiers.levels;
    hide Sane, Big, Thin;
    forall i | 0 <= i < |levels| ensures LevelGet(levels[i], q) == None {
      if i > 0 { ThinGet(levels[i], ms[i - 1], q); }
    }
    NoLevelHas(levels, q, 0);
    NotInContent(k, q);
  }

  lemma LastLookup(e: Env, puts: seq<Op>, clock: nat, k: nat, ms: seq<map<nat, nat>>)
    requires Basic(EMPTY_STORE) && Trail(e, puts, map[A := Big()], clock, k, [], ms) && k != A && k != HOST
    requires forall i :: 0 <= i < |ms| ==> A !in ms[i] && HOST !in ms[i]
    ensures var ops := puts + [GetOp(A)];
            && (forall i :: 0 <= i < |ops| ==> Legal(ops[i]) && !ops[i].DelOp?)
            && Run(e, EMPTY_STORE, ops).1[|puts|] == Found("") && MapRun(map[], ops).1[|puts|] == Found(Big())
  {
    hide Basic, Stage, Big, Run, MapRun, Get;
    var op := GetOp(A);
    assert Legal(op);
    assert A in map[A := Big()];
    RunNext(e, EMPTY_STORE, puts, op);
    MapRunNext(map[], puts, op);
    StageGet(e, Run(e, EMPTY_STORE, puts).0, k, ms, A);
  }

  lemma AIsLost()
    ensures forall i :: 0 <= i < 2 ==> A !in [FOURTH - {B}, map[B := 7]][i] && HOST !in [FOURTH - {B}, map[B := 7]][i]
    ensures A > 4 && HOST > 4
  {
    hide Upto;
  }

  // Seventeen puts, and a lookup of a key among them: the map has it and the
  // store does not. No key is ever deleted.
  lemma LostKeyRun(e: Env) returns (ops: seq<Op>)
    ensures |ops| == 18 && (forall i :: 0 <= i < |ops| ==> Legal(ops[i]) && !ops[i].DelOp?)
    ensures Basic(EMPTY_STORE) && |Run(e, EMPTY_STORE, ops).1| == |MapRun(map[], ops).1| == 18
    ensures Run(e, EMPTY_STORE, ops).1[17] == Found("") && MapRun(map[], ops).1[17] == Found(Big()) != Found("")
  {
    hide *;
    BigFacts();
    AIsLost();
    var puts := AfterFourth(e);
    ops := puts + [GetOp(A)];
    LastLookup(e, puts, 16, 4, [FOURTH - {B}, map[B := 7]]);
  }

  // ---------- A key whose older value comes back ----------

  // What the five batches of puts make of level 1.
  const ONE: map<nat, nat> := Upto(2, 3)[A := 3][B := 3]
  const TWO: map<nat, nat> := Upto(6, 7)[1 := 3][2 := 3][A := 3][B := 3]
  const THREE: map<nat, nat> := Upto(8, 11)[A := 3][B := 3]
  const FOUR: map<nat, nat> := Upto(9, 15)[B := 3][HOST := 15]
  const FIVE: map<nat, nat> := Upto(11, 19)[HOST := 15] - {1}

  // And the third and the fourth of level 2.
  const DEEP3: map<nat, nat> := map[A := 3]
  const DEEP4: map<nat, nat> := map[1 := 15][A := 15][B := 15]

  lemma BatchOne()
    ensures Becomes(0, UINT64, 3, {1, 2, A, B}, map[], ONE) && |ONE| <= 9
  {
    hide Upto;
  }

  lemma BatchTwo()
    ensures Batch(3, 4, 5, 6, 3, INT64_MAX + 1, 7, ONE, TWO)
  {
    hide Upto;
  }

  lemma SizeTwo()
    ensures |TWO| <= 9
  {
    hide Upto;
  }

  lemma BatchThree()
    ensures Batch(1, 7, 8, 2, 1, INT64_MAX + 1, 11, TWO, THREE)
  {
    hide Upto;
  }

  lemma PickThree()
    ensures |THREE| == 10 && A in THREE && Leads(THREE, A)
    ensures Becomes(Min(INT64_MAX, A), Top(A), THREE[A], {A}, map[], DEEP3) && |DEEP3| <= 27
  {
    hide Upto;
  }

  lemma BatchFour()
    ensures Batch(1, HOST, 2, 9, 1, A, 15, THREE - {A}, FOUR)
  {
    hide Upto;
  }

  // The second of these tables gives the new table of A its time stamp.
  lemma PickFour()
    ensures |FOUR| == 11 && B in FOUR && Leads(FOUR, B) && 1 in FOUR - {B} && Leads(FOUR - {B}, 1) && FOUR[1] == 15
  {
    hide Upto;
  }

  lemma DeepFour()
    ensures Becomes(1, B, 15, {B, 1}, DEEP3, DEEP4) && |DEEP4| <= 27
  {}

  lemma BatchFive()
    ensures Batch(2, 10, 3, 11, 2, INT64_MAX + 1, 19, FOUR - {B} - {1}, FIVE)
  {
    hide Upto;
  }

  // The table with the newer value of A and the one of A below have one time
  // stamp.
  lemma PickFive()
    ensures |FIVE| == 11 && Leads(FIVE, HOST) && Leads(FIVE - {HOST}, 2) && FIVE[HOST] == 15 && FIVE[2] == 19
    ensures A !in FIVE && |DEEP4| == 3 && forall k :: k in DEEP4 ==> DEEP4[k] == 15
  {
    hide Upto;
  }

  lemma TwoPicks(m: map<nat, nat>, x: nat, y: nat)
    requires x in m && Leads(m, x) && y in m - {x} && Leads(m - {x}, y)
    ensures Leaders(m, [x, y], m - {x} - {y}) && KeysOf([x, y]) == {x, y} && [x, y][1] == y
    ensures LoOf([x, y]) == Min(Min(INT64_MAX, x), y) && TopOf([x, y]) == Max(Top(x), Top(y))
  {
    hide LoOf, TopOf, Leads;
    HullNextKey([], x);
    HullNextKey([x], y);
    assert [] + [x] == [x] && [x] + [y] == [x, y];
    assert [x, y][1..] == [y] && [y][1..] == [];
    assert Leaders(m - {x} - {y}, [], m - {x} - {y});
    assert Leaders(m - {x}, [y], m - {x} - {y});
  }

  lemma MovesFour()
    ensures Moves(FOUR, [B, 1], FOUR - {B} - {1}, DEEP3, DEEP4)
  {
    PickFour();
    DeepFour();
    TwoPicks(FOUR, B, 1);
    hide Upto, Leaders, Becomes, LoOf, TopOf, KeysOf;
  }

  lemma MoreFollowing()
    ensures Follows(2, A) && Follows(B, 3) && Follows(6, 1) && Follows(HOST, 2) && Follows(2, 9) && Follows(9, 2)
    ensures Follows(2, 10)
    ensures Follows(10, 3) && Follows(3, 11) && Follows(11, 4) && B < UINT64 && HOST != 1
    ensures Known(map[], {3}, map[]) && Known(map[], {4, 5, 6}, map[]) && Known(map[], {1}, map[])
    ensures Known(map[], {7, 8, 2}, map[])
    ensures Known(map[1 := Big()], {2, A, B}, map[]) && Known(map[A := SMALL], {2}, map[A := SMALL])
    ensures Known(map[A := SMALL], {10, 3, 11}, map[A := SMALL])
  {
    hide Big;
  }

  lemma UpToThree(e: Env) returns (ops: seq<Op>)
    ensures |ops| == 13 && ops[2] == PutOp(A, Big()) && Basic(EMPTY_STORE)
    ensures Trail(e, ops, map[], 12, 1, [], [THREE - {A}, DEEP3])
  {
    hide *;
    Following();
    MoreFollowing();
    TrailStart(e, 1);
    ops := TrailFill(e, [PutOp(1, Big())], map[1 := Big()], 0, 1, [], 2, A, B, map[]);
    BatchOne();
    ops := TrailFirst(e, ops, map[], 1, 2, A, B, 3, ONE);
    ops := TrailFill(e, ops, map[], 4, 3, [ONE], 4, 5, 6, map[]);
    BatchTwo();
    SizeTwo();
    ops := TrailMerge(e, ops, map[], 7, 3, 4, 5, 6, 3, INT64_MAX + 1, 1, [ONE], TWO);
    ops := TrailFill(e, ops, map[], 8, 1, [TWO], 7, 8, 2, map[]);
    BatchThree();
    PickThree();
    OnePick(THREE, A, map[], DEEP3);
    OneMore(TWO, map[]);
    ops := TrailMergeTwo(e, ops, map[], 11, 1, 7, 8, 2, 1, INT64_MAX + 1, 1, [TWO], THREE, [A], THREE - {A}, DEEP3);
  }

  // The second of these puts joins the first one's table.
  lemma FourthLevel0(e: Env) returns (ops: seq<Op>)
    ensures |ops| == 17 && ops[2] == PutOp(A, Big()) && ops[14] == PutOp(A, SMALL) && Basic(EMPTY_STORE)
    ensures Trail(e, ops, map[A := SMALL], 15, 9, [1, HOST, 2], [THREE - {A}, DEEP3])
  {
    hide *;
    Following();
    MoreFollowing();
    var done, ms := map[A := SMALL], [THREE - {A}, DEEP3];
    ops := UpToThree(e);
    ops := TrailHost(e, ops, map[], 12, 1, [], ms);
    assert [] + [1] == [1] && [1] + [HOST] == [1, HOST] && [1, HOST] + [2] == [1, HOST, 2];
    TrailQuiet(e, ops, done, 13, HOST, [1], ms, 2);
    ops := ops + [PutOp(2, Big())];
    TrailQuiet(e, ops, done[2 := Big()], 14, 2, [1, HOST], ms, 9);
    ops := ops + [PutOp(9, Big())];
    TrailForget(e, ops, done[2 := Big()][9 := Big()], done, 15, 9, [1, HOST, 2], ms);
  }

  lemma UpToFive(e: Env) returns (ops: seq<Op>)
    ensures |ops| == 21 && ops[2] == PutOp(A, Big()) && ops[14] == PutOp(A, SMALL) && Basic(EMPTY_STORE)
    ensures Trail(e, ops, map[A := SMALL], 19, 11, [2, 10, 3], [FOUR - {B} - {1}, DEEP4])
  {
    hide *;
    Following();
    MoreFollowing();
    var done, ms := map[A := SMALL], [THREE - {A}, DEEP3];
    ops := FourthLevel0(e);
    BatchFour();
    DeepFour();
    MovesFour();
    OneMore(THREE - {A}, DEEP3);
    ops := TrailMergeTwo(e, ops, done, 15, 1, HOST, 2, 9, 1, A, 2, ms, FOUR, [B, 1], FOUR - {B} - {1}, DEEP4);
    ops := TrailFill(e, ops, done, 16, 2, [FOUR - {B} - {1}, DEEP4], 10, 3, 11, done);
  }

  // ---------- The last compaction ----------

  ghost predicate Stamped(l: seq<Table>, T: nat) { forall t :: t in l ==> t.timeStamp == T }

  // Two tables are picked, and the first one, which has the newer value of A,
  // comes before the one of A below.
  ghost predicate Crossed(picked: seq<Table>, low: seq<Table>, m: map<nat, nat>) {
    && Ready(picked, low) && Thin(low, m) && A in m && Stamped(low, 15)
    && |picked| == 2 && Single(picked[0]) && picked[0].minKey == HOST
    && picked[0].timeStamp == 15 && picked[1].timeStamp == 19
  }

  lemma CrossedHull(picked: seq<Table>, low: seq<Table>, m: map<nat, nat>)
    requires Crossed(picked, low, m)
    ensures InHull(picked, A) && InOrder(picked, low)
  {
    HullMinCap(picked);
    hide HullMin, HullMax, Loaded;
    assert picked[0] in picked;
  }

  lemma NoNewTurned(h: Hash, picked: seq<Table>, low: seq<Table>, level: nat, count: nat, lastLevel: bool, m: map<nat,
                    nat>)
    requires Crossed(picked, low, m)
    ensures picked != [] && Solid(picked) && Solid(low)
    ensures !TurnedAway(low, Added(h, picked, low, level, count, lastLevel), A)
  {
    CrossedHull(picked, low, m);
    AddedTables(h, picked, low, level, count, lastLevel);
    var added := Added(h, picked, low, level, count, lastLevel);
    hide *;
    InOrderSolid(picked, low);
    CrossedStamps(picked, low, m);
    forall t | t in added ensures !EquivalentToOne(t, low) {
      WrittenStamp(t, level, 19);
      forall x | x in low ensures !Equivalent(t, x) { SameOrder(t, x); }
      NotEquivalent(t, low);
    }
    NoneTurned(low, added, A);
  }

  lemma CrossedStamps(picked: seq<Table>, low: seq<Table>, m: map<nat, nat>)
    requires Crossed(picked, low, m)
    ensures |picked| == 2 && picked[1].timeStamp == 19 && forall x :: x in low ==> x.timeStamp == 15
  {}

  lemma WrittenStamp(t: Table, level: nat, T: nat)
    requires Written(t, level, T)
    ensures t.timeStamp == T
  {}

  // The merged value of A is the older one.
  lemma OlderWins(picked: seq<Table>, low: seq<Table>, m: map<nat, nat>)
    requires Crossed(picked, low, m)
    ensures LevelGet(Sources(picked, low), A) == Some(Big())
  {
    CrossedHull(picked, low, m);
    var p, sel := picked[0], Select(low, HullMin(picked), HullMax(picked));
    SelectDisjoint(low, HullMin(picked), HullMax(picked));
    assert HasSingle(low, A);
    var q :| q in low && q.minKey == A;
    SelectedSingle(picked, q);
    LoadedHolds(p, HOST);
    LoadedHolds(q, A);
    hide Big, HullMin, HullMax, LevelGet, Content, Find;
    assert p in picked && q in sel && !Before(q, p);
    SourcesWithPicked(picked, sel, A, p);
  }

  lemma OlderStays(h: Hash, picked: seq<Table>, low: seq<Table>, level: nat, count: nat, lastLevel: bool, m: map<nat,
                   nat>)
    requires Crossed(picked, low, m)
    ensures picked != [] && Solid(picked) && Solid(low)
    ensures LevelGet(MergedLevel(low, picked, Added(h, picked, low, level, count, lastLevel)), A) == Some(Big())
  {
    hide *;
    BigFacts();
    CrossedHull(picked, low, m);
    InOrderSolid(picked, low);
    NoNewTurned(h, picked, low, level, count, lastLevel, m);
    OlderWins(picked, low, m);
    CrossedThin(picked, low, m);
    HullNotAlone(picked, low, m, A);
    MergedLevelIs(h, picked, low, level, count, lastLevel, A);
    KeptBig(lastLevel);
  }

  lemma CrossedThin(picked: seq<Table>, low: seq<Table>, m: map<nat, nat>)
    requires Crossed(picked, low, m)
    ensures Thin(low, m)
  {}

  lemma KeptBig(lastLevel: bool)
    ensures Kept(Some(Big()), lastLevel) == Some(Big())
  {
    BigFacts();
    hide Big;
  }

  // At most two pairs per table.
  lemma {:induction false} FewPairs(l: seq<Table>)
    requires forall t :: t in l ==> Single(t)
    ensures PairsOf(l) <= 2 * |l|
  {
    hide Big;
    if l != [] {
      assert l[0] in l;
      FewPairs(l[1..]);
    }
  }

  lemma FivePicked(t: Tiers)
    requires BelowIs(t, [FIVE, DEEP4])
    ensures |t.levels| == 3 && Due(t, 2) && CompactNum(t, 2) == 2 <= |t.levels[1]| && t.Extend(2) == t
    ensures var picked := t.levels[1][..2];
            && (forall x :: x in picked ==> Single(x)) && picked[0].minKey == HOST
            && picked[0].timeStamp == 15 && picked[1].timeStamp == 19
    ensures LevelGet(t.levels[1][2..], A) == None
    ensures |t.levels[2]| == 3 && Thin(t.levels[2], DEEP4)
  {
    hide *;
    var m := FIVE;
    BelowSize(t, [FIVE, DEEP4], 0);
    BelowSize(t, [FIVE, DEEP4], 1);
    BelowCount(t, FIVE, DEEP4);
    PickFive();
    HostInFive();
    TwoPicks(m, HOST, 2);
    ThinLeaders(t.levels[1], m, [HOST, 2], m - {HOST} - {2});
    ThinGet(t.levels[1][2..], m - {HOST} - {2}, A);
    DueAt(t, 2);
    var picked := t.levels[1][..2];
    assert forall x :: x in picked ==> x == picked[0] || x == picked[1];
  }

  lemma BelowCount(t: Tiers, a: map<nat, nat>, b: map<nat, nat>)
    requires BelowIs(t, [a, b])
    ensures |t.levels| == 3 && t.Extend(2) == t
  {
    hide Thin;
  }

  lemma HostInFive()
    ensures HOST in FIVE && 2 in FIVE - {HOST} && A !in FIVE - {HOST} - {2} && HOST !in FIVE - {HOST} - {2}
  {
    hide Upto;
  }

  lemma FiveCrossed(picked: seq<Table>, low: seq<Table>)
    requires Ready(picked, low) && Thin(low, DEEP4) && |picked| == 2 && Single(picked[0]) && picked[0].minKey == HOST
    requires picked[0].timeStamp == 15 && picked[1].timeStamp == 19
    ensures Crossed(picked, low, DEEP4)
  {
    hide Ready, Single, HasSingle;
  }

  // Level 2 keeps room.
  lemma FewAfter(h: Hash, picked: seq<Table>, low: seq<Table>, level: nat, count: nat, lastLevel: bool)
    requires InOrder(picked, low) && |picked| == 2 && |low| == 3 && Thin(low, DEEP4)
    requires forall x :: x in picked ==> Single(x)
    ensures picked != [] && Solid(picked) && Solid(low)
    ensures |MergedLevel(low, picked, Added(h, picked, low, level, count, lastLevel))| <= 10
  {
    hide *;
    InOrderSolid(picked, low);
    ThinParts(low, DEEP4);
    FewPairs(picked);
    FewPairs(low);
    MergedLevelShrinks(h, picked, low, level, count, lastLevel);
    TablesAtMostPairs(MergedLevel(low, picked, Added(h, picked, low, level, count, lastLevel)));
  }

  lemma UpperLevel(t: Tiers, c: Tiers)
    requires 2 <= |t.levels| && Due(t, 2) && Framed(t, t, c, 2)
    ensures 2 < |c.levels| && c.levels[1] == t.levels[1][CompactNum(t, 2)..]
  {}

  // Level 1 has two tables too many; they are merged into level 2.
  lemma LastCompaction(h: Hash, t: Tiers)
    requires t.Sound() && Good(h, t) && BelowIs(t, [FIVE, DEEP4])
    ensures |t.levels| >= 2
    ensures var r := Cascade(h, t, 2).levels;
            |r| == 3 && LevelGet(r[1], A) == None && LevelGet(r[2], A) == Some(Big())
  {
    hide *;
    FivePicked(t);
    PickedReady(h, t, 2);
    CompactUnfold(h, t, 2);
    CascadeStep(h, t, 2);
    var picked, low, c := t.levels[1][..2], t.levels[2], Compact(h, t, 2);
    FiveCrossed(picked, low);
    CrossedHull(picked, low, DEEP4);
    InOrderSolid(picked, low);
    FramedParts(t, t, c, 2);
    MergesParts(h, picked, t, c, 2);
    UpperLevel(t, c);
    FewAfter(h, picked, low, 2, t.count[2], 2 == |t.levels| - 1);
    OlderStays(h, picked, low, 2, t.count[2], 2 == |t.levels| - 1, DEEP4);
    DueAt(c, 3);
    CascadeStep(h, c, 3);
  }

  // The put that starts it, and what the store then has for A.
  lemma StaleLookup(e: Env, s: Store)
    requires Stage(e, s, 11, [2, 10, 3], [FOUR - {B} - {1}, DEEP4]) && s.clock == 19
    ensures Basic(s) && Storable(4, Big()) && Get(Put(e, s, 4, Big()), A) == Big()
  {
    hide *;
    Following();
    MoreFollowing();
    BigFacts();
    var ms, z := [FOUR - {B} - {1}, DEEP4], [2, 10, 3];
    BatchFive();
    BatchBecomes(2, 10, 3, 11, 2, INT64_MAX + 1, 19, ms[0], FIVE);
    OfFour(2, 10, 3, 11);
    MergeOne(e, s, 11, z, ms, FIVE);
    WithFirst(ms, FIVE);
    var t := FlushTiers(e, s);
    var c := Compact(e.hash, t, 1);
    assert With(ms, 0, FIVE) == [FIVE, DEEP4];
    LastCompaction(e.hash, c);
    FollowsParts(11, 4);
    AnotherKey(e, s, 11, z, ms, 4);
    FlushedIs(e, s, 11, z, ms);
    SettledGet(e.hash, t, Put(e, s, 4, Big()));
  }

  lemma FollowsParts(k: nat, q: nat)
    requires Follows(k, q)
    ensures q != k && (k == HOST ==> q != A) && q < UINT64 - 1
  {}

  lemma SettledGet(h: Hash, t: Tiers, s: Store)
    requires t.Sound() && |t.levels[0]| == t.count[0] == LEVEL0 + 1 && s.tiers == Settle(h, t)
    requires s.mem == [Pair(4, Big())]
    requires |Cascade(h, t, 1).levels| == 3
    requires LevelGet(Cascade(h, t, 1).levels[1], A) == None && LevelGet(Cascade(h, t, 1).levels[2], A) == Some(Big())
    ensures Get(s, A) == Big()
  {
    BigFacts();
    hide Cascade, Big;
    var l := Settle(h, t).levels;
    assert l == Cascade(h, t, 1).levels && l[0] == [];
    NotInContent(4, A);
    assert LevelGet([], A) == None;
    assert LevelsGet(l, A, 2) == Some(Big());
    assert LevelsGet(l, A, 1) == Some(Big());
    assert LevelsGet(l, A, 0) == Some(Big());
  }

  // Twenty-two puts, and a lookup of the key that the third of them stores and
  // the fifteenth stores again: the store answers the first of the two values,
  // the map the second. No key is ever deleted.
  lemma StaleRun(e: Env) returns (ops: seq<Op>)
    ensures |ops| == 23 && (forall i :: 0 <= i < |ops| ==> Legal(ops[i]) && !ops[i].DelOp?)
    ensures ops[2] == PutOp(A, Big()) && ops[14] == PutOp(A, SMALL) && ops[22] == GetOp(A) && Big() != SMALL
    ensures Basic(EMPTY_STORE) && |Run(e, EMPTY_STORE, ops).1| == |MapRun(map[], ops).1| == 23
    ensures Run(e, EMPTY_STORE, ops).1[22] == Found(Big()) && MapRun(map[], ops).1[22] == Found(SMALL)
  {
    hide *;
    BigFacts();
    var puts := UpToFive(e);
    ops := puts + [PutOp(4, Big())] + [GetOp(A)];
    StaleEnd(e, puts);
  }

  lemma StaleEnd(e: Env, puts: seq<Op>)
    requires Basic(EMPTY_STORE) && Trail(e, puts, map[A := SMALL], 19, 11, [2, 10, 3], [FOUR - {B} - {1}, DEEP4])
    ensures var ops := puts + [PutOp(4, Big())] + [GetOp(A)];
            && (forall i :: 0 <= i < |ops| ==> Legal(ops[i]) && !ops[i].DelOp?)
            && |Run(e, EMPTY_STORE, ops).1| == |MapRun(map[], ops).1| == |ops|
            && Run(e, EMPTY_STORE, ops).1[|puts| + 1] == Found(Big())
            && MapRun(map[], ops).1[|puts| + 1] == Found(SMALL)
  {
    hide Basic, Stage, Big, Run, MapRun, Get, Put, Upto;
    BigFacts();
    var put, get := PutOp(4, Big()), GetOp(A);
    var s := Run(e, EMPTY_STORE, puts).0;
    StaleLookup(e, s);
    assert Legal(put) && Legal(get);
    assert A in map[A := SMALL];
    RunNext(e, EMPTY_STORE, puts, put);
    MapRunNext(map[], puts, put);
    RunNext(e, EMPTY_STORE, puts + [put], get);
    MapRunNext(map[], puts + [put], get);
  }
}
