// Stores whose levels are as in ThinLevels: what a put of one more long value
// does to them, with its flush and its compactions.
module ThinStores {
  import opened Arithmetic
  import opened Options
  import opened Counting
  import opened Pairs
  import opened Merge
  import opened Tables
  import opened Levels
  import opened Compaction
  import opened Cascades
  import opened Ties
  import opened History
  import opened Stores
  import opened ThinLevels

  // ---------- Stores of such levels ----------

  // A flushed table of the one kind.
  ghost predicate Flushed(t: Table, k: nat, stamp: nat) {
    && t.timeStamp == stamp && Loaded(t, k)
    && (stamp > 0 ==> t.minKey == Min(k, INT64_MAX) && t.maxKey == Max(Top(k), INT64_MAX + 1))
  }

  // The put of the second key is one of a new first key.
  predicate Follows(k: nat, q: nat) { q != k && q != HOST && !(k == HOST && q == A) && q < UINT64 - 1 }

  // The memtable holds the pairs of `k`, level 0 holds `zero`, oldest first, and the levels
  // below are as the maps say.
  ghost predicate Stage(e: Env, s: Store, k: nat, zero: seq<nat>, ms: seq<map<nat, nat>>) {
    && Sane(e, s) && s.mem == Content(k)
    && CLEARED_MEMORY + BIG + 13 <= s.memory <= INITIAL_SIZE + BIG + 13 + 14
    && (s.clock > 0 ==> s.minKey == Min(k, INT64_MAX) && s.maxKey == Max(Top(k), INT64_MAX + 1))
    && ZeroIs(s.tiers, zero, s.clock) && BelowIs(s.tiers, ms)
  }

  ghost predicate ZeroIs(t: Tiers, zero: seq<nat>, clock: nat) {
    && t.levels != [] && |t.levels[0]| == |zero| <= clock
    && forall i :: 0 <= i < |zero| ==> Flushed(t.levels[0][i], zero[i], clock - |zero| + i)
  }

  ghost predicate BelowIs(t: Tiers, ms: seq<map<nat, nat>>) {
    |t.levels| == |ms| + 1 && forall i :: 0 <= i < |ms| ==> Thin(t.levels[i + 1], ms[i])
  }

  // The first put.
  lemma FirstPut(e: Env, k: nat)
    requires k < INT64_MAX
    ensures Sane(e, EMPTY_STORE) && Storable(k, Big())
    ensures Stage(e, Put(e, EMPTY_STORE, k, Big()), k, [], []) && Put(e, EMPTY_STORE, k, Big()).clock == 0
  {
    hide Big;
    BigFacts();
    EmptyStoreSane(e);
    PutSane(e, EMPTY_STORE, k, Big());
    hide Good, Sane;
    assert Grow(INITIAL_SIZE, "", Big()) == INITIAL_SIZE + BIG + 13;
  }

  lemma NotInContent(k: nat, q: nat)
    requires q != k && (k == HOST ==> q != A)
    ensures Find(Content(k), q) == None
  {
    hide Big;
    var s := Content(k);
    assert s[1..] == if k == HOST then [Pair(A, SMALL)] else [];
    assert k == HOST ==> s[1..][1..] == [];
  }

  // A second long value does not fit in the memtable.
  lemma AnotherKey(e: Env, s: Store, k: nat, zero: seq<nat>, ms: seq<map<nat, nat>>, q: nat)
    requires Stage(e, s, k, zero, ms) && q != k && (k == HOST ==> q != A) && q < UINT64 - 1
    ensures Storable(q, Big()) && Basic(s) && Flushes(s, q, Big()) && s.mem != []
    ensures Put(e, s, q, Big())
         == Store([Pair(q, Big())], CLEARED_MEMORY + BIG + 13, Min(INT64_MAX, q), Max(INT64_MAX + 1, q), s.clock + 1,
                  Settle(e.hash, FlushTiers(e, s)))
  {
    hide Big, Good, TiersOk, Settle, FlushTiers, ZeroIs, BelowIs, AllOlder;
    BigFacts();
    NotInContent(k, q);
    assert Grow(s.memory, "", Big()) == s.memory + BIG + 13;
    assert Grow(CLEARED_MEMORY, "", Big()) == CLEARED_MEMORY + BIG + 13;
    assert Insert([], q, Big()) == [Pair(q, Big())];
  }

  lemma FlushedIs(e: Env, s: Store, k: nat, zero: seq<nat>, ms: seq<map<nat, nat>>)
    requires Stage(e, s, k, zero, ms)
    ensures Basic(s) && s.mem != []
    ensures ZeroIs(FlushTiers(e, s), zero + [k], s.clock + 1) && BelowIs(FlushTiers(e, s), ms)
    ensures FlushTiers(e, s).Sound() && |FlushTiers(e, s).levels[0]| == FlushTiers(e, s).count[0] == |zero| + 1
  {
    hide Big, Good, AllOlder, Thin;
    var t := FlushTiers(e, s);
    assert t.levels[0] == s.tiers.levels[0] + [FlushedTable(e, s)];
    assert Flushed(FlushedTable(e, s), k, s.clock);
    forall i | 0 <= i < |ms| ensures Thin(t.levels[i + 1], ms[i]) { assert t.levels[i + 1] == s.tiers.levels[i + 1]; }
  }

  // Level 0 has room for the flushed table.
  lemma QuietPut(e: Env, s: Store, k: nat, zero: seq<nat>, ms: seq<map<nat, nat>>, q: nat)
    requires Stage(e, s, k, zero, ms) && |zero| < LEVEL0 && Follows(k, q)
    ensures Basic(s) && Storable(q, Big())
    ensures Stage(e, Put(e, s, q, Big()), q, zero + [k], ms) && Put(e, s, q, Big()).clock == s.clock + 1
  {
    AnotherKey(e, s, k, zero, ms, q);
    FlushedIs(e, s, k, zero, ms);
    PutSane(e, s, q, Big());
    hide Put, Big, Sane, FlushTiers, Thin, Flushed;
    assert Settle(e.hash, FlushTiers(e, s)) == FlushTiers(e, s);
  }

  // The put of the first key of two.
  lemma HostPut(e: Env, s: Store, k: nat, zero: seq<nat>, ms: seq<map<nat, nat>>)
    requires Stage(e, s, k, zero, ms) && |zero| < LEVEL0 && k != HOST
    ensures Basic(s) && Storable(HOST, Big())
    ensures var r := Put(e, s, HOST, Big());
            && r == Store([Pair(HOST, Big())], CLEARED_MEMORY + BIG + 13, INT64_MAX, HOST, s.clock + 1,
                          FlushTiers(e, s))
            && Sane(e, r) && ZeroIs(r.tiers, zero + [k], r.clock) && BelowIs(r.tiers, ms)
  {
    AnotherKey(e, s, k, zero, ms, HOST);
    FlushedIs(e, s, k, zero, ms);
    PutSane(e, s, HOST, Big());
    hide Put, Big, Sane, FlushTiers, Thin, Flushed, BelowIs, ZeroIs;
    assert Settle(e.hash, FlushTiers(e, s)) == FlushTiers(e, s);
  }

  // The put of the other one, which the memtable has room for.
  lemma RiderFits(e: Env, r: Store)
    requires r.mem == [Pair(HOST, Big())] && r.memory == CLEARED_MEMORY + BIG + 13
    requires r.minKey == INT64_MAX && r.maxKey == HOST && Basic(r)
    ensures Storable(A, SMALL)
    ensures Put(e, r, A, SMALL) == r.(mem := Content(HOST), memory := CLEARED_MEMORY + BIG + 27, maxKey := A)
  {
    hide Big, TiersOk;
    BigFacts();
    assert r.mem[1..] == [];
    assert Find(r.mem, A) == None;
    assert Grow(r.memory, "", SMALL) == r.memory + 14;
    assert Insert([], A, SMALL) == [Pair(A, SMALL)];
    assert Insert(r.mem, A, SMALL) == Content(HOST);
  }

  lemma RiderPut(e: Env, r: Store, zero: seq<nat>, ms: seq<map<nat, nat>>)
    requires r.clock > 0 && r.mem == [Pair(HOST, Big())] && r.memory == CLEARED_MEMORY + BIG + 13
    requires r.minKey == INT64_MAX && r.maxKey == HOST
    requires Sane(e, r) && ZeroIs(r.tiers, zero, r.clock) && BelowIs(r.tiers, ms)
    ensures Storable(A, SMALL) && Basic(r)
    ensures Stage(e, Put(e, r, A, SMALL), HOST, zero, ms) && Put(e, r, A, SMALL).clock == r.clock
  {
    RiderFits(e, r);
    PutSane(e, r, A, SMALL);
    hide Put, Big, Sane, ZeroIs, BelowIs;
  }

  // ---------- A flush that starts compactions ----------

  // The hull of flushed tables.
  function LoOf(zero: seq<nat>): (r: nat)
    ensures r <= INT64_MAX
  {
    if zero == [] then INT64_MAX else Min(LoOf(zero[..|zero| - 1]), zero[|zero| - 1])
  }

  function HiOf(zero: seq<nat>): nat {
    if zero == [] then 0 else Max(HiOf(zero[..|zero| - 1]), Max(Top(zero[|zero| - 1]), INT64_MAX + 1))
  }

  lemma {:induction false} HullOf(l: seq<Table>, zero: seq<nat>, first: nat)
    requires |l| == |zero| && first > 0
    requires forall i :: 0 <= i < |l| ==> Flushed(l[i], zero[i], first + i)
    ensures HullMin(l) == LoOf(zero) && HullMax(l) == HiOf(zero)
  {
    hide Loaded;
    if l != [] {
      HullOf(l[..|l| - 1], zero[..|zero| - 1], first);
      assert Flushed(l[|l| - 1], zero[|l| - 1], first + |l| - 1);
    }
  }

  function KeysOf(zero: seq<nat>): set<nat> { set k | k in zero }

  lemma ZeroPicked(h: Hash, t: Tiers, zero: seq<nat>, clock: nat)
    requires Good(h, t) && ZeroIs(t, zero, clock) && |zero| == LEVEL0 + 1
    ensures var l := t.levels[0];
            && l[..LEVEL0 + 1] == l && l[LEVEL0 + 1..] == []
            && AllLoaded(l, KeysOf(zero)) && (forall k :: k in KeysOf(zero) ==> InHull(l, k))
            && l[|l| - 1].timeStamp == clock - 1
            && (clock > LEVEL0 + 1 ==> HullMin(l) == LoOf(zero) && HullMax(l) == HiOf(zero))
  {
    hide *;
    ZeroParts(h, t, zero, clock);
    var l := t.levels[0];
    ZeroPairs(l, zero, clock);
    if clock > LEVEL0 + 1 { HullOf(l, zero, clock - |zero|); }
    LastStamp(l, zero, clock);
  }

  lemma ZeroParts(h: Hash, t: Tiers, zero: seq<nat>, clock: nat)
    requires Good(h, t) && ZeroIs(t, zero, clock)
    ensures t.levels != [] && |t.levels[0]| == |zero| <= clock && AllInRange(t.levels[0])
    ensures forall i :: 0 <= i < |zero| ==> Flushed(t.levels[0][i], zero[i], clock - |zero| + i)
    ensures |zero| == LEVEL0 + 1 ==>
              t.levels[0] != [] && t.levels[0][..LEVEL0 + 1] == t.levels[0] && t.levels[0][LEVEL0 + 1..] == []
  {
    hide WellFormed, Flushed, InRange, Disjoint, InTime;
    assert LevelOk(h, t.levels[0]);
  }

  lemma ZeroPairs(l: seq<Table>, zero: seq<nat>, clock: nat)
    requires AllInRange(l) && |l| == |zero| <= clock
    requires forall i :: 0 <= i < |zero| ==> Flushed(l[i], zero[i], clock - |zero| + i)
    ensures AllLoaded(l, KeysOf(zero)) && forall k :: k in KeysOf(zero) ==> InHull(l, k)
  {
    hide *;
    forall i | 0 <= i < |l| ensures Loaded(l[i], zero[i]) && l[i] in l && zero[i] in zero {
      FlushedPair(l[i], zero[i], clock - |zero| + i);
    }
    forall t | t in l ensures exists k :: k in zero && Loaded(t, k) {
      var i :| 0 <= i < |l| && l[i] == t;
      assert zero[i] in zero && Loaded(t, zero[i]);
    }
    forall k | k in zero ensures (exists t :: t in l && Loaded(t, k)) && InHull(l, k) {
      var i :| 0 <= i < |zero| && zero[i] == k;
      assert l[i] in l && Loaded(l[i], k);
      PairInHull(l, l[i], k);
    }
    AllLoadedFrom(l, zero);
  }

  lemma FlushedPair(t: Table, k: nat, stamp: nat)
    requires Flushed(t, k, stamp)
    ensures Loaded(t, k)
  {
    hide Loaded;
  }

  lemma PairInHull(l: seq<Table>, t: Table, k: nat)
    requires AllInRange(l) && t in l && Loaded(t, k)
    ensures InHull(l, k)
  {
    assert InRange(t);
    hide Big;
  }

  lemma AllLoadedFrom(l: seq<Table>, zero: seq<nat>)
    requires forall t :: t in l ==> exists k :: k in zero && Loaded(t, k)
    requires forall k :: k in zero ==> (exists t :: t in l && Loaded(t, k)) && InHull(l, k)
    ensures AllLoaded(l, KeysOf(zero)) && forall k :: k in KeysOf(zero) ==> InHull(l, k)
  {
    hide Loaded, InHull;
  }

  lemma LastStamp(l: seq<Table>, zero: seq<nat>, clock: nat)
    requires l != [] && |l| == |zero| <= clock && Flushed(l[|l| - 1], zero[|l| - 1], clock - |zero| + (|l| - 1))
    ensures l[|l| - 1].timeStamp == clock - 1
  {}

  // What level i holds; a level that is not there holds nothing.
  function MapAt(ms: seq<map<nat, nat>>, i: nat): map<nat, nat> { if i < |ms| then ms[i] else map[] }

  function With(ms: seq<map<nat, nat>>, i: nat, m: map<nat, nat>): seq<map<nat, nat>>
    requires i <= |ms|
  {
    if i < |ms| then ms[i := m] else ms + [m]
  }

  lemma ThinEmpty()
    ensures Thin([], map[])
  {}

  lemma BelowAt(t: Tiers, ms: seq<map<nat, nat>>, level: nat)
    requires BelowIs(t, ms) && 1 <= level <= |t.levels|
    ensures level < |t.Extend(level).levels| && Thin(t.Extend(level).levels[level], MapAt(ms, level - 1))
  {
    ThinEmpty();
    hide Thin;
  }

  // One compaction: the upper level loses its picked tables and the lower one
  // becomes what the map says.
  lemma StageCompact(h: Hash, t: Tiers, level: nat, ms: seq<map<nat, nat>>, keys: set<nat>, rest: map<nat, nat>,
                     m': map<nat, nat>)
    requires 1 <= level <= |t.levels| && Good(h, t) && Due(t, level) && BelowIs(t, ms)
    requires var n := CompactNum(t, level);
             && n <= |t.levels[level - 1]| && AllLoaded(t.levels[level - 1][..n], keys)
             && (forall k :: k in keys ==> InHull(t.levels[level - 1][..n], k))
             && BecomesFor(t.levels[level - 1][..n], keys, MapAt(ms, level - 1), m')
             && (level > 1 ==> Thin(t.levels[level - 1][n..], rest))
    ensures t.Sound()
    ensures BelowIs(Compact(h, t, level),
                    if level == 1 then With(ms, 0, m') else With(ms[level - 2 := rest], level - 1, m'))
  {
    hide *;
    GoodSound(h, t);
    var n, x, c := CompactNum(t, level), t.Extend(level), Compact(h, t, level);
    CompactReady(t, level);
    CompactUnfold(h, t, level);
    FramedParts(t, x, c, level);
    MergesParts(h, t.levels[level - 1][..n], x, c, level);
    PickedInOrder(h, t, level);
    BelowAt(t, ms, level);
    ThinMerge(h, t.levels[level - 1][..n], x.levels[level], level, x.count[level],
              level == |x.levels| - 1, keys, MapAt(ms, level - 1), m');
    BelowFrom(t, x, c, level, ms, rest, m');
  }

  lemma BelowFrom(t: Tiers, x: Tiers, c: Tiers, level: nat, ms: seq<map<nat, nat>>, rest: map<nat, nat>, m': map<nat,
                  nat>)
    requires 1 <= level <= |t.levels| && Due(t, level) && Framed(t, x, c, level) && BelowIs(t, ms)
    requires level < |c.levels| && Thin(c.levels[level], m')
    requires level > 1 ==> Thin(t.levels[level - 1][CompactNum(t, level)..], rest)
    ensures BelowIs(c, if level == 1 then With(ms, 0, m') else With(ms[level - 2 := rest], level - 1, m'))
  {
    hide Thin, Due, CompactNum;
    var r := if level == 1 then With(ms, 0, m') else With(ms[level - 2 := rest], level - 1, m');
    forall i | 0 <= i < |r| ensures Thin(c.levels[i + 1], r[i]) {
      if i + 1 != level && i + 1 != level - 1 {
        assert c.levels[i + 1] == x.levels[i + 1] == t.levels[i + 1];
      }
    }
  }

  lemma SettledPut(e: Env, s: Store, k: nat, zero: seq<nat>, ms: seq<map<nat, nat>>, q: nat, ms': seq<map<nat, nat>>)
    requires Stage(e, s, k, zero, ms) && |zero| == LEVEL0 && Follows(k, q)
    requires Basic(s) && s.mem != [] && BelowIs(Cascade(e.hash, FlushTiers(e, s), 1), ms')
    ensures Storable(q, Big()) && Stage(e, Put(e, s, q, Big()), q, [], ms') && Put(e, s, q, Big()).clock == s.clock + 1
  {
    AnotherKey(e, s, k, zero, ms, q);
    FlushedIs(e, s, k, zero, ms);
    PutSane(e, s, q, Big());
    var t, r := FlushTiers(e, s), Settle(e.hash, FlushTiers(e, s));
    SettleIs(e.hash, t, ms');
    hide *;
    StageFrom(e, Put(e, s, q, Big()), q, [], ms');
  }

  lemma SettleIs(h: Hash, t: Tiers, ms': seq<map<nat, nat>>)
    requires t.Sound() && |t.levels[0]| == t.count[0] == LEVEL0 + 1 && BelowIs(Cascade(h, t, 1), ms')
    ensures BelowIs(Settle(h, t), ms') && forall clock :: ZeroIs(Settle(h, t), [], clock)
  {
    hide Cascade, Thin;
    assert Settle(h, t).levels == Cascade(h, t, 1).levels;
  }

  lemma StageFrom(e: Env, s: Store, k: nat, zero: seq<nat>, ms: seq<map<nat, nat>>)
    requires k != HOST && Sane(e, s) && s.mem == [Pair(k, Big())] && s.memory == CLEARED_MEMORY + BIG + 13
    requires s.minKey == Min(INT64_MAX, k) && s.maxKey == Max(INT64_MAX + 1, k)
    requires ZeroIs(s.tiers, zero, s.clock) && BelowIs(s.tiers, ms)
    ensures Stage(e, s, k, zero, ms)
  {
    hide Sane, Big, ZeroIs, BelowIs;
  }

  // The four tables of level 0 are merged into level 1.
  lemma MergeOne(e: Env, s: Store, k: nat, zero: seq<nat>, ms: seq<map<nat, nat>>, m': map<nat, nat>)
    requires Stage(e, s, k, zero, ms) && |zero| == LEVEL0
    requires ms != [] ==>
               Becomes(LoOf(zero + [k]), HiOf(zero + [k]), s.clock, KeysOf(zero + [k]), ms[0], m') && s.clock > LEVEL0
    requires ms == [] ==> Becomes(0, UINT64, s.clock, KeysOf(zero + [k]), map[], m')
    ensures Basic(s) && s.mem != []
    ensures var t := FlushTiers(e, s);
            && t.Sound() && Due(t, 1) && Good(e.hash, Compact(e.hash, t, 1))
            && BelowIs(Compact(e.hash, t, 1), With(ms, 0, m'))
            && |Compact(e.hash, t, 1).levels| >= 2 && Compact(e.hash, t, 1).Sound()
            && Cascade(e.hash, t, 1) == Cascade(e.hash, Compact(e.hash, t, 1), 2)
  {
    FlushedIs(e, s, k, zero, ms);
    FlushTiersGood(e, s);
    var h, t, z, T := e.hash, FlushTiers(e, s), zero + [k], s.clock;
    ZeroPicked(h, t, z, T + 1);
    FullDue(t);
    hide *;
    var l := t.levels[0];
    if ms == [] {
      FirstBecomes(l, KeysOf(z), T, m');
    } else {
      LaterBecomes(l, LoOf(z), HiOf(z), T, KeysOf(z), ms[0], m');
    }
    MapAtZero(ms);
    StageCompact(h, t, 1, ms, KeysOf(z), map[], m');
    CompactKeepsGood(h, t, 1);
    CascadeStep(h, t, 1);
  }

  lemma FullDue(t: Tiers)
    requires t.levels != [] && |t.levels[0]| == LEVEL0 + 1
    ensures Due(t, 1) && CompactNum(t, 1) == LEVEL0 + 1
  {}

  lemma MapAtZero(ms: seq<map<nat, nat>>)
    ensures MapAt(ms, 0) == if ms == [] then map[] else ms[0]
  {}

  lemma FirstBecomes(l: seq<Table>, keys: set<nat>, T: nat, m': map<nat, nat>)
    requires l != [] && l[|l| - 1].timeStamp == T && Becomes(0, UINT64, T, keys, map[], m')
    requires forall k :: k in keys ==> InHull(l, k)
    ensures BecomesFor(l, keys, map[], m')
  {
    hide HullMin, HullMax;
  }

  lemma LaterBecomes(l: seq<Table>, lo: nat, hi: nat, T: nat, keys: set<nat>, m: map<nat, nat>, m': map<nat, nat>)
    requires l != [] && l[|l| - 1].timeStamp == T && HullMin(l) == lo && HullMax(l) == hi
    requires Becomes(lo, hi, T, keys, m, m')
    ensures BecomesFor(l, keys, m, m')
  {
    hide HullMin, HullMax, Becomes;
  }

  lemma BelowSize(t: Tiers, ms: seq<map<nat, nat>>, i: nat)
    requires BelowIs(t, ms) && i < |ms|
    ensures i + 1 < |t.levels| && |t.levels[i + 1]| == |ms[i]| && Thin(t.levels[i + 1], ms[i])
  {}

  lemma DueAt(t: Tiers, level: nat)
    requires 2 <= level <= |t.levels|
    ensures Due(t, level) <==> |t.levels[level - 1]| > UpperNum(level - 1)
    ensures Due(t, level) ==> CompactNum(t, level) == |t.levels[level - 1]| - UpperNum(level - 1)
    ensures UpperNum(1) == 9 && UpperNum(2) == 27
  {
    assert Pow3(2) == 3 * Pow3(1) && Pow3(1) == 3 * Pow3(0) && Pow3(3) == 3 * Pow3(2);
  }

  // Level 1 holds no more than it may.
  lemma StopAtOne(h: Hash, t: Tiers, ms: seq<map<nat, nat>>)
    requires t.Sound() && BelowIs(t, ms) && ms != [] && |ms[0]| <= 9
    ensures |t.levels| >= 2 && Cascade(h, t, 2) == t
  {
    BelowSize(t, ms, 0);
    DueAt(t, 2);
    hide *;
    CascadeStep(h, t, 2);
  }

  // ---------- A compaction of the first tables of level 1 ----------

  // The first key of the map in the order of the level, then the second, ...
  ghost predicate Leads(m: map<nat, nat>, x: nat) {
    x in m && forall q :: q in m ==> q == x || m[x] < m[q] || (m[x] == m[q] && x < q)
  }

  ghost predicate Leaders(m: map<nat, nat>, xs: seq<nat>, rest: map<nat, nat>) {
    if xs == [] then rest == m else Leads(m, xs[0]) && Leaders(m - {xs[0]}, xs[1..], rest)
  }

  lemma {:induction false} ThinLeaders(l: seq<Table>, m: map<nat, nat>, xs: seq<nat>, rest: map<nat, nat>)
    requires Thin(l, m) && Leaders(m, xs, rest)
    ensures |xs| <= |l| && Thin(l[|xs|..], rest)
    ensures forall i :: 0 <= i < |xs| ==>
              Single(l[i]) && l[i].minKey == xs[i] && xs[i] in m && l[i].timeStamp == m[xs[i]]
  {
    hide Thin, Single;
    if xs == [] {
      assert l[0..] == l;
    } else {
      ThinFirst(l, m, xs[0]);
      ThinLeaders(l[1..], m - {xs[0]}, xs[1..], rest);
      assert l[1..][|xs| - 1..] == l[|xs|..];
      forall i | 0 <= i < |xs|
        ensures Single(l[i]) && l[i].minKey == xs[i] && xs[i] in m && l[i].timeStamp == m[xs[i]]
      {
        if i > 0 { assert l[i] == l[1..][i - 1] && xs[i] == xs[1..][i - 1]; }
      }
    }
  }

  function TopOf(xs: seq<nat>): nat {
    if xs == [] then 0 else Max(TopOf(xs[..|xs| - 1]), Top(xs[|xs| - 1]))
  }

  lemma {:induction false} PickedHull(l: seq<Table>, xs: seq<nat>)
    requires |l| == |xs| && forall i :: 0 <= i < |l| ==> Single(l[i]) && l[i].minKey == xs[i]
    ensures HullMin(l) == LoOf(xs) && HullMax(l) == TopOf(xs)
  {
    hide Loaded;
    if l != [] {
      PickedHull(l[..|l| - 1], xs[..|xs| - 1]);
      assert Single(l[|l| - 1]);
    }
  }

  lemma PickedLoaded(l: seq<Table>, xs: seq<nat>)
    requires |l| == |xs| && forall i :: 0 <= i < |l| ==> Single(l[i]) && l[i].minKey == xs[i]
    ensures AllLoaded(l, KeysOf(xs)) && forall k :: k in KeysOf(xs) ==> InHull(l, k)
  {
    hide Loaded, HullMin, HullMax;
    forall t | t in l ensures exists k :: k in KeysOf(xs) && Loaded(t, k) {
      assert t.minKey in KeysOf(xs) && Loaded(t, t.minKey);
    }
    forall k | k in KeysOf(xs) ensures (exists t :: t in l && Loaded(t, k)) && InHull(l, k) {
      var i :| 0 <= i < |xs| && xs[i] == k;
      assert l[i] in l && Loaded(l[i], k);
    }
  }

  // What the lower level becomes when these tables are compacted.
  ghost predicate Moves(m: map<nat, nat>, xs: seq<nat>, rest: map<nat, nat>, low: map<nat, nat>, low': map<nat, nat>) {
    && xs != [] && |m| == 9 + |xs| && Leaders(m, xs, rest) && xs[|xs| - 1] in m
    && Becomes(LoOf(xs), TopOf(xs), m[xs[|xs| - 1]], KeysOf(xs), low, low')
  }

  // Level 1 holds too many tables: the first ones are merged into level 2.
  lemma MergeTwo(h: Hash, t: Tiers, ms: seq<map<nat, nat>>, xs: seq<nat>, rest: map<nat, nat>, m': map<nat, nat>)
    requires t.Sound() && Good(h, t) && BelowIs(t, ms) && 1 <= |ms| <= 2 && Moves(ms[0], xs, rest, MapAt(ms, 1), m')
    requires |m'| <= 27
    ensures |t.levels| >= 2 && BelowIs(Cascade(h, t, 2), [rest, m'])
  {
    hide *;
    MovedOn(h, t, ms, xs, rest, m');
    StopAtTwo(h, Compact(h, t, 2), [rest, m']);
  }

  lemma MovedOn(h: Hash, t: Tiers, ms: seq<map<nat, nat>>, xs: seq<nat>, rest: map<nat, nat>, m': map<nat, nat>)
    requires t.Sound() && Good(h, t) && BelowIs(t, ms) && 1 <= |ms| <= 2 && Moves(ms[0], xs, rest, MapAt(ms, 1), m')
    ensures |t.levels| >= 2 && Due(t, 2)
    ensures var c := Compact(h, t, 2);
            c.Sound() && BelowIs(c, [rest, m']) && |c.levels| >= 3 && Cascade(h, t, 2) == Cascade(h, c, 3)
  {
    hide *;
    Over(t, ms, xs, rest, MapAt(ms, 1), m');
    var l := t.levels[1][..|xs|];
    LevelsBecome(l, xs, ms[0], rest, MapAt(ms, 1), m');
    StageCompact(h, t, 2, ms, KeysOf(xs), rest, m');
    TwoMaps(ms, rest, m');
    CascadeStep(h, t, 2);
  }

  lemma LevelsBecome(l: seq<Table>, xs: seq<nat>, m: map<nat, nat>, rest: map<nat, nat>, low: map<nat, nat>,
                     low': map<nat, nat>)
    requires |l| == |xs| && (forall i :: 0 <= i < |l| ==> Single(l[i]) && l[i].minKey == xs[i])
    requires Moves(m, xs, rest, low, low') && l[|l| - 1].timeStamp == m[xs[|xs| - 1]]
    ensures AllLoaded(l, KeysOf(xs)) && (forall k :: k in KeysOf(xs) ==> InHull(l, k))
    ensures BecomesFor(l, KeysOf(xs), low, low')
  {
    PickedHull(l, xs);
    PickedLoaded(l, xs);
    hide Single, Becomes, InHull, AllLoaded, KeysOf, LoOf, TopOf, HullMin, HullMax, Leaders;
  }

  lemma StopAtTwo(h: Hash, t: Tiers, ms: seq<map<nat, nat>>)
    requires t.Sound() && BelowIs(t, ms) && |ms| == 2 && |ms[1]| <= 27
    ensures |t.levels| >= 3 && Cascade(h, t, 3) == t
  {
    BelowSize(t, ms, 1);
    DueAt(t, 3);
    hide *;
    CascadeStep(h, t, 3);
  }

  lemma Over(t: Tiers, ms: seq<map<nat, nat>>, xs: seq<nat>, rest: map<nat, nat>, low: map<nat, nat>, low': map<nat,
             nat>)
    requires BelowIs(t, ms) && ms != [] && Moves(ms[0], xs, rest, low, low')
    ensures |t.levels| >= 2 && Due(t, 2) && CompactNum(t, 2) == |xs| <= |t.levels[1]| && xs != []
    ensures Thin(t.levels[1][|xs|..], rest) && xs[|xs| - 1] in ms[0]
    ensures var l := t.levels[1][..|xs|];
            (forall i :: 0 <= i < |l| ==> Single(l[i]) && l[i].minKey == xs[i])
              && l[|l| - 1].timeStamp == ms[0][xs[|xs| - 1]]
  {
    hide Thin, Single, Leaders, Becomes, KeysOf, Due, CompactNum, BelowIs;
    BelowSize(t, ms, 0);
    DueAt(t, 2);
    ThinLeaders(t.levels[1], ms[0], xs, rest);
  }

  lemma TwoMaps(ms: seq<map<nat, nat>>, rest: map<nat, nat>, m': map<nat, nat>)
    requires 1 <= |ms| <= 2
    ensures With(ms[0 := rest], 1, m') == [rest, m']
  {}

  // ---------- The run ----------

  // After these operations the replies are those of a map that holds the keys
  // of `done`, and the store is at this stage.
  ghost predicate Trail(e: Env, ops: seq<Op>, done: map<nat, string>, clock: nat, k: nat, zero: seq<nat>,
                        ms: seq<map<nat, nat>>)
    requires Basic(EMPTY_STORE)
  {
    && (forall i :: 0 <= i < |ops| ==> Legal(ops[i]) && ops[i].PutOp?)
    && Run(e, EMPTY_STORE, ops).1 == MapRun(map[], ops).1
    && (forall q :: q in done ==> q in MapRun(map[], ops).0 && MapRun(map[], ops).0[q] == done[q])
    && Stage(e, Run(e, EMPTY_STORE, ops).0, k, zero, ms) && Run(e, EMPTY_STORE, ops).0.clock == clock
  }

  lemma TrailStep(e: Env, ops: seq<Op>, done: map<nat, string>, clock: nat, k: nat, zero: seq<nat>, ms: seq<map<nat,
                  nat>>, q: nat,
                  zero': seq<nat>, ms': seq<map<nat, nat>>)
    requires Basic(EMPTY_STORE) && Trail(e, ops, done, clock, k, zero, ms) && Storable(q, Big())
    requires Basic(Run(e, EMPTY_STORE, ops).0) && Stage(e, Put(e, Run(e, EMPTY_STORE, ops).0, q, Big()), q, zero', ms')
    requires Put(e, Run(e, EMPTY_STORE, ops).0, q, Big()).clock == clock + 1
    ensures Trail(e, ops + [PutOp(q, Big())], done[q := Big()], clock + 1, q, zero', ms')
  {
    hide Stage, Big, Put, Basic, Storable, Run, MapRun;
    BigFacts();
    var op := PutOp(q, Big());
    assert Legal(op) by { assert Big() != DEL; }
    RunNext(e, EMPTY_STORE, ops, op);
    MapRunNext(map[], ops, op);
  }

  lemma TrailStart(e: Env, k: nat)
    requires k < INT64_MAX
    ensures Basic(EMPTY_STORE) && Trail(e, [PutOp(k, Big())], map[k := Big()], 0, k, [], [])
  {
    FirstPut(e, k);
    hide Stage, Big, Put, Sane;
    BigFacts();
    var op := PutOp(k, Big());
    assert Legal(op) && Basic(EMPTY_STORE);
    RunNext(e, EMPTY_STORE, [], op);
    MapRunNext(map[], [], op);
    assert [] + [op] == [op];
  }

  // After puts of these keys this much of the map is known.
  ghost predicate Known(done: map<nat, string>, keys: set<nat>, done': map<nat, string>) {
    forall q :: q in done' ==> if q in keys then done'[q] == Big() else q in done && done[q] == done'[q]
  }

  // Three puts fill level 0 up to its limit.
  lemma TrailFill(e: Env, ops: seq<Op>, done: map<nat, string>, clock: nat, a: nat, ms: seq<map<nat, nat>>, b: nat,
                  c: nat, d: nat,
                  done': map<nat, string>) returns (more: seq<Op>)
    requires Basic(EMPTY_STORE) && Trail(e, ops, done, clock, a, [], ms)
    requires Follows(a, b) && Follows(b, c) && Follows(c, d) && Known(done, {b, c, d}, done')
    ensures more == ops + [PutOp(b, Big())] + [PutOp(c, Big())] + [PutOp(d, Big())]
    ensures Trail(e, more, done', clock + 3, d, [a, b, c], ms)
  {
    hide Stage, Big, Put, Basic, Run, MapRun, Trail, Follows;
    TrailQuiet(e, ops, done, clock, a, [], ms, b);
    var one := ops + [PutOp(b, Big())];
    TrailQuiet(e, one, done[b := Big()], clock + 1, b, [] + [a], ms, c);
    var two := one + [PutOp(c, Big())];
    TrailQuiet(e, two, done[b := Big()][c := Big()], clock + 2, c, [] + [a] + [b], ms, d);
    more := two + [PutOp(d, Big())];
    assert [] + [a] + [b] + [c] == [a, b, c];
    TrailForget(e, more, done[b := Big()][c := Big()][d := Big()], done', clock + 3, d, [a, b, c], ms);
  }

  lemma TrailQuiet(e: Env, ops: seq<Op>, done: map<nat, string>, clock: nat, k: nat, zero: seq<nat>, ms: seq<map<nat,
                   nat>>, q: nat)
    requires Basic(EMPTY_STORE) && Trail(e, ops, done, clock, k, zero, ms) && |zero| < LEVEL0 && Follows(k, q)
    ensures Trail(e, ops + [PutOp(q, Big())], done[q := Big()], clock + 1, q, zero + [k], ms)
  {
    var s := Run(e, EMPTY_STORE, ops).0;
    assert Stage(e, s, k, zero, ms);
    hide *;
    QuietPut(e, s, k, zero, ms, q);
    TrailStep(e, ops, done, clock, k, zero, ms, q, zero + [k], ms);
  }

  // The two puts of the table with two pairs.
  lemma TrailHost(e: Env, ops: seq<Op>, done: map<nat, string>, clock: nat, k: nat, zero: seq<nat>, ms: seq<map<nat,
                  nat>>)
    returns (more: seq<Op>)
    requires Basic(EMPTY_STORE) && Trail(e, ops, done, clock, k, zero, ms) && |zero| < LEVEL0 && k != HOST
    ensures more == ops + [PutOp(HOST, Big())] + [PutOp(A, SMALL)]
    ensures Trail(e, more, map[A := SMALL], clock + 1, HOST, zero + [k], ms)
  {
    hide Stage, Big, Put, Basic, Storable, Run, MapRun, Sane;
    BigFacts();
    var s := Run(e, EMPTY_STORE, ops).0;
    HostPut(e, s, k, zero, ms);
    RiderPut(e, Put(e, s, HOST, Big()), zero + [k], ms);
    var host, rider := PutOp(HOST, Big()), PutOp(A, SMALL);
    assert Legal(host) by { assert Big() != DEL; }
    assert Legal(rider);
    RunNext(e, EMPTY_STORE, ops, host);
    MapRunNext(map[], ops, host);
    RunNext(e, EMPTY_STORE, ops + [host], rider);
    MapRunNext(map[], ops + [host], rider);
    more := ops + [host] + [rider];
  }

  lemma TrailStage(e: Env, ops: seq<Op>, done: map<nat, string>, clock: nat, k: nat, zero: seq<nat>, ms: seq<map<nat,
                   nat>>)
    requires Basic(EMPTY_STORE) && Trail(e, ops, done, clock, k, zero, ms)
    ensures (forall i :: 0 <= i < |ops| ==> Legal(ops[i])) && Stage(e, Run(e, EMPTY_STORE, ops).0, k, zero, ms)
    ensures Run(e, EMPTY_STORE, ops).0.clock == clock
  {
    hide Stage, Run, MapRun, Basic;
  }

  lemma HullNextKey(zero: seq<nat>, k: nat)
    ensures LoOf([]) == INT64_MAX && HiOf([]) == 0 && TopOf([]) == 0
    ensures LoOf(zero + [k]) == Min(LoOf(zero), k) && TopOf(zero + [k]) == Max(TopOf(zero), Top(k))
    ensures HiOf(zero + [k]) == Max(HiOf(zero), Max(Top(k), INT64_MAX + 1))
  {
    assert (zero + [k])[..|zero|] == zero;
  }

  // The hull of four flushed tables, and what they make of level 1.
  predicate Spans(a: nat, b: nat, c: nat, d: nat, lo: nat, hi: nat) {
    && lo == Min(Min(Min(Min(INT64_MAX, a), b), c), d)
    && hi == Max(Max(Max(Max(INT64_MAX + 1, Top(a)), Top(b)), Top(c)), Top(d))
  }

  ghost predicate Batch(a: nat, b: nat, c: nat, d: nat, lo: nat, hi: nat, T: nat, m: map<nat, nat>, m': map<nat, nat>) {
    Spans(a, b, c, d, lo, hi) && Becomes(lo, hi, T, {a, b, c, d}, m, m')
  }

  lemma BatchBecomes(a: nat, b: nat, c: nat, d: nat, lo: nat, hi: nat, T: nat, m: map<nat, nat>, m': map<nat, nat>)
    requires Batch(a, b, c, d, lo, hi, T, m, m')
    ensures Becomes(LoOf([a, b, c] + [d]), HiOf([a, b, c] + [d]), T, KeysOf([a, b, c] + [d]), m, m')
  {
    hide LoOf, HiOf, Becomes, KeysOf;
    HullNextKey([], a);
    HullNextKey([a], b);
    HullNextKey([a, b], c);
    HullNextKey([a, b, c], d);
    assert [] + [a] == [a] && [a] + [b] == [a, b] && [a, b] + [c] == [a, b, c];
    OfFour(a, b, c, d);
  }

  lemma OfFour(a: nat, b: nat, c: nat, d: nat)
    ensures |[a, b, c]| == LEVEL0 && KeysOf([a, b, c] + [d]) == {a, b, c, d}
  {}

  // The put after that empties level 0 into level 1, which has nothing yet.
  lemma TrailFirst(e: Env, ops: seq<Op>, done: map<nat, string>, a: nat, b: nat, c: nat, d: nat, q: nat, m: map<nat,
                   nat>)
    returns (more: seq<Op>)
    requires Basic(EMPTY_STORE) && Trail(e, ops, done, 3, d, [a, b, c], []) && Follows(d, q) && Known(done, {q}, done)
    requires Becomes(0, UINT64, 3, {a, b, c, d}, map[], m) && |m| <= 9
    ensures more == ops + [PutOp(q, Big())] && Trail(e, more, done, 4, q, [], [m])
  {
    hide *;
    OfFour(a, b, c, d);
    TrailStage(e, ops, done, 3, d, [a, b, c], []);
    var s := Run(e, EMPTY_STORE, ops).0;
    MergeOne(e, s, d, [a, b, c], [], m);
    WithFirst([], m);
    StopAtOne(e.hash, Compact(e.hash, FlushTiers(e, s), 1), [m]);
    SettledPut(e, s, d, [a, b, c], [], q, [m]);
    TrailStep(e, ops, done, 3, d, [a, b, c], [], q, [], [m]);
    more := ops + [PutOp(q, Big())];
    KnownNext(done, q);
    TrailForget(e, more, done[q := Big()], done, 4, q, [], [m]);
  }

  // Or which has room.
  lemma TrailMerge(e: Env, ops: seq<Op>, done: map<nat, string>, T: nat, a: nat, b: nat, c: nat, d: nat, lo: nat,
                   hi: nat, q: nat,
                   ms: seq<map<nat, nat>>, m: map<nat, nat>) returns (more: seq<Op>)
    requires Basic(EMPTY_STORE) && Trail(e, ops, done, T, d, [a, b, c], ms) && Follows(d, q) && Known(done, {q}, done)
    requires T > LEVEL0 && |ms| == 1 && Batch(a, b, c, d, lo, hi, T, ms[0], m) && |m| <= 9
    ensures more == ops + [PutOp(q, Big())] && Trail(e, more, done, T + 1, q, [], [m])
  {
    hide *;
    OfFour(a, b, c, d);
    BatchBecomes(a, b, c, d, lo, hi, T, ms[0], m);
    TrailStage(e, ops, done, T, d, [a, b, c], ms);
    var s := Run(e, EMPTY_STORE, ops).0;
    MergeOne(e, s, d, [a, b, c], ms, m);
    WithFirst(ms, m);
    StopAtOne(e.hash, Compact(e.hash, FlushTiers(e, s), 1), [m]);
    SettledPut(e, s, d, [a, b, c], ms, q, [m]);
    TrailStep(e, ops, done, T, d, [a, b, c], ms, q, [], [m]);
    more := ops + [PutOp(q, Big())];
    KnownNext(done, q);
    TrailForget(e, more, done[q := Big()], done, T + 1, q, [], [m]);
  }

  lemma WithFirst(ms: seq<map<nat, nat>>, m: map<nat, nat>)
    ensures With(ms, 0, m) == if |ms| <= 1 then [m] else [m] + ms[1..]
    ensures MapAt(With(ms, 0, m), 1) == MapAt(ms, 1)
  {}

  // Or which then has too many tables, so that the first ones go on to level 2.
  lemma TrailMergeTwo(e: Env, ops: seq<Op>, done: map<nat, string>, T: nat, a: nat, b: nat, c: nat, d: nat, lo: nat,
                      hi: nat, q: nat,
                      ms: seq<map<nat, nat>>, m: map<nat, nat>, xs: seq<nat>, rest: map<nat, nat>, low: map<nat, nat>)
    returns (more: seq<Op>)
    requires Basic(EMPTY_STORE) && Trail(e, ops, done, T, d, [a, b, c], ms) && Follows(d, q) && Known(done, {q}, done)
    requires T > LEVEL0 && 1 <= |ms| <= 2 && Batch(a, b, c, d, lo, hi, T, ms[0], m)
    requires Moves(m, xs, rest, MapAt(ms, 1), low) && |low| <= 27
    ensures more == ops + [PutOp(q, Big())] && Trail(e, more, done, T + 1, q, [], [rest, low])
  {
    hide *;
    OfFour(a, b, c, d);
    BatchBecomes(a, b, c, d, lo, hi, T, ms[0], m);
    TrailStage(e, ops, done, T, d, [a, b, c], ms);
    var s := Run(e, EMPTY_STORE, ops).0;
    MergeOne(e, s, d, [a, b, c], ms, m);
    WithFirst(ms, m);
    MergeTwo(e.hash, Compact(e.hash, FlushTiers(e, s), 1), With(ms, 0, m), xs, rest, low);
    SettledPut(e, s, d, [a, b, c], ms, q, [rest, low]);
    TrailStep(e, ops, done, T, d, [a, b, c], ms, q, [], [rest, low]);
    more := ops + [PutOp(q, Big())];
    KnownNext(done, q);
    TrailForget(e, more, done[q := Big()], done, T + 1, q, [], [rest, low]);
  }

  lemma KnownNext(done: map<nat, string>, q: nat)
    requires Known(done, {q}, done)
    ensures forall x :: x in done ==> x in done[q := Big()] && done[q := Big()][x] == done[x]
  {
    hide Big;
  }

  lemma TrailForget(e: Env, ops: seq<Op>, done: map<nat, string>, less: map<nat, string>, clock: nat, k: nat,
                    zero: seq<nat>,
                    ms: seq<map<nat, nat>>)
    requires Basic(EMPTY_STORE) && Trail(e, ops, done, clock, k, zero, ms)
    requires forall q :: q in less ==> q in done && done[q] == less[q]
    ensures Trail(e, ops, less, clock, k, zero, ms)
  {
    hide Basic, Stage, Run, MapRun;
  }
}
