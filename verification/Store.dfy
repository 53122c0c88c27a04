// The store: a memtable over levels of tables, with put, get and del, and the
// theorem that every run answers like a map.
module Stores {
  import opened Arithmetic
  import opened Options
  import opened Pairs
  import opened Merge
  import opened Tables
  import opened Levels
  import opened Compaction
  import opened Cascades
  import opened History

  const UINT64 := 0x1_0000_0000_0000_0000
  const CLEARED_MEMORY := 10272

  // The hash of the Bloom filters, and what a moved-from string of a given
  // content reports as its length.
  datatype Env = Env(hash: Hash, movedLen: string -> nat)

  // `memory` is the unsigned size estimate of the memtable, `clock` the time
  // stamp of the next flush.
  datatype Store = Store(mem: seq<Pair>, memory: nat, minKey: nat, maxKey: nat, clock: nat, tiers: Tiers)

  const EMPTY_STORE := Store([], INITIAL_SIZE, INT64_MAX, 0, 0, Tiers([[]], [0]))

  function Wrap(x: int): nat { x % UINT64 }

  // The size estimate once the value of a key changes from `val` to `s`.
  function Grow(memory: nat, val: string, s: string): nat {
    Wrap(memory + if val != "" then |s| - |val| else 4 + 8 + |s| + 1)
  }

  // What put asks of its caller: a key that is not the head node's, and a
  // value that is not empty and fits in a table.
  predicate Storable(k: nat, v: string) {
    k < UINT64 - 1 && Fits(Pair(k, v))
  }

  // ---------- The operations ----------

  ghost predicate MemOk(mem: seq<Pair>, minKey: nat, maxKey: nat) {
    && Ascending(mem) && AllFit(mem)
    && (forall p :: p in mem ==> minKey <= p.key <= maxKey)
  }

  ghost predicate TiersOk(t: Tiers, clock: nat) {
    && t.Sound()
    && SortedLevel(t.levels[0])
    && (forall x :: x in t.levels[0] ==> x.timeStamp < clock)
    && |t.levels[0]| == t.count[0] <= LEVEL0
  }

  ghost predicate Basic(s: Store) {
    && MemOk(s.mem, s.minKey, s.maxKey)
    && (s.mem == [] ==> s.memory == INITIAL_SIZE)
    && TiersOk(s.tiers, s.clock)
  }

  // The memtable becomes a table of level 0.
  function FlushedTable(e: Env, s: Store): Table
    requires s.tiers.count != []
  {
    MakeTable(e.hash, e.movedLen, 0, s.tiers.count[0] + 1, s.clock, s.minKey, s.maxKey, s.mem)
  }

  function FlushTiers(e: Env, s: Store): (t: Tiers)
    requires Basic(s) && s.mem != []
    ensures t.Sound() && |t.levels| == |s.tiers.levels|
    ensures t.levels[0] == s.tiers.levels[0] + [FlushedTable(e, s)]
    ensures t.count[0] == |t.levels[0]|
  {
    var table := FlushedTable(e, s);
    EmplaceLast(s.tiers.levels[0], table);
    var t := Tiers(s.tiers.levels[0 := Emplace(s.tiers.levels[0], table)], s.tiers.count[0 := s.tiers.count[0] + 1]);
    assert Solid(s.tiers.levels[0]);
    assert forall i :: 0 < i < |t.levels| ==> t.levels[i] == s.tiers.levels[i];
    t
  }

  // Whether storing the value makes the memtable flush first.
  predicate Flushes(s: Store, k: nat, v: string) {
    Grow(s.memory, ValueOr(Find(s.mem, k)), v) > TABLE_SIZE
  }

  lemma FlushNotEmpty(s: Store, k: nat, v: string)
    requires Basic(s) && Storable(k, v) && Flushes(s, k, v)
    ensures s.mem != []
  {
    assert Grow(INITIAL_SIZE, "", v) <= TABLE_SIZE;
  }

  // The levels once a flush has been absorbed.
  function Settle(h: Hash, t: Tiers): (r: Tiers)
    requires t.Sound() && |t.levels[0]| == t.count[0] <= LEVEL0 + 1
    ensures r.Sound()
    ensures t.count[0] > LEVEL0 ==> r.levels[0] == [] && r.count[0] == 0
    ensures t.count[0] <= LEVEL0 ==> r == t
  {
    if t.count[0] > LEVEL0 then
      CascadeSound(h, t, 1);
      CascadeEmptiesLevel0(h, t);
      var c := Cascade(h, t, 1);
      Tiers(c.levels, c.count[0 := 0])
    else t
  }

  function Flush(e: Env, s: Store): (r: Store)
    requires Basic(s) && s.mem != []
    ensures r.mem == [] && r.memory == CLEARED_MEMORY && r.minKey == INT64_MAX && r.maxKey == INT64_MAX + 1
    ensures MemOk(r.mem, r.minKey, r.maxKey) && TiersOk(r.tiers, r.clock)
  {
    var t := FlushTiers(e, s);
    hide FlushTiers, Settle;
    Store([], CLEARED_MEMORY, INT64_MAX, INT64_MAX + 1, s.clock + 1, Settle(e.hash, t))
  }

  lemma InsertMemOk(mem: seq<Pair>, minKey: nat, maxKey: nat, k: nat, v: string)
    requires MemOk(mem, minKey, maxKey) && Fits(Pair(k, v))
    ensures MemOk(Insert(mem, k, v), Min(minKey, k), Max(maxKey, k))
  {
    InsertIsUpdate(mem, k, v);
  }

  function Put(e: Env, s: Store, k: nat, v: string): (r: Store)
    requires Basic(s) && Storable(k, v)
    ensures Basic(r)
  {
    var val := ValueOr(Find(s.mem, k));
    hide Flush, MemOk, TiersOk;
    if Flushes(s, k, v) then
      FlushNotEmpty(s, k, v);
      var f := Flush(e, s);
      InsertMemOk(f.mem, f.minKey, f.maxKey, k, v);
      Store(Insert(f.mem, k, v), Grow(CLEARED_MEMORY, val, v), Min(f.minKey, k), Max(f.maxKey, k), f.clock, f.tiers)
    else
      InsertMemOk(s.mem, s.minKey, s.maxKey, k, v);
      s.(mem := Insert(s.mem, k, v), memory := Grow(s.memory, val, v), minKey := Min(s.minKey, k),
         maxKey := Max(s.maxKey, k))
  }

  // What the store holds for a key, tombstones included.
  function Lookup(s: Store, k: nat): Option<string> {
    Find(s.mem, k).OrElse(LevelsGet(s.tiers.levels, k, 0))
  }

  function Get(s: Store, k: nat): string { View(Lookup(s, k)) }

  // Deletes a key that is there; says whether it was.
  function Del(e: Env, s: Store, k: nat): (r: (Store, bool))
    requires Basic(s) && k < UINT64 - 1
    ensures Basic(r.0)
  {
    if Get(s, k) != "" then (Put(e, s, k, DEL), true) else (s, false)
  }

  // ---------- Level 0 ----------

  lemma CompactLevel0(h: Hash, t: Tiers, level: nat)
    requires 1 <= level <= |t.levels| && t.Sound() && Due(t, level)
    ensures var t' := Compact(h, t, level);
            t'.levels != [] && t'.levels[0] == if level == 1 then t.levels[0][CompactNum(t, 1)..] else t.levels[0]
  {
    CompactUnfold(h, t, level);
    hide Compact, Merges;
  }

  lemma {:induction false} CascadeKeepsLevel0(h: Hash, t: Tiers, level: nat)
    requires 2 <= level <= |t.levels| && t.Sound()
    ensures Cascade(h, t, level).levels != []
    ensures Cascade(h, t, level).levels[0] == t.levels[0]
    decreases Depth(t, level)
  {
    hide Compact, PairsIn, Tiers.Sound;
    if Due(t, level) {
      DueIsShallow(t, level);
      CompactShrinks(h, t, level);
      CompactLevel0(h, t, level);
      CascadeKeepsLevel0(h, Compact(h, t, level), level + 1);
    }
  }

  lemma CascadeEmptiesLevel0(h: Hash, t: Tiers)
    requires t.Sound() && |t.levels[0]| == LEVEL0 + 1
    ensures Cascade(h, t, 1).levels != []
    ensures Cascade(h, t, 1).levels[0] == []
  {
    DueIsShallow(t, 1);
    CompactShrinks(h, t, 1);
    CompactLevel0(h, t, 1);
    hide Compact;
    CascadeKeepsLevel0(h, Compact(h, t, 1), 2);
  }

  // ---------- What every store keeps ----------

  ghost predicate AllOlder(t: Tiers, clock: nat) {
    forall i, x :: 0 <= i < |t.levels| && x in t.levels[i] ==> x.timeStamp < clock
  }

  // Every invariant of the levels holds.
  ghost predicate Sane(e: Env, s: Store) {
    Basic(s) && Good(e.hash, s.tiers) && AllOlder(s.tiers, s.clock)
  }

  // The compactions this put causes, if any, harm no key.
  ghost predicate PutHarmless(e: Env, s: Store, k: nat, v: string)
    requires Basic(s) && Storable(k, v)
  {
    if Flushes(s, k, v) && s.mem != [] then
      var t := FlushTiers(e, s);
      t.count[0] > LEVEL0 ==> CascadeHarmless(e.hash, t, 1)
    else true
  }

  lemma FlushedTableOk(e: Env, s: Store)
    requires Basic(s) && s.mem != []
    ensures var t := FlushedTable(e, s); InRange(t) && WellFormed(e.hash, t)
  {
    assert s.mem[0] in s.mem && s.mem[|s.mem| - 1] in s.mem;
    MakeTableWellFormed(e.hash, e.movedLen, 0, s.tiers.count[0] + 1, s.clock, s.minKey, s.maxKey, s.mem);
  }

  lemma AppendLevelOk(h: Hash, l: seq<Table>, t: Table)
    requires LevelOk(h, l) && InRange(t) && WellFormed(h, t)
    requires forall x :: x in l ==> x.timeStamp < t.timeStamp
    ensures LevelOk(h, l + [t])
  {}

  lemma FlushTiersGood(e: Env, s: Store)
    requires Sane(e, s) && s.mem != []
    ensures Good(e.hash, FlushTiers(e, s)) && AllOlder(FlushTiers(e, s), s.clock + 1)
  {
    var t, table := FlushTiers(e, s), FlushedTable(e, s);
    var l := s.tiers.levels;
    FlushedTableOk(e, s);
    assert LevelOk(e.hash, l[0]);
    AppendLevelOk(e.hash, l[0], table);
    assert forall i :: 0 < i < |l| ==> t.levels[i] == l[i];
    hide FlushTiers, FlushedTable, LevelOk, Disjoint;
    forall i, j | 0 <= i < j < |l| ensures NoOlder(t.levels[i], t.levels[j], i == 0) {
      assert NoOlder(l[i], l[j], i == 0);
    }
  }

  lemma {:induction false} CascadeOlder(h: Hash, t: Tiers, level: nat, clock: nat)
    requires 1 <= level <= |t.levels| && Good(h, t) && AllOlder(t, clock)
    ensures t.Sound() && AllOlder(Cascade(h, t, level), clock)
    decreases Depth(t, level)
  {
    hide *;
    GoodSound(h, t);
    CascadeStep(h, t, level);
    if Due(t, level) {
      CompactKeepsGood(h, t, level);
      CompactOlder(h, t, level, clock);
      CascadeOlder(h, Compact(h, t, level), level + 1, clock);
    }
  }

  lemma CompactOlder(h: Hash, t: Tiers, level: nat, clock: nat)
    requires 1 <= level <= |t.levels| && Good(h, t) && Due(t, level)
    requires AllOlder(t, clock)
    ensures AllOlder(Compact(h, t, level), clock)
  {
    CompactedOk(h, t, level);
    CompactUnfold(h, t, level);
    hide Compact, Merges, Good, Disjoint, LevelOk;
    FramedOlder(t, t.Extend(level), Compact(h, t, level), level, clock);
  }

  lemma FramedOlder(t: Tiers, x: Tiers, t': Tiers, level: nat, clock: nat)
    requires 1 <= level <= |t.levels| && Due(t, level) && Framed(t, x, t', level)
    requires AllOlder(t, clock)
    requires forall q :: q in t'.levels[level] ==>
               q in x.levels[level] || q.timeStamp == t.levels[level - 1][CompactNum(t, level) - 1].timeStamp
    ensures AllOlder(t', clock)
  {
    assert t.levels[level - 1][CompactNum(t, level) - 1] in t.levels[level - 1];
    forall i, q | 0 <= i < |t'.levels| && q in t'.levels[i] ensures q.timeStamp < clock {
      if i < |t.levels| { assert q in t'.levels[i]; }
    }
  }

  lemma SettleKeeps(h: Hash, t: Tiers, clock: nat)
    requires t.Sound() && |t.levels[0]| == t.count[0] <= LEVEL0 + 1
    requires Good(h, t) && AllOlder(t, clock)
    ensures Good(h, Settle(h, t)) && AllOlder(Settle(h, t), clock)
  {
    if t.count[0] > LEVEL0 {
      CascadeKeepsGood(h, t, 1);
      CascadeOlder(h, t, 1, clock);
    }
  }

  lemma SettleGet(h: Hash, t: Tiers)
    requires t.Sound() && |t.levels[0]| == t.count[0] <= LEVEL0 + 1
    requires Good(h, t) && (t.count[0] > LEVEL0 ==> CascadeHarmless(h, t, 1))
    ensures forall k :: View(LevelsGet(Settle(h, t).levels, k, 0)) == View(LevelsGet(t.levels, k, 0))
  {
    if t.count[0] > LEVEL0 {
      forall k ensures View(LevelsGet(Settle(h, t).levels, k, 0)) == View(LevelsGet(t.levels, k, 0)) {
        CascadeKeepsGet(h, t, 1, k);
      }
    }
  }

  // A flush moves the memtable's answers to level 0.
  lemma FlushTiersGet(e: Env, s: Store, k: nat)
    requires Basic(s) && s.mem != []
    ensures LevelsGet(FlushTiers(e, s).levels, k, 0) == Lookup(s, k)
  {
    var t, l := FlushTiers(e, s).levels, s.tiers.levels;
    LevelGetAppend(l[0], [FlushedTable(e, s)], k);
    assert forall i :: 0 < i < |l| ==> t[i] == l[i];
    GetSuffix(t, l, k, 1);
    assert [FlushedTable(e, s)][..0] == [];
    assert LevelGet([FlushedTable(e, s)], k) == Find(s.mem, k);
  }

  // A flush keeps the invariants of the levels, ties or not.
  lemma FlushSane(e: Env, s: Store)
    requires Sane(e, s) && s.mem != []
    ensures var f := Flush(e, s); Good(e.hash, f.tiers) && AllOlder(f.tiers, f.clock)
  {
    FlushTiersGood(e, s);
    SettleKeeps(e.hash, FlushTiers(e, s), s.clock + 1);
    hide FlushTiers, Settle, Good;
  }

  // After a flush that harms no key the store answers as before.
  lemma FlushKeeps(e: Env, s: Store, k: nat, v: string)
    requires Sane(e, s) && Storable(k, v) && Flushes(s, k, v) && s.mem != [] && PutHarmless(e, s, k, v)
    ensures forall q :: Get(Flush(e, s), q) == Get(s, q)
  {
    var t := FlushTiers(e, s);
    FlushTiersGood(e, s);
    SettleGet(e.hash, t);
    hide FlushTiers, Settle, Good;
    forall q ensures Get(Flush(e, s), q) == Get(s, q) {
      FlushTiersGet(e, s, q);
      assert Flush(e, s).mem == [];
    }
  }

  // Every put keeps every invariant of the levels, ties or not.
  lemma PutSane(e: Env, s: Store, k: nat, v: string)
    requires Sane(e, s) && Storable(k, v)
    ensures Sane(e, Put(e, s, k, v))
  {
    if Flushes(s, k, v) {
      FlushNotEmpty(s, k, v);
      FlushSane(e, s);
    }
    hide Flush, Good, MemOk, TiersOk, AllOlder;
  }

  // put: this key has this value now, every other key answers as before.
  lemma PutCorrect(e: Env, s: Store, k: nat, v: string)
    requires Sane(e, s) && Storable(k, v) && PutHarmless(e, s, k, v)
    ensures forall q :: Get(Put(e, s, k, v), q) == if q == k then View(Some(v)) else Get(s, q)
  {
    var r := Put(e, s, k, v);
    if Flushes(s, k, v) {
      FlushNotEmpty(s, k, v);
      FlushKeeps(e, s, k, v);
      InsertIsUpdate([], k, v);
      var f := Flush(e, s);
      hide Flush, Good, LevelsGet, Basic;
      forall q ensures Get(r, q) == if q == k then View(Some(v)) else Get(s, q) {
        assert Get(f, q) == Get(s, q);
        assert f.mem == [] && r.mem == Insert([], k, v) && r.tiers == f.tiers;
      }
    } else {
      InsertIsUpdate(s.mem, k, v);
    }
  }

  // ---------- Bounds ----------

  // Level 0 holds at most 3 tables and level i at most 3^(i+1).
  ghost predicate Bounded(s: Store) {
    forall i :: 0 <= i < |s.tiers.levels| ==> Within(s.tiers, i)
  }

  lemma SettleBounds(h: Hash, t: Tiers)
    requires t.Sound() && |t.levels[0]| == t.count[0] <= LEVEL0 + 1
    requires forall i :: 1 <= i < |t.levels| ==> Within(t, i)
    ensures forall i :: 0 <= i < |Settle(h, t).levels| ==> Within(Settle(h, t), i)
  {
    hide Compact, PairsIn, Cascade;
    if t.count[0] > LEVEL0 {
      CascadeBounds(h, t, 1);
      var c := Cascade(h, t, 1);
      assert forall i :: 0 <= i < |c.levels| ==> Within(c, i);
      assert Settle(h, t).levels == c.levels;
      assert forall i :: 0 <= i < |c.levels| ==> Within(Settle(h, t), i) == Within(c, i);
    } else {
      assert forall i :: 1 <= i < |t.levels| ==> Within(t, i);
    }
  }

  // Every put leaves every level within its bound, ties or not.
  lemma PutBounded(e: Env, s: Store, k: nat, v: string)
    requires Basic(s) && Bounded(s) && Storable(k, v)
    ensures Bounded(Put(e, s, k, v))
  {
    if Flushes(s, k, v) {
      FlushNotEmpty(s, k, v);
      var t := FlushTiers(e, s);
      assert forall i :: 1 <= i < |t.levels| ==> Within(s.tiers, i) && t.levels[i] == s.tiers.levels[i];
      SettleBounds(e.hash, t);
      hide Settle;
      assert Put(e, s, k, v).tiers == Settle(e.hash, t);
    }
  }

  // ---------- Runs ----------

  datatype Op = PutOp(key: nat, val: string) | GetOp(key: nat) | DelOp(key: nat)
  datatype Reply = Stored | Found(val: string) | Deleted(was: bool)

  // A user value is storable and is not the tombstone.
  predicate Legal(op: Op) {
    match op
    case PutOp(k, v) => Storable(k, v) && v != DEL
    case GetOp(k) => true
    case DelOp(k) => k < UINT64 - 1
  }

  function Step(e: Env, s: Store, op: Op): (r: (Store, Reply))
    requires Basic(s) && Legal(op)
    ensures Basic(r.0)
  {
    match op
    case PutOp(k, v) => (Put(e, s, k, v), Stored)
    case GetOp(k) => (s, Found(Get(s, k)))
    case DelOp(k) => var d := Del(e, s, k); (d.0, Deleted(d.1))
  }

  function Run(e: Env, s: Store, ops: seq<Op>): (r: (Store, seq<Reply>))
    requires Basic(s) && forall i :: 0 <= i < |ops| ==> Legal(ops[i])
    ensures Basic(r.0) && |r.1| == |ops|
    decreases |ops|
  {
    if ops == [] then (s, [])
    else
      var first := Step(e, s, ops[0]);
      var rest := Run(e, first.0, ops[1..]);
      (rest.0, [first.1] + rest.1)
  }

  lemma {:induction false} RunNext(e: Env, s: Store, ops: seq<Op>, op: Op)
    requires Basic(s) && (forall i :: 0 <= i < |ops| ==> Legal(ops[i])) && Legal(op)
    ensures forall i :: 0 <= i < |ops + [op]| ==> Legal((ops + [op])[i])
    ensures var before := Run(e, s, ops);
            Run(e, s, ops + [op]) == (Step(e, before.0, op).0, before.1 + [Step(e, before.0, op).1])
    decreases |ops|
  {
    hide Step, Basic, Legal;
    assert forall i :: 0 <= i < |ops + [op]| ==> (ops + [op])[i] == if i < |ops| then ops[i] else op;
    if ops == [] {
      var first, none := Step(e, s, op), (ops + [op])[1..];
      assert (ops + [op])[0] == op && none == [];
      assert Run(e, first.0, none) == (first.0, []);
      assert [first.1] + Run(e, first.0, none).1 == Run(e, s, ops).1 + [first.1];
    } else {
      assert (ops + [op])[1..] == ops[1..] + [op];
      var first := Step(e, s, ops[0]);
      RunNext(e, first.0, ops[1..], op);
      var rest := Run(e, first.0, ops[1..]);
      var last := Step(e, rest.0, op).1;
      assert [first.1] + (rest.1 + [last]) == [first.1] + rest.1 + [last];
    }
  }

  // The specification: a plain map.
  function MapGet(m: map<nat, string>, k: nat): string { if k in m then m[k] else "" }

  function MapStep(m: map<nat, string>, op: Op): (map<nat, string>, Reply) {
    match op
    case PutOp(k, v) => (m[k := v], Stored)
    case GetOp(k) => (m, Found(MapGet(m, k)))
    case DelOp(k) => (m - {k}, Deleted(k in m))
  }

  function MapRun(m: map<nat, string>, ops: seq<Op>): (r: (map<nat, string>, seq<Reply>))
    ensures |r.1| == |ops|
    decreases |ops|
  {
    if ops == [] then (m, [])
    else
      var first := MapStep(m, ops[0]);
      var rest := MapRun(first.0, ops[1..]);
      (rest.0, [first.1] + rest.1)
  }

  lemma {:induction false} MapRunNext(m: map<nat, string>, ops: seq<Op>, op: Op)
    ensures var before := MapRun(m, ops);
            MapRun(m, ops + [op]) == (MapStep(before.0, op).0, before.1 + [MapStep(before.0, op).1])
    decreases |ops|
  {
    hide MapStep;
    if ops == [] {
      var first, none := MapStep(m, op), (ops + [op])[1..];
      assert (ops + [op])[0] == op && none == [];
      assert MapRun(first.0, none) == (first.0, []);
      assert [first.1] + MapRun(first.0, none).1 == MapRun(m, ops).1 + [first.1];
    } else {
      assert (ops + [op])[1..] == ops[1..] + [op];
      var first := MapStep(m, ops[0]);
      MapRunNext(first.0, ops[1..], op);
      var rest := MapRun(first.0, ops[1..]);
      var last := MapStep(rest.0, op).1;
      assert [first.1] + (rest.1 + [last]) == [first.1] + rest.1 + [last];
    }
  }

  ghost predicate StepHarmless(e: Env, s: Store, op: Op)
    requires Basic(s) && Legal(op)
  {
    match op
    case PutOp(k, v) => PutHarmless(e, s, k, v)
    case GetOp(k) => true
    case DelOp(k) => Get(s, k) != "" ==> PutHarmless(e, s, k, DEL)
  }

  // No compaction of the run harms a key.
  ghost predicate RunHarmless(e: Env, s: Store, ops: seq<Op>)
    requires Basic(s) && forall i :: 0 <= i < |ops| ==> Legal(ops[i])
    decreases |ops|
  {
    ops == [] || (StepHarmless(e, s, ops[0]) && RunHarmless(e, Step(e, s, ops[0]).0, ops[1..]))
  }

  // The store and the map agree on every key.
  ghost predicate Agree(s: Store, m: map<nat, string>) {
    && (forall k :: Get(s, k) == MapGet(m, k))
    && (forall k :: k in m ==> m[k] != "")
  }

  lemma StepSane(e: Env, s: Store, op: Op)
    requires Sane(e, s) && Legal(op)
    ensures Sane(e, Step(e, s, op).0)
  {
    hide Basic, Sane, Put, Get;
    match op {
      case PutOp(k, v) => PutSane(e, s, k, v);
      case GetOp(k) =>
      case DelOp(k) => if Get(s, k) != "" { PutSane(e, s, k, DEL); }
    }
  }

  lemma {:induction false} RunSane(e: Env, s: Store, ops: seq<Op>)
    requires Sane(e, s) && forall i :: 0 <= i < |ops| ==> Legal(ops[i])
    ensures Sane(e, Run(e, s, ops).0)
    decreases |ops|
  {
    hide Basic, Step;
    if ops != [] {
      StepSane(e, s, ops[0]);
      RunSane(e, Step(e, s, ops[0]).0, ops[1..]);
    }
  }

  // Every run from the empty store, whatever ties it meets, leaves every level
  // from 1 down disjoint, every shallower level no older than a deeper one,
  // and every table well formed.
  lemma EveryRunSane(e: Env, ops: seq<Op>)
    requires forall i :: 0 <= i < |ops| ==> Legal(ops[i])
    ensures Basic(EMPTY_STORE) && Sane(e, Run(e, EMPTY_STORE, ops).0)
  {
    EmptyStoreSane(e);
    RunSane(e, EMPTY_STORE, ops);
  }

  lemma StepAgrees(e: Env, s: Store, m: map<nat, string>, op: Op)
    requires Sane(e, s) && Legal(op) && StepHarmless(e, s, op) && Agree(s, m)
    ensures Agree(Step(e, s, op).0, MapStep(m, op).0) && Step(e, s, op).1 == MapStep(m, op).1
  {
    hide Basic, Sane, Put, Lookup;
    match op {
      case PutOp(k, v) =>
        PutCorrect(e, s, k, v);
      case GetOp(k) =>
      case DelOp(k) =>
        assert Get(s, k) == MapGet(m, k);
        if Get(s, k) != "" { PutCorrect(e, s, k, DEL); }
    }
  }

  lemma {:induction false} RunAgrees(e: Env, s: Store, m: map<nat, string>, ops: seq<Op>)
    requires Sane(e, s) && Agree(s, m)
    requires (forall i :: 0 <= i < |ops| ==> Legal(ops[i])) && RunHarmless(e, s, ops)
    ensures Agree(Run(e, s, ops).0, MapRun(m, ops).0) && Run(e, s, ops).1 == MapRun(m, ops).1
    decreases |ops|
  {
    hide Basic, Agree, Step, StepHarmless;
    if ops != [] {
      StepSane(e, s, ops[0]);
      StepAgrees(e, s, m, ops[0]);
      RunAgrees(e, Step(e, s, ops[0]).0, MapStep(m, ops[0]).0, ops[1..]);
    }
  }

  // Every run from the empty store in which no compaction into level 2 or
  // deeper harms a key gives the replies of a plain map.
  lemma RunsLikeAMap(e: Env, ops: seq<Op>)
    requires forall i :: 0 <= i < |ops| ==> Legal(ops[i])
    ensures Basic(EMPTY_STORE)
    ensures RunHarmless(e, EMPTY_STORE, ops) ==> Run(e, EMPTY_STORE, ops).1 == MapRun(map[], ops).1
  {
    EmptyStoreSane(e);
    if RunHarmless(e, EMPTY_STORE, ops) { RunAgrees(e, EMPTY_STORE, map[], ops); }
  }

  lemma EmptyStoreSane(e: Env)
    ensures Sane(e, EMPTY_STORE) && Agree(EMPTY_STORE, map[])
  {
    forall k ensures Get(EMPTY_STORE, k) == "" {
      assert LevelsGet([[]], k, 0) == LevelGet([], k).OrElse(LevelsGet([[]], k, 1));
    }
  }

  lemma StepBounded(e: Env, s: Store, op: Op)
    requires Basic(s) && Bounded(s) && Legal(op)
    ensures Bounded(Step(e, s, op).0)
  {
    hide Basic, Bounded, Get, Put;
    match op {
      case PutOp(k, v) => PutBounded(e, s, k, v);
      case GetOp(k) =>
      case DelOp(k) => if Get(s, k) != "" { PutBounded(e, s, k, DEL); }
    }
  }

  lemma {:induction false} RunBounded(e: Env, s: Store, ops: seq<Op>)
    requires Basic(s) && Bounded(s) && forall i :: 0 <= i < |ops| ==> Legal(ops[i])
    ensures Bounded(Run(e, s, ops).0)
    decreases |ops|
  {
    hide Basic, Bounded, Step;
    if ops != [] {
      StepBounded(e, s, ops[0]);
      RunBounded(e, Step(e, s, ops[0]).0, ops[1..]);
    }
  }
}
