// The size estimate of the memtable: what it is of the memtable's bytes, and
// so when a put flushes.
module Estimates {
  import opened Arithmetic
  import opened Options
  import opened Pairs
  import opened Merge
  import opened Tables
  import opened Levels
  import opened Ties
  import opened Cascades
  import opened History
  import opened Stores
  import opened ThinLevels
  import opened ThinStores

  lemma {:induction false} BytesHead(p: Pair, s: seq<Pair>)
    ensures Bytes([p] + s) == Bytes(s) + PairBytes(p)
  {
    var t := [p] + s;
    if s == [] {
      assert t[..0] == [];
    } else {
      assert t[..|t| - 1] == [p] + s[..|s| - 1];
      BytesHead(p, s[..|s| - 1]);
    }
  }

  // What a put adds to the bytes of an ascending list.
  lemma {:induction false} BytesInsert(s: seq<Pair>, k: nat, v: string)
    requires Ascending(s)
    ensures Bytes(Insert(s, k, v))
            == Bytes(s) + match Find(s, k) case None => PairBytes(Pair(k, v)) case Some(w) => |v| - |w|
  {
    hide Bytes;
    if s == [] || k < s[0].key {
      FindBelow(s, k);
      BytesHead(Pair(k, v), s);
    } else {
      assert s == [s[0]] + s[1..];
      BytesHead(s[0], s[1..]);
      if s[0].key == k {
        BytesHead(Pair(k, v), s[1..]);
      } else {
        BytesInsert(s[1..], k, v);
        BytesHead(s[0], Insert(s[1..], k, v));
      }
    }
  }

  // The estimate is the bytes of the memtable and a drift, modulo 2^64.
  function Estimate(mem: seq<Pair>, drift: int): int { (Bytes(mem) + drift) % UINT64 }

  ghost predicate Estimated(s: Store, drift: int) { s.memory == Estimate(s.mem, drift) }

  // The bytes of a value the memtable has for the key.
  function Replaced(mem: seq<Pair>, k: nat): nat {
    match Find(mem, k) case None => 0 case Some(w) => PairBytes(Pair(k, w))
  }

  // The drift after a flush: the estimate restarts too low, and lower still if
  // the put that flushes replaces a value.
  function Restart(mem: seq<Pair>, k: nat): int { CLEARED_MEMORY - INITIAL_SIZE - Replaced(mem, k) }

  lemma NoEmptyValue(s: Store, k: nat)
    requires Basic(s)
    ensures Find(s.mem, k) != Some("") && Ascending(s.mem)
  {
    if Find(s.mem, k).Some? {
      var i :| 0 <= i < |s.mem| && s.mem[i] == Pair(k, Find(s.mem, k).value);
      assert s.mem[i] in s.mem && Fits(s.mem[i]);
    }
  }

  lemma WrapSum(a: int, d: int)
    ensures (a % UINT64 + d) % UINT64 == (a + d) % UINT64
  {}

  // What a put adds.
  function Delta(val: string, v: string): int { if val != "" then |v| - |val| else 4 + 8 + |v| + 1 }

  lemma GrowWrap(memory: nat, val: string, v: string)
    ensures Grow(memory, val, v) == (memory + Delta(val, v)) % UINT64
  {}

  lemma DeltaIs(s: Store, k: nat, v: string)
    requires Basic(s) && Storable(k, v)
    ensures var d := Delta(ValueOr(Find(s.mem, k)), v);
            && Bytes(Insert(s.mem, k, v)) == Bytes(s.mem) + d
            && CLEARED_MEMORY >= 0 && Bytes([Pair(k, v)]) + Restart(s.mem, k) == CLEARED_MEMORY + d
  {
    NoEmptyValue(s, k);
    BytesInsert(s.mem, k, v);
    assert [Pair(k, v)][..0] == [];
    hide Basic, Insert, Find, Ascending;
  }

  // The estimate with one more put, in the memtable and in an empty one.
  lemma GrowIs(s: Store, k: nat, v: string, drift: int)
    requires Basic(s) && Storable(k, v) && Estimated(s, drift)
    ensures Grow(s.memory, ValueOr(Find(s.mem, k)), v) == Estimate(Insert(s.mem, k, v), drift)
    ensures Grow(CLEARED_MEMORY, ValueOr(Find(s.mem, k)), v) == Estimate([Pair(k, v)], Restart(s.mem, k))
  {
    hide *;
    var val := ValueOr(Find(s.mem, k));
    DeltaIs(s, k, v);
    EstimatedIs(s, drift);
    GrowWrap(s.memory, val, v);
    GrowWrap(CLEARED_MEMORY, val, v);
    EstimateNext(s.mem, drift, Delta(val, v), Insert(s.mem, k, v));
    EstimateFrom([Pair(k, v)], Restart(s.mem, k), CLEARED_MEMORY + Delta(val, v));
  }

  lemma EstimatedIs(s: Store, drift: int)
    ensures Estimated(s, drift) <==> s.memory == Estimate(s.mem, drift)
  {
    hide Estimate;
  }

  lemma EstimateNext(mem: seq<Pair>, drift: int, d: int, mem': seq<Pair>)
    requires Bytes(mem') == Bytes(mem) + d
    ensures (Estimate(mem, drift) + d) % UINT64 == Estimate(mem', drift)
  {
    hide Bytes;
    WrapSum(Bytes(mem) + drift, d);
  }

  lemma EstimateFrom(mem: seq<Pair>, drift: int, base: int)
    requires Bytes(mem) + drift == base
    ensures base % UINT64 == Estimate(mem, drift)
  {
    hide Bytes;
  }

  lemma PutFields(e: Env, s: Store, k: nat, v: string)
    requires Basic(s) && Storable(k, v)
    ensures var val, r := ValueOr(Find(s.mem, k)), Put(e, s, k, v);
            if Grow(s.memory, val, v) > TABLE_SIZE
            then
              && s.mem != [] && r.tiers == Settle(e.hash, FlushTiers(e, s))
              && r.mem == [Pair(k, v)] && r.clock == s.clock + 1 && r.memory == Grow(CLEARED_MEMORY, val, v)
              && r.minKey == Min(INT64_MAX, k) && r.maxKey == Max(INT64_MAX + 1, k)
            else r == s.(mem := Insert(s.mem, k, v), memory := Grow(s.memory, val, v),
                         minKey := Min(s.minKey, k), maxKey := Max(s.maxKey, k))
  {
    assert Insert([], k, v) == [Pair(k, v)];
    if Flushes(s, k, v) { FlushNotEmpty(s, k, v); }
    hide Settle, FlushTiers, Insert, Find, MemOk, TiersOk, Grow;
  }

  // A put flushes exactly when the estimate of the memtable with the new pair
  // is more than a table. Until then the drift stays, for a new key and for a
  // replaced one; a flush leaves the one pair and restarts the drift.
  lemma PutEstimate(e: Env, s: Store, k: nat, v: string, drift: int)
    requires Basic(s) && Storable(k, v) && Estimated(s, drift)
    ensures var mem', r := Insert(s.mem, k, v), Put(e, s, k, v);
            if Estimate(mem', drift) > TABLE_SIZE
            then r.mem == [Pair(k, v)] && r.clock == s.clock + 1 && Estimated(r, Restart(s.mem, k))
            else r.mem == mem' && r.clock == s.clock && r.tiers == s.tiers && Estimated(r, drift)
  {
    GrowIs(s, k, v, drift);
    PutFields(e, s, k, v);
    hide Put, Grow, Insert, Basic, Estimate, Find, Restart;
  }

  // The estimate restarted, with this much replaced.
  ghost predicate Low(s: Store, lost: nat) { Estimated(s, CLEARED_MEMORY - INITIAL_SIZE - lost) }

  // Up to the first flush the estimate is exact; after one it is low by a
  // megabyte and what the flush replaced.
  ghost predicate Tracked(s: Store) {
    && (s.clock == 0 ==> s.memory == Bytes(s.mem) <= TABLE_SIZE)
    && (s.clock > 0 ==> exists lost: nat :: Low(s, lost))
  }

  // The first flush comes exactly when the table would be too large.
  lemma PutTracked(e: Env, s: Store, k: nat, v: string)
    requires Basic(s) && Storable(k, v) && Tracked(s)
    ensures Tracked(Put(e, s, k, v))
    ensures s.clock == 0 ==> (Put(e, s, k, v).clock == 1 <==> Bytes(Insert(s.mem, k, v)) > TABLE_SIZE)
  {
    hide *;
    TrackedIs(s);
    TrackedIs(Put(e, s, k, v));
    LowIs(Put(e, s, k, v), Replaced(s.mem, k));
    RestartIs(s.mem, k);
    if s.clock == 0 {
      ExactEstimate(s, k, v);
      PutEstimate(e, s, k, v, 0);
    } else {
      var lost: nat :| Low(s, lost);
      LowIs(s, lost);
      LowIs(Put(e, s, k, v), lost);
      PutEstimate(e, s, k, v, CLEARED_MEMORY - INITIAL_SIZE - lost);
    }
  }

  lemma TrackedIs(s: Store)
    ensures Tracked(s) <==>
              && (s.clock == 0 ==> s.memory == Bytes(s.mem) <= TABLE_SIZE)
              && (s.clock > 0 ==> exists lost: nat :: Low(s, lost))
  {
    hide Bytes, Low;
  }

  lemma LowIs(s: Store, lost: nat)
    ensures Low(s, lost) <==> Estimated(s, CLEARED_MEMORY - INITIAL_SIZE - lost)
  {
    hide Estimated;
  }

  lemma RestartIs(mem: seq<Pair>, k: nat)
    ensures Restart(mem, k) == CLEARED_MEMORY - INITIAL_SIZE - Replaced(mem, k)
  {
    hide Replaced;
  }

  // Without drift nothing wraps.
  lemma ExactEstimate(s: Store, k: nat, v: string)
    requires Basic(s) && Storable(k, v) && s.memory == Bytes(s.mem) <= TABLE_SIZE
    ensures Estimated(s, 0) && Estimate(Insert(s.mem, k, v), 0) == Bytes(Insert(s.mem, k, v))
    ensures forall r: Store :: Estimated(r, 0) && r.mem == Insert(s.mem, k, v) ==> r.memory == Bytes(r.mem)
  {
    BytesBounded(s, k, v);
    hide Bytes, Insert, Basic;
  }

  lemma BytesBounded(s: Store, k: nat, v: string)
    requires Basic(s) && Storable(k, v)
    ensures Bytes(Insert(s.mem, k, v)) <= Bytes(s.mem) + TABLE_SIZE
  {
    BytesInsert(s.mem, k, v);
  }

  // ---------- The key range ----------

  // The range is that of the keys, but it starts at 2^63 - 1, and after a flush
  // its end at `base`, 2^63.
  ghost predicate RangeOf(mem: seq<Pair>, minKey: nat, maxKey: nat, base: nat) {
    && (forall k: nat :: HasKey(mem, k) ==> minKey <= k <= maxKey)
    && minKey <= INT64_MAX && (minKey == INT64_MAX || HasKey(mem, minKey))
    && maxKey >= base && (maxKey == base || HasKey(mem, maxKey))
  }

  ghost predicate Ranged(s: Store) {
    RangeOf(s.mem, s.minKey, s.maxKey, if s.clock > 0 then INT64_MAX + 1 else 0)
  }

  lemma InsertHas(s: seq<Pair>, k: nat, v: string, q: nat)
    requires Ascending(s)
    ensures HasKey(Insert(s, k, v), q) <==> q == k || HasKey(s, q)
  {
    InsertFind(s, k, v, q);
    HasKeyFind(s, q);
    HasKeyFind(Insert(s, k, v), q);
  }

  lemma RangeInsert(mem: seq<Pair>, minKey: nat, maxKey: nat, base: nat, k: nat, v: string)
    requires Ascending(mem) && RangeOf(mem, minKey, maxKey, base)
    ensures RangeOf(Insert(mem, k, v), Min(minKey, k), Max(maxKey, k), base)
  {
    forall q ensures HasKey(Insert(mem, k, v), q) <==> q == k || HasKey(mem, q) { InsertHas(mem, k, v, q); }
    hide HasKey, Insert, Ascending;
  }

  // A put keeps the range exact.
  lemma PutRanged(e: Env, s: Store, k: nat, v: string)
    requires Basic(s) && Storable(k, v) && Ranged(s)
    ensures Ranged(Put(e, s, k, v))
  {
    var base := if s.clock > 0 then INT64_MAX + 1 else 0;
    PutFields(e, s, k, v);
    NoEmptyValue(s, k);
    RangeInsert(s.mem, s.minKey, s.maxKey, base, k, v);
    RangeInsert([], INT64_MAX, INT64_MAX + 1, INT64_MAX + 1, k, v);
    assert Insert([], k, v) == [Pair(k, v)];
    hide Put, Grow, Insert, Basic, Find, RangeOf, Settle, FlushTiers;
  }

  lemma StepTracked(e: Env, s: Store, op: Op)
    requires Basic(s) && Legal(op) && Tracked(s) && Ranged(s)
    ensures Tracked(Step(e, s, op).0) && Ranged(Step(e, s, op).0)
  {
    hide Basic, Tracked, Ranged, Put, Get;
    match op {
      case PutOp(k, v) =>
        PutTracked(e, s, k, v);
        PutRanged(e, s, k, v);
      case GetOp(k) =>
      case DelOp(k) =>
        if Get(s, k) != "" {
          PutTracked(e, s, k, DEL);
          PutRanged(e, s, k, DEL);
        }
    }
  }

  lemma {:induction false} RunTracked(e: Env, s: Store, ops: seq<Op>)
    requires Basic(s) && Tracked(s) && Ranged(s) && forall i :: 0 <= i < |ops| ==> Legal(ops[i])
    ensures Tracked(Run(e, s, ops).0) && Ranged(Run(e, s, ops).0)
    decreases |ops|
  {
    hide Basic, Tracked, Ranged, Step;
    if ops != [] {
      StepTracked(e, s, ops[0]);
      RunTracked(e, Step(e, s, ops[0]).0, ops[1..]);
    }
  }

  // Over every run: the estimate is exact until the first flush, and the key
  // range is exact.
  lemma EveryRunTracked(e: Env, ops: seq<Op>)
    requires forall i :: 0 <= i < |ops| ==> Legal(ops[i])
    ensures Basic(EMPTY_STORE)
    ensures Tracked(Run(e, EMPTY_STORE, ops).0) && Ranged(Run(e, EMPTY_STORE, ops).0)
  {
    EmptyStoreSane(e);
    assert Bytes([]) == INITIAL_SIZE;
    RunTracked(e, EMPTY_STORE, ops);
  }

  // ---------- A flushed table that is too large ----------

  const FILLER := TABLE_SIZE - CLEARED_MEMORY - BIG - 26

  function Filler(): (v: string)
    ensures |v| == FILLER
  {
    seq(FILLER, _ => 'a')
  }

  // After a flush the estimate leaves room for a megabyte too much: the second
  // table of these four puts is larger than its slot.
  lemma OversizedTable(e: Env) returns (ops: seq<Op>)
    ensures |ops| == 4 && forall i :: 0 <= i < |ops| ==> Legal(ops[i]) && ops[i].PutOp?
    ensures Basic(EMPTY_STORE)
    ensures var l := Run(e, EMPTY_STORE, ops).0.tiers.levels;
            && |l| == 1 && |l[0]| == 2
            && Bytes(l[0][1].keyValue) == TABLE_SIZE + (INITIAL_SIZE - CLEARED_MEMORY) > TABLE_SIZE
  {
    hide *;
    FillerFacts();
    EmptyBasic(e);
    var a, b, c, d := PutOp(1, Big()), PutOp(2, Big()), PutOp(3, Filler()), PutOp(4, "b");
    ops := [a, b, c, d];
    FirstPut(e, 1);
    var s1 := Put(e, EMPTY_STORE, 1, Big());
    SecondPut(e, s1);
    var s2 := Put(e, s1, 2, Big());
    ThirdPut(e, s2);
    var s3 := Put(e, s2, 3, Filler());
    FourthPut(e, s3);
    FourSteps(e, a, b, c, d);
  }

  lemma FillerFacts()
    ensures Storable(1, Big()) && Storable(2, Big()) && Storable(3, Filler()) && Storable(4, "b")
    ensures Legal(PutOp(1, Big())) && Legal(PutOp(2, Big())) && Legal(PutOp(3, Filler())) && Legal(PutOp(4, "b"))
    ensures 1 < INT64_MAX && CLEARED_MEMORY < INITIAL_SIZE
  {
    assert |DEL| != |Big()| && |DEL| != |Filler()|;
    hide Big, Filler;
  }

  lemma EmptyBasic(e: Env)
    ensures Basic(EMPTY_STORE)
  {
    EmptyStoreSane(e);
  }

  lemma RunPut(e: Env, s: Store, op: Op, ops: seq<Op>)
    requires Basic(s) && op.PutOp? && Legal(op) && forall i :: 0 <= i < |ops| ==> Legal(ops[i])
    ensures forall i :: 0 <= i < |[op] + ops| ==> Legal(([op] + ops)[i])
    ensures Run(e, s, [op] + ops).0 == Run(e, Put(e, s, op.key, op.val), ops).0
    ensures Run(e, Put(e, s, op.key, op.val), []).0 == Put(e, s, op.key, op.val)
  {
    hide Basic, Put;
    assert ([op] + ops)[1..] == ops;
  }

  lemma FourSteps(e: Env, a: Op, b: Op, c: Op, d: Op)
    requires Basic(EMPTY_STORE)
    requires a.PutOp? && b.PutOp? && c.PutOp? && d.PutOp? && Legal(a) && Legal(b) && Legal(c) && Legal(d)
    ensures forall i :: 0 <= i < 4 ==> Legal([a, b, c, d][i]) && [a, b, c, d][i].PutOp?
    ensures Run(e, EMPTY_STORE, [a, b, c, d]).0
         == Put(e, Put(e, Put(e, Put(e, EMPTY_STORE, a.key, a.val), b.key, b.val), c.key, c.val), d.key, d.val)
  {
    hide Basic, Put, Run;
    var s1 := Put(e, EMPTY_STORE, a.key, a.val);
    var s2 := Put(e, s1, b.key, b.val);
    RunPut(e, EMPTY_STORE, a, [b, c, d]);
    RunPut(e, s1, b, [c, d]);
    RunPut(e, s2, c, [d]);
    RunPut(e, Put(e, s2, c.key, c.val), d, []);
    assert [a] + [b, c, d] == [a, b, c, d] && [b] + [c, d] == [b, c, d] && [c] + [d] == [c, d] && [d] + [] == [d];
  }

  lemma SecondPut(e: Env, s: Store)
    requires Stage(e, s, 1, [], []) && s.clock == 0
    ensures Basic(s) && Storable(2, Big())
    ensures var r := Put(e, s, 2, Big());
            && Basic(r) && r.mem == [Pair(2, Big())] && r.memory == CLEARED_MEMORY + BIG + 13
            && |r.tiers.levels| == 1 && |r.tiers.levels[0]| == r.tiers.count[0] == 1
  {
    AnotherKey(e, s, 1, [], [], 2);
    QuietPut(e, s, 1, [], [], 2);
    hide Big, Put, Good, AllOlder, Flushed;
  }

  lemma ThirdPut(e: Env, s: Store)
    requires Basic(s) && s.mem == [Pair(2, Big())] && s.memory == CLEARED_MEMORY + BIG + 13
    ensures Storable(3, Filler())
    ensures var r := Put(e, s, 3, Filler());
            r.mem == [Pair(2, Big()), Pair(3, Filler())] && r.memory == TABLE_SIZE && r.tiers == s.tiers
  {
    hide *;
    FillerFacts();
    OneThenAnother(Pair(2, Big()), 3, Filler());
    FillerFits();
    PutFields(e, s, 3, Filler());
  }

  lemma FillerFits()
    ensures ValueOr(None) == "" && Grow(CLEARED_MEMORY + BIG + 13, "", Filler()) == TABLE_SIZE
  {
    hide Filler;
  }

  lemma OneThenAnother(p: Pair, k: nat, v: string)
    requires p.key < k
    ensures Find([p], k) == None && Insert([p], k, v) == [p, Pair(k, v)]
  {
    assert [p][1..] == [];
    assert Insert([], k, v) == [Pair(k, v)];
  }

  lemma TwoBytes(p: Pair, q: Pair)
    ensures Bytes([p, q]) == INITIAL_SIZE + PairBytes(p) + PairBytes(q)
  {
    BytesAppend([], p);
    BytesAppend([p], q);
    assert [] + [p] == [p] && [p] + [q] == [p, q];
  }

  lemma FourthPut(e: Env, s: Store)
    requires Basic(s) && s.mem == [Pair(2, Big()), Pair(3, Filler())] && s.memory == TABLE_SIZE
    requires |s.tiers.levels| == 1 && |s.tiers.levels[0]| == s.tiers.count[0] == 1
    ensures Storable(4, "b")
    ensures var l := Put(e, s, 4, "b").tiers.levels;
            |l| == 1 && |l[0]| == 2 && Bytes(l[0][1].keyValue) == TABLE_SIZE + (INITIAL_SIZE - CLEARED_MEMORY)
  {
    hide *;
    FillerFacts();
    OneThenAnother(Pair(2, Big()), 3, Filler());
    NotAmongTwo(s.mem[0], s.mem[1], 4);
    OneMoreByte();
    PutFields(e, s, 4, "b");
    TwoFlushed(e, s);
  }

  lemma NotAmongTwo(p: Pair, q: Pair, k: nat)
    requires p.key != k && q.key != k
    ensures Find([p, q], k) == None
  {
    assert [p, q][1..] == [q] && [q][1..] == [];
  }

  lemma OneMoreByte()
    ensures ValueOr(None) == "" && Grow(TABLE_SIZE, "", "b") > TABLE_SIZE
  {}

  lemma TwoFlushed(e: Env, s: Store)
    requires Basic(s) && s.mem == [Pair(2, Big()), Pair(3, Filler())]
    requires |s.tiers.levels| == 1 && |s.tiers.levels[0]| == s.tiers.count[0] == 1
    ensures var t := FlushTiers(e, s);
            && t.Sound() && t.levels != [] && |t.levels[0]| == t.count[0] <= LEVEL0 + 1 && Settle(e.hash, t) == t
            && |t.levels| == 1 && |t.levels[0]| == 2
            && Bytes(t.levels[0][1].keyValue) == TABLE_SIZE + (INITIAL_SIZE - CLEARED_MEMORY)
  {
    TwoBytes(s.mem[0], s.mem[1]);
    var t := FlushTiers(e, s);
    hide Big, Filler, Bytes, Cascade, FlushTiers;
    assert t.levels[0] == s.tiers.levels[0] + [FlushedTable(e, s)];
  }
}
