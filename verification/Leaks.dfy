// The tables an ordered set turns away have been written already, and nothing
// ever deletes them: the zone manager keeps their numbers.
module Leaks {
  import opened Cascades
  import opened Compaction
  import opened History
  import opened Levels
  import opened Pairs
  import opened Stores
  import opened Tables
  import opened ZoneState

  // The number under which the zone manager holds a table.
  function IdOf(t: Table): Id { Id(t.level, t.order) }

  function IdsOf(l: seq<Table>): (r: set<Id>)
    ensures forall id :: id in r <==> exists x :: x in l && IdOf(x) == id
  {
    set x | x in l :: IdOf(x)
  }

  // The numbers of all tables in the levels.
  ghost function Ids(t: Tiers): (r: set<Id>)
    ensures forall id :: id in r <==> exists i :: 0 <= i < |t.levels| && id in IdsOf(t.levels[i])
  {
    set i, id | 0 <= i < |t.levels| && id in IdsOf(t.levels[i]) :: id
  }

  // What is lost when one table is emplaced, and when several are.
  function LeakOf(l: seq<Table>, t: Table): set<Id> {
    if EquivalentToOne(t, l) then {IdOf(t)} else {}
  }

  function LeakAll(l: seq<Table>, added: seq<Table>): set<Id> {
    if added == [] then {}
    else LeakAll(l, added[..|added| - 1]) + LeakOf(EmplaceAll(l, added[..|added| - 1]), added[|added| - 1])
  }

  lemma LeakNext(l: seq<Table>, added: seq<Table>, t: Table)
    ensures LeakAll(l, []) == {} && LeakAll(l, added + [t]) == LeakAll(l, added) + LeakOf(EmplaceAll(l, added), t)
  {
    assert (added + [t])[..|added|] == added;
  }

  // Exactly the numbers of the new tables that are turned away.
  lemma {:induction false} LeakIs(l: seq<Table>, added: seq<Table>)
    requires SortedLevel(l) && AllDiffer(added)
    ensures forall id :: id in LeakAll(l, added) <==> exists t :: t in added && EquivalentToOne(t, l) && IdOf(t) == id
  {
    if added != [] {
      var rest, t := added[..|added| - 1], added[|added| - 1];
      LeakIs(l, rest);
      EmplaceAllMembers(l, rest);
      LastDiffers(l, added, EmplaceAll(l, rest));
      hide EquivalentToOne, EmplaceAll;
      assert forall x :: x in added <==> x in rest || x == t;
    }
  }

  // The numbers one compaction leaves behind.
  function MergeLeak(h: Hash, x: Tiers, level: nat, n: nat): set<Id>
    requires 1 <= level < |x.levels| == |x.count| && 0 < n <= |x.levels[level - 1]|
    requires Solid(x.levels[level]) && Solid(x.levels[level - 1][..n])
  {
    var low := x.levels[level];
    LeakAll(low, Added(h, x.levels[level - 1][..n], low, level, x.count[level], level == |x.levels| - 1))
  }

  lemma ReadyToMerge(t: Tiers, level: nat)
    requires 1 <= level <= |t.levels| && t.Sound() && Due(t, level)
    ensures var x, n := t.Extend(level), CompactNum(t, level);
            && level < |x.levels| == |x.count| && x.levels[level - 1] == t.levels[level - 1]
            && 0 < n <= |t.levels[level - 1]|
            && Solid(x.levels[level]) && Solid(x.levels[level - 1][..n])
  {
    CompactReady(t, level);
  }

  function CompactLeak(h: Hash, t: Tiers, level: nat): set<Id>
    requires 1 <= level <= |t.levels| && t.Sound() && Due(t, level)
  {
    ReadyToMerge(t, level);
    MergeLeak(h, t.Extend(level), level, CompactNum(t, level))
  }

  // A compaction leaves a number behind for each new table that is turned
  // away, and none if all are fresh.
  lemma CompactLeakExactly(h: Hash, t: Tiers, level: nat)
    requires 1 <= level <= |t.levels| && Good(h, t) && Due(t, level)
    ensures t.Sound() && CompactNum(t, level) <= |t.levels[level - 1]| && level < |t.Extend(level).levels|
    ensures var x, picked := t.Extend(level), t.levels[level - 1][..CompactNum(t, level)];
            var low := x.levels[level];
            && InOrder(picked, low) && level < |x.count|
            && var added := Added(h, picked, low, level, x.count[level], level == |x.levels| - 1);
            && (forall id :: id in CompactLeak(h, t, level) <==>
                  exists q :: q in added && EquivalentToOne(q, low) && IdOf(q) == id)
            && (CompactLeak(h, t, level) == {} <==> AllFresh(low, added))
  {
    hide *;
    GoodSound(h, t);
    PickedInOrder(h, t, level);
    ReadyToMerge(t, level);
    var x, n := t.Extend(level), CompactNum(t, level);
    CompactLeakIs(h, t, level);
    LeakFresh(h, t.levels[level - 1][..n], x.levels[level], level, x.count[level], level == |x.levels| - 1);
  }

  lemma CompactLeakIs(h: Hash, t: Tiers, level: nat)
    requires 1 <= level <= |t.levels| && t.Sound() && Due(t, level)
    ensures var x, n := t.Extend(level), CompactNum(t, level);
            && level < |x.levels| == |x.count| && x.levels[level - 1] == t.levels[level - 1]
            && 0 < n <= |t.levels[level - 1]|
            && Solid(x.levels[level]) && Solid(t.levels[level - 1][..n])
            && CompactLeak(h, t, level) == MergeLeak(h, x, level, n)
            && CompactLeak(h, t, level) ==
                 LeakAll(x.levels[level],
                         Added(h, t.levels[level - 1][..n], x.levels[level], level, x.count[level],
                               level == |x.levels| - 1))
  {
    ReadyToMerge(t, level);
    hide Added, LeakAll, Solid;
  }

  lemma LeakFresh(h: Hash, picked: seq<Table>, low: seq<Table>, level: nat, count: nat, lastLevel: bool)
    requires InOrder(picked, low)
    ensures var added := Added(h, picked, low, level, count, lastLevel);
            && (forall id :: id in LeakAll(low, added) <==>
                  exists q :: q in added && EquivalentToOne(q, low) && IdOf(q) == id)
            && (LeakAll(low, added) == {} <==> AllFresh(low, added))
  {
    var added := Added(h, picked, low, level, count, lastLevel);
    MergedLevelKeeps(h, picked, low, level, count, lastLevel);
    AddedTables(h, picked, low, level, count, lastLevel);
    KeyOrderDiffers(added);
    LeakIs(low, added);
    hide Added, EquivalentToOne, LeakAll;
    assert forall q :: q in added && EquivalentToOne(q, low) ==> IdOf(q) in LeakAll(low, added);
  }

  // ---------- Over a cascade, a put and a run ----------

  function CascadeLeak(h: Hash, t: Tiers, level: nat): set<Id>
    requires 1 <= level <= |t.levels| && t.Sound()
    decreases Depth(t, level)
  {
    if !Due(t, level) then {}
    else
      CascadeStep(h, t, level);
      CompactLeak(h, t, level) + CascadeLeak(h, Compact(h, t, level), level + 1)
  }

  lemma CascadeLeakStep(h: Hash, t: Tiers, level: nat)
    requires 1 <= level <= |t.levels| && t.Sound()
    ensures !Due(t, level) ==> CascadeLeak(h, t, level) == {}
    ensures Due(t, level) ==>
              var c := Compact(h, t, level);
              c.Sound() && |c.levels| > level
                && CascadeLeak(h, t, level) == CompactLeak(h, t, level) + CascadeLeak(h, c, level + 1)
  {
    CascadeStep(h, t, level);
    hide Compact, CompactLeak, Depth, Tiers.Sound;
  }

  function FlushLeak(e: Env, s: Store): set<Id>
    requires Basic(s) && s.mem != []
  {
    if FlushTiers(e, s).count[0] > LEVEL0 then CascadeLeak(e.hash, FlushTiers(e, s), 1) else {}
  }

  function PutLeak(e: Env, s: Store, k: nat, v: string): set<Id>
    requires Basic(s) && Storable(k, v)
  {
    if Flushes(s, k, v) && s.mem != [] then FlushLeak(e, s) else {}
  }

  function StepLeak(e: Env, s: Store, op: Op): set<Id>
    requires Basic(s) && Legal(op)
  {
    match op
    case PutOp(k, v) => PutLeak(e, s, k, v)
    case GetOp(k) => {}
    case DelOp(k) => if Get(s, k) != "" then PutLeak(e, s, k, DEL) else {}
  }

  function RunLeak(e: Env, s: Store, ops: seq<Op>): set<Id>
    requires Basic(s) && forall i :: 0 <= i < |ops| ==> Legal(ops[i])
    decreases |ops|
  {
    if ops == [] then {} else StepLeak(e, s, ops[0]) + RunLeak(e, Step(e, s, ops[0]).0, ops[1..])
  }

  lemma {:induction false} RunLeakNext(e: Env, s: Store, ops: seq<Op>, op: Op)
    requires Basic(s) && (forall i :: 0 <= i < |ops| ==> Legal(ops[i])) && Legal(op)
    ensures forall i :: 0 <= i < |ops + [op]| ==> Legal((ops + [op])[i])
    ensures RunLeak(e, s, ops + [op]) == RunLeak(e, s, ops) + StepLeak(e, Run(e, s, ops).0, op)
    decreases |ops|
  {
    hide Step, StepLeak, Basic, Legal;
    assert forall i :: 0 <= i < |ops + [op]| ==> (ops + [op])[i] == if i < |ops| then ops[i] else op;
    if ops == [] {
      var none := (ops + [op])[1..];
      assert (ops + [op])[0] == op && none == [];
      assert RunLeak(e, Step(e, s, op).0, none) == {};
    } else {
      assert (ops + [op])[1..] == ops[1..] + [op];
      RunLeakNext(e, Step(e, s, ops[0]).0, ops[1..], op);
    }
  }
}
