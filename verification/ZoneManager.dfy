// The zone manager: it places tables in zones, and collects full zones to make
// room. Addresses are slots; every device command goes to the ghost trace.
module ZoneManager {
  import opened Arithmetic
  import opened Counting
  import opened Protocol
  import opened QueueCaches
  import opened Relocation
  import opened ZoneState

  // ---------- Sorting the deleted slots ----------

  ghost predicate Rising(s: seq<nat>) {
    forall i, j :: 0 <= i < j < |s| ==> s[i] < s[j]
  }

  function Place(x: nat, s: seq<nat>): (r: seq<nat>)
    ensures |r| == |s| + 1 && forall y :: y in r <==> y == x || y in s
  {
    if s == [] || x < s[0] then [x] + s
    else
      assert s == [s[0]] + s[1..];
      [s[0]] + Place(x, s[1..])
  }

  lemma {:induction false} PlaceRising(x: nat, s: seq<nat>)
    requires Rising(s) && x !in s
    ensures Rising(Place(x, s))
  {
    if s != [] && x >= s[0] {
      var rest := Place(x, s[1..]);
      PlaceRising(x, s[1..]);
      assert s[0] in s;
      assert forall y :: y in s[1..] ==> s[0] < y;
      assert forall i :: 0 <= i < |rest| ==> rest[i] in rest;
      hide Place;
      assert forall i :: 0 <= i < |rest| ==> s[0] < rest[i];
    }
  }

  function Sorted(s: seq<nat>): (r: seq<nat>)
    requires Distinct(s)
    ensures Rising(r) && |r| == |s| && forall y :: y in r <==> y in s
  {
    if s == [] then []
    else
      PlaceRising(s[0], Sorted(s[1..]));
      assert s == [s[0]] + s[1..];
      Place(s[0], Sorted(s[1..]))
  }

  // What became of a zone handed to the collector; Exit ends the program.
  datatype Outcome = Kept | Done | Exit

  lemma NoneTwice()
    ensures Distinct([])
  {}

  lemma OneMore(s: seq<nat>, z: nat)
    requires Distinct(s) && z !in s
    ensures Distinct(s + [z])
  {}

  // Takes n zones out of the queues, which hold m zones each.
  method TakeOpen(queues: QueueCache, n: nat, ghost m: nat) returns (open: seq<nat>)
    requires queues.Valid() && n <= queues.size
    requires queues.ptr == 0 && n <= m * |queues.queues|
    requires forall q :: 0 <= q < |queues.queues| ==> |queues.queues[q]| == m
    modifies queues
    // They come from the queues in turn.
    ensures InRounds(old(queues.queues), open)
    ensures queues.Valid() && |queues.queues| == old(|queues.queues|) && |open| == n && Distinct(open)
    ensures queues.size == old(queues.size) - n
    ensures forall z :: z in old(queues.Zones()) <==> z in queues.Zones() || z in open
    ensures forall z :: z in open ==> z !in queues.Zones()
  {
    hide *;
    open := [];
    var i := 0;
    ghost var base := queues.queues;
    queues.Parts();
    NoneTwice();
    RoundStart(base);
    NoRounds(base);
    while i < n
      invariant 0 <= i == |open| <= n && queues.size == old(queues.size) - i
      invariant Round(base, queues.queues, queues.ptr, i)
      invariant InRounds(base, open)
      invariant queues.Valid() && |queues.queues| == old(|queues.queues|) && Distinct(open)
      invariant forall z :: z in old(queues.Zones()) <==> z in queues.Zones() || z in open
      invariant forall z :: z in open ==> z !in queues.Zones()
    {
      ghost var was, ptr := queues.queues, queues.ptr;
      RoomInRound(base, m, n, i);
      queues.Parts();
      var z := queues.Get();
      RoundNext(base, was, ptr, i, z, queues.queues, queues.ptr);
      InRoundsNext(base, open, z);
      OneMore(open, z);
      open := open + [z];
      i := i + 1;
    }
  }

  // The zone filled last goes back to its queue if it has slots left.
  ghost predicate LeftOver(k: nat, dests: seq<Slot>, mid: seq<seq<nat>>, div: nat, after: seq<seq<nat>>) {
    if AtEnd(k, dests) then after == mid else PutBack(mid, div, dests[|dests| - 1].zone, after)
  }

  lemma NothingLeft(k: nat, mid: seq<seq<nat>>, div: nat)
    ensures LeftOver(k, [], mid, div, mid)
  {}

  lemma LastLeft(k: nat, dests: seq<Slot>, mid: seq<seq<nat>>, div: nat)
    requires dests != []
    ensures AtEnd(k, dests) ==> LeftOver(k, dests, mid, div, mid)
    ensures !AtEnd(k, dests) ==>
              forall q :: LeftOver(k, dests, mid, div, q) <==> PutBack(mid, div, dests[|dests| - 1].zone, q)
  {
    hide PutBack;
  }

  lemma NoneLeft(k: nat, dests: seq<Slot>, mid: seq<seq<nat>>, div: nat, after: seq<seq<nat>>)
    requires AtEnd(k, dests) && LeftOver(k, dests, mid, div, after)
    ensures after == mid
  {}

  lemma SyncsMore(was: seq<Slot>, dests: seq<Slot>)
    requires was <= dests
    ensures Syncs(dests) == Syncs(was) + Syncs(dests[|was|..])
  {}

  // If a successor is needed, it is the next zone of the queues, which are left
  // alone otherwise.
  ghost predicate Succeeds(needed: bool, before: seq<seq<nat>>, was: nat, next: nat, after: seq<seq<nat>>, ptr: nat) {
    if needed then Drawn(before, was, next, after, ptr) else after == before && ptr == was
  }

  // The slot is the last one written in the zone.
  ghost predicate NextOf(slot: Slot, zones: seq<ZoneMeta>, z: nat) {
    slot.zone == z < |zones| && slot.index + 1 == zones[z].write
  }

  class MemoryManager {
    const tables: nat     // slots of a zone
    const zoneNum: nat
    const openNum: nat
    const empty: QueueCache
    var mapping: map<Id, Slot>
    var remapping: map<Slot, Id>
    var pending: set<Id>
    var levels: nat
    var zones: seq<ZoneMeta>
    var open: seq<nat>
    var which: nat
    var full: set<nat>
    var reset: set<nat>
    ghost var trace: seq<Cmd>

    ghost function View(): State
      reads this`mapping, this`remapping, this`pending, this`zones, this`open, this`which, this`full, empty
    {
      State(mapping, remapping, pending, zones, open, which, empty.Zones(), full)
    }

    function Dims(): Size { Size(tables, zoneNum, openNum + 1) }

    ghost predicate Shape()
      reads this`mapping, this`levels, this`zones, this`open, empty
    {
      && tables > 0 && |zones| == zoneNum && |open| == openNum
      && empty.Valid() && (forall z :: 0 <= z < zoneNum ==> QueueOf(z, empty.div) < |empty.queues|)
      && (forall id :: id in mapping ==> id.level < levels)
    }

    ghost predicate Steady()
      reads this`mapping, this`remapping, this`pending, this`levels, this`zones, this`open, this`which, this`full,
            this`trace, empty
    {
      Shape() && Sound(tables, View(), Dims(), trace)
    }

    // A twentieth of the zones is not open: when few zones are empty, some are
    // full and one of them can be collected.
    ghost predicate Spacious() { 20 * openNum <= 19 * zoneNum }

    // And that twentieth is as many zones as a zone has slots.
    ghost predicate Ample() { Spacious() && 20 * tables <= zoneNum }

    // There is room for the live tables of any zone that is worth collecting.
    ghost predicate Roomy()
      reads this`mapping, this`remapping, this`pending, this`zones, this`open, this`which, this`full, empty
    {
      Ample() ==> FreeSlots(tables, View()) + 1 >= tables
    }

    ghost predicate Valid()
      reads this, empty
    {
      Steady() && reset <= full && Roomy()
    }

    // Few zones are empty, and the full ones hold nothing but live tables.
    ghost predicate Stuck()
      reads this, empty
    {
      && Valid() && empty.size * 20 < zoneNum && |full| + openNum + empty.size == zoneNum
      && (forall z :: z in full ==> z < zoneNum && zones[z].valid == tables)
      && |mapping| >= |full| * tables
    }

    // No zone is empty: a relocation ran out of room. It has lost no table.
    ghost predicate Spent()
      reads this`mapping, this`remapping, this`pending, this`levels, this`zones, this`open, this`which, this`full, empty
    {
      Shape() && empty.size == 0 && Inverse(View()) && !Ample()
    }

    // Why the program gives up.
    ghost predicate Jammed()
      reads this, empty
    {
      Stuck() || Spent()
    }

    // Every zone needs a queue (see QueuesSuffice).
    constructor (tables: nat, zoneNum: nat, openNum: nat, div: nat)
      requires tables > 0 && 0 < openNum <= zoneNum
      requires div > 0 && forall z :: 0 <= z < zoneNum ==> QueueOf(z, div) < zoneNum / div
      ensures Valid() && fresh(empty)
      ensures this.tables == tables && this.zoneNum == zoneNum && this.openNum == openNum
      ensures mapping == map[] && pending == {} && reset == {} && full == {} && trace == []
      // Without a twentieth of the zones to spare the first write finds few
      // empty zones and no full one to collect.
      ensures empty.size == zoneNum - openNum && (empty.size * 20 < zoneNum <==> !Spacious())
      // The open zones are the first ones of the queues in turn.
      ensures which == 0 && levels == 1 && |open| == openNum
      ensures empty.div == div && |empty.queues| == zoneNum / div
      ensures var n := zoneNum / div;
              n > 0 && forall j :: 0 <= j < openNum ==> open[j] == 2 * (j % n / 2 * div + j / n) + j % n % 2
      ensures forall z :: 0 <= z < zoneNum ==> zones[z] == ZoneMeta(0, 0, [])
    {
      hide *;
      this.tables, this.zoneNum, this.openNum := tables, zoneNum, openNum;
      assert QueueOf(0, div) < zoneNum / div;
      var queues := new QueueCache(zoneNum / div, div, zoneNum);
      empty := queues;
      mapping, remapping, pending, levels := map[], map[], {}, 1;
      zones := NewZones(zoneNum);
      full, reset, trace, which := {}, {}, [], 0;
      WholeQueues(zoneNum / div, div, zoneNum);
      ghost var base := queues.queues;
      var taken := TakeOpen(queues, openNum, div);
      RoundZones(base, div, taken);
      open := taken;
      new;
      hide *;
      FieldsOf();
      DimsIs();
      empty.Parts();
      InitSound(tables, zoneNum, open, empty.Zones(), Dims());
      ShapeFrom();
      SteadyFrom();
      empty.SizeCounts();
      EmptyZonesAreRoom(tables, View(), Dims(), trace);
      FewOpen();
      RoomyIs();
      ValidFrom();
    }

    lemma DimsIs()
      ensures Dims() == Size(tables, zoneNum, openNum + 1)
    {}

    // Enough zones are not open for a zone to be emptied into them.
    lemma FewOpen()
      ensures Ample() ==> zoneNum - openNum >= tables
      ensures Spacious() <==> 20 * openNum <= 19 * zoneNum
    {}

    // ---------- Waiting and reading ----------

    method Fetch(id: Id)
      requires Steady() && id in mapping
      modifies this`pending, this`trace
      ensures Steady() && pending == old(pending) - {id}
      ensures View() == Waited(old(View()), id) && trace == old(trace) + FetchCmds(old(View()), id)
      // The write is waited for if it is still pending; then the table is read.
      ensures trace == old(trace) + (if id in old(pending) then [Wait(mapping[id])] else []) + [Read(mapping[id])]
      ensures old(Valid()) ==> Valid()
    {
      hide Sound;
      FetchSound(tables, View(), Dims(), trace, id);
      ghost var issued := FetchCmds(View(), id);
      if id in pending {
        pending := pending - {id};
      }
      trace := trace + issued;
      assert View() == Waited(old(View()), id);
      SameRoom(tables, old(View()), View());
    }

    // ---------- Collecting a zone ----------

    // Reads the live tables of a full zone whose deleted slots are sorted.
    method Collect(z: nat) returns (live: seq<nat>)
      requires Steady() && z < zoneNum && z in full && Rising(zones[z].deleted)
      modifies this`pending, this`trace
      ensures Steady() && LiveIn(tables, zones[z], live)
      ensures forall i :: i in live ==> Slot(z, i) in remapping && remapping[Slot(z, i)] !in pending
      ensures pending <= old(pending) && old(trace) <= trace
      // Exactly they are waited for and read, in order.
      ensures forall id :: id in TablesIn(remapping, z, live) ==> id in mapping
      ensures View() == WaitedAll(old(View()), TablesIn(remapping, z, live))
      ensures trace == old(trace) + FetchAll(old(View()), TablesIn(remapping, z, live))
    {
      hide Sound, FetchCmds, FetchAll, WaitedAll;
      live := [];
      ghost var a := View();
      NothingFetched(a);
      var deleted := zones[z].deleted;
      var index, table := 0, 0;
      while table < tables
        modifies this`pending, this`trace
        invariant 0 <= index <= |deleted| && 0 <= table <= tables
        invariant Steady() && pending <= old(pending) && old(trace) <= trace
        invariant forall j :: 0 <= j < index ==> deleted[j] < table
        invariant forall j :: index <= j < |deleted| ==> deleted[j] >= table
        invariant forall i: nat :: i in live <==> i < table && i !in deleted
        invariant Rising(live) && forall j :: 0 <= j < |live| ==> live[j] < table
        invariant forall i :: i in live ==> Slot(z, i) in remapping && remapping[Slot(z, i)] !in pending
        invariant forall id :: id in TablesIn(remapping, z, live) ==> id in a.mapping
        invariant View() == WaitedAll(a, TablesIn(remapping, z, live))
        invariant trace == old(trace) + FetchAll(a, TablesIn(remapping, z, live))
      {
        if index < |deleted| && deleted[index] == table {
          index := index + 1;
        } else {
          assert table !in deleted;
          WrittenIsLive(tables, View(), Dims(), trace, Slot(z, table));
          TablesInNext(remapping, z, live, table);
          FetchAllNext(a, TablesIn(remapping, z, live), remapping[Slot(z, table)]);
          Fetch(remapping[Slot(z, table)]);
          live := live + [table];
        }
        table := table + 1;
      }
    }

    // Moves tables to the zone `to` until it is full or none is left. The
    // zone's counters are brought up to date afterwards.
    method FillZone(z: nat, live: seq<nat>, first: nat, to: nat, ghost a: State, ghost was: seq<Slot>,
                    ghost tos: seq<nat>)
      returns (i: nat, ghost st: State, ghost dests: seq<Slot>)
      requires Midway(tables, a, View(), z, live, first, {to}, Dims(), trace)
      requires |was| == first && Rewritten(a, View(), z, live, was) && RunsOf(tables, was, tos) && AtEnd(tables, was)
      requires first < |live| && to < |zones| && zones[to].write < tables
      modifies this`mapping, this`remapping, this`trace
      ensures first < i <= |live| && zones[to].write + (i - first) <= tables
      ensures i == |live| || zones[to].write + (i - first) == tables
      ensures Midway(tables, a, st, z, live, i, {to}, Dims(), trace)
      ensures FreeSlots(tables, st) == old(FreeSlots(tables, View()))
      ensures mapping.Keys == old(mapping.Keys) && old(trace) <= trace
      ensures st == View().(zones := zones[to := ZoneMeta(zones[to].write + (i - first), zones[to].valid + (i - first),
                                                          zones[to].deleted)])
      // The tables go to the zone's next slots, in order.
      ensures |dests| == i && Rewritten(a, View(), z, live, dests) && RunsOf(tables, dests, tos + [to])
      ensures was <= dests && NextSlot(dests[|dests| - 1]) == Slot(to, zones[to].write + (i - first))
      ensures trace == old(trace) + Syncs(dests[|was|..])
    {
      hide *;
      FieldsOf();
      st := View();
      i := first;
      dests := was;
      FillStart(tables, a, st, z, live, was, tos, to);
      var table := zones[to].write;
      while table < tables && i < |live|
        modifies this`mapping, this`remapping, this`trace
        invariant first <= i <= |live| && table == zones[to].write + (i - first) <= tables
        invariant i == first ==> table < tables
        invariant Midway(tables, a, st, z, live, i, {to}, Dims(), trace)
        invariant FreeSlots(tables, st) == old(FreeSlots(tables, View()))
        invariant mapping.Keys == old(mapping.Keys) && old(trace) <= trace
        invariant st == View().(zones := zones[to := ZoneMeta(table, zones[to].valid + (i - first), zones[to].deleted)])
        invariant |dests| == i && Filling(tables, a, st, z, live, was, dests, tos, to)
        invariant trace == old(trace) + Syncs(dests[|was|..])
      {
        FieldsOf();
        FillNext(tables, a, st, z, live, was, dests, tos, Dims(), trace, to);
        MidwayStep(tables, a, st, z, live, i, Dims(), trace, to);
        var from := Slot(z, live[i]);
        MoveIs(st, from, to);
        st := Move(st, from, to);
        dests := dests + [Slot(to, table)];
        var id := remapping[from];
        remapping := remapping - {from};
        mapping := mapping[id := Slot(to, table)];
        remapping := remapping[Slot(to, table) := id];
        trace := trace + [Sync(Slot(to, table))];
        table := table + 1;
        i := i + 1;
        FieldsOf();
      }
      FieldsOf();
      FillEnd(tables, a, st, z, live, was, dests, tos, to, View());
    }

    // Takes a zone from the queues and moves tables to it; a zone it fills is
    // full, and one that has slots left goes back to its queue.
    method MoveToNext(z: nat, live: seq<nat>, first: nat, ghost a: State, ghost was: seq<Slot>, ghost tos: seq<nat>)
      returns (i: nat, ghost dests: seq<Slot>, ghost to: nat, ghost mid: seq<seq<nat>>)
      requires Shape() && Midway(tables, a, View(), z, live, first, {}, Dims(), trace)
      requires first < |live| && empty.size > 0
      requires |was| == first && Rewritten(a, View(), z, live, was) && RunsOf(tables, was, tos) && AtEnd(tables, was)
      modifies this`mapping, this`remapping, this`zones, this`full, this`trace, empty
      ensures Shape() && first < i <= |live| && Midway(tables, a, View(), z, live, i, {}, Dims(), trace)
      ensures FreeSlots(tables, View()) + (i - first) == old(FreeSlots(tables, View()))
      ensures |dests| == i && was <= dests && Rewritten(a, View(), z, live, dests) && RunsOf(tables, dests, tos + [to])
      ensures trace == old(trace) + Syncs(dests[|was|..]) && (i < |live| ==> AtEnd(tables, dests))
      ensures Drawn(old(empty.queues), old(empty.ptr), to, mid, empty.ptr)
      ensures LeftOver(tables, dests, mid, empty.div, empty.queues)
    {
      hide *;
      ShapeParts();
      FieldsOf();
      EmptyIs();
      ghost var b := View();
      var taken := empty.Get();
      to, mid := taken, empty.queues;
      MidwayTake(tables, a, b, z, live, first, Dims(), trace, taken);
      HoldIs(b, taken);
      FieldsOf();
      RewrittenSame(a, b, View(), z, live, was);
      ghost var st;
      i, st, dests := FillZone(z, live, first, taken, a, was, tos);
      NextSlotIs(tables, was, dests);
      LastLeft(tables, dests, mid, empty.div);
      ghost var c := View();
      FieldsOf();
      zones := zones[taken := ZoneMeta(zones[taken].write + (i - first), zones[taken].valid + (i - first),
                                       zones[taken].deleted)];
      FieldsOf();
      MidwayGive(tables, a, st, z, live, i, Dims(), trace, taken);
      ReleaseIs(tables, st, taken);
      if zones[taken].write >= tables {
        full := full + {taken};
      } else {
        empty.Put(taken);
      }
      FieldsOf();
      RewrittenSame(a, c, View(), z, live, dests);
      ShapeFrom();
    }

    // Moves the live tables of a zone to empty zones; fails when those run out.
    // `dests` are the slots they go to, `tos` the zones taken for them, and `mid`
    // are the queues before what is left of the last one is put back.
    method Relocate(z: nat, live: seq<nat>)
      returns (ok: bool, ghost dests: seq<Slot>, ghost tos: seq<nat>, ghost mid: seq<seq<nat>>)
      requires Shape() && Midway(tables, View(), View(), z, live, 0, {}, Dims(), trace)
      modifies this`mapping, this`remapping, this`zones, this`full, this`trace, empty
      ensures ok <==> |live| <= old(FreeSlots(tables, View()))
      ensures ok ==> Shape() && Midway(tables, old(View()), View(), z, live, |live|, {}, Dims(), trace)
      ensures ok ==> FreeSlots(tables, View()) + |live| == old(FreeSlots(tables, View()))
      ensures !ok ==> Shape() && empty.size == 0 && Inverse(View()) && mapping.Keys == old(mapping.Keys)
      ensures old(trace) <= trace
      // The zones come from the queues in turn; the tables fill them one after
      // the other, in order, and nothing else is done.
      ensures ok ==> |dests| == |live| && Rewritten(old(View()), View(), z, live, dests) && RunsOf(tables, dests, tos)
      ensures ok ==> trace == old(trace) + Syncs(dests)
      ensures ok ==> DrawnAll(old(empty.queues), old(empty.ptr), tos, mid, empty.ptr)
                     && LeftOver(tables, dests, mid, empty.div, empty.queues)
    {
      hide *;
      ghost var a := View();
      FieldsOf();
      var i := 0;
      dests, tos, mid := [], [], empty.queues;
      RewrittenNone(a, a, z, live);
      NoRuns(tables);
      NoneDrawn(mid, empty.ptr);
      SyncsNext([], Slot(0, 0));
      NothingLeft(tables, mid, empty.div);
      while i < |live|
        invariant 0 <= i <= |live|
        invariant Shape() && Midway(tables, a, View(), z, live, i, {}, Dims(), trace)
        invariant FreeSlots(tables, View()) + i == FreeSlots(tables, a)
        invariant |dests| == i && Rewritten(a, View(), z, live, dests) && RunsOf(tables, dests, tos)
        invariant trace == old(trace) + Syncs(dests)
        invariant DrawnAll(old(empty.queues), old(empty.ptr), tos, mid, empty.ptr)
        invariant LeftOver(tables, dests, mid, empty.div, empty.queues)
        invariant i < |live| ==> AtEnd(tables, dests)
      {
        ShapeParts();
        FieldsOf();
        empty.SizeCounts();
        EmptyIs();
        if empty.Empty() {
          NoRoom(tables, View());
          MidwayMaps(tables, a, View(), z, live, i, {}, Dims(), trace);
          ok := false;
          return;
        }
        ghost var was, q, p, to := dests, empty.queues, empty.ptr, 0;
        NoneLeft(tables, dests, mid, empty.div, q);
        i, dests, to, mid := MoveToNext(z, live, i, a, dests, tos);
        DrawnAllNext(old(empty.queues), old(empty.ptr), tos, q, p, to, mid, empty.ptr);
        SyncsMore(was, dests);
        tos := tos + [to];
      }
      ok := true;
    }

    lemma EmptyIs()
      ensures empty.Empty() <==> empty.size == 0
    {}

    lemma FieldsOf()
      ensures View() == State(mapping, remapping, pending, zones, open, which, empty.Zones(), full)
    {}

    lemma ShapeParts()
      requires Shape()
      ensures tables > 0 && |zones| == zoneNum && |open| == openNum
      ensures empty.Valid() && (forall z :: 0 <= z < zoneNum ==> QueueOf(z, empty.div) < |empty.queues|)
      ensures empty.div > 0
      ensures forall id :: id in mapping.Keys ==> id.level < levels
    {}

    lemma ShapeFrom()
      requires tables > 0 && |zones| == zoneNum && |open| == openNum
      requires empty.Valid() && empty.div > 0
      requires (forall z :: 0 <= z < zoneNum ==> QueueOf(z, empty.div) < |empty.queues|)
      requires forall id :: id in mapping.Keys ==> id.level < levels
      ensures Shape()
    {}

    // Empties a full zone of its live tables, if it has any.
    method Vacate(z: nat) returns (ok: bool, ghost a: State, ghost live: seq<nat>, ghost dests: seq<Slot>)
      requires Steady() && z < zoneNum && z in full
      modifies this`mapping, this`remapping, this`pending, this`zones, this`full, this`trace, empty
      ensures ok <==> old(zones[z].valid) == 0 || old(zones[z].valid) <= old(FreeSlots(tables, View()))
      ensures ok ==>
                Shape() && Prepared(tables, old(View()), a, z) && Core(tables, a, {}, {})
                && LiveIn(tables, a.zones[z], live)
      ensures ok ==>
                Midway(tables, a, View(), z, live, |live|, {}, Dims(), trace)
                && FreeSlots(tables, View()) + |live| == FreeSlots(tables, a)
      ensures !ok ==> Shape() && empty.size == 0 && Inverse(View()) && mapping.Keys == old(mapping.Keys)
      ensures old(trace) <= trace
      // They are read in slot order, then written in that order.
      ensures ok ==> CopiedAs(tables, old(View()), View(), z, live, dests, old(trace), trace)
      ensures ok ==> LiveIn(tables, old(zones[z]), live)
    {
      hide Core, Midway, FreeSlots, DeletedSlots, Traced, FetchAll, WaitedAll, CopiedAs, Rewritten, RunsOf, DrawnAll,
           LeftOver;
      SoundZone(tables, View(), Dims(), trace, z);
      if zones[z].valid != 0 {
        ResortedSound(tables, View(), Dims(), trace, z, Sorted(zones[z].deleted));
        zones := zones[z := zones[z].(deleted := Sorted(zones[z].deleted))];
        assert View() == Resorted(old(View()), z, zones[z].deleted);
        var found := Collect(z);
        live, a := found, View();
        SameRoom(tables, Resorted(old(View()), z, zones[z].deleted), a);
        SoundZone(tables, a, Dims(), trace, z);
        LiveCount(tables, zones[z], live);
        LiveSame(tables, zones[z], old(zones[z]), live);
        MidwayStart(tables, a, z, live, Dims(), trace);
        ghost var tos, mid, read := [], empty.queues, trace;
        ok, dests, tos, mid := Relocate(z, found);
        if ok {
          CopiedFrom(tables, old(View()), Resorted(old(View()), z, a.zones[z].deleted), a, View(), z, live, dests, tos,
                     old(trace), read, trace);
        }
      } else {
        ok, a, live, dests := true, View(), [], [];
        CopiedNone(tables, a, z, trace);
        NoneLive(tables, zones[z]);
        MidwayStart(tables, a, z, live, Dims(), trace);
      }
    }

    // Resets a full zone: always when forced, otherwise if less than a fifth
    // of it is live.
    method ResetZone(z: nat, force: bool) returns (out: Outcome, ghost live: seq<nat>, ghost dests: seq<Slot>)
      requires Steady() && z < zoneNum
      modifies this`mapping, this`remapping, this`pending, this`zones, this`full, this`trace, empty
      ensures out == Kept <==> old(zones[z].write < tables || (!force && zones[z].valid * 5 >= tables))
      ensures out == Exit <==> (old(zones[z].write >= tables && (force || zones[z].valid * 5 < tables)
                                    && (zones[z].valid == tables || FreeSlots(tables, View()) < zones[z].valid)))
      // When room runs out no table is lost, but the zone is not reset.
      ensures out == Exit && old(zones[z].valid) < tables ==>
                Shape() && empty.size == 0 && Inverse(View()) && mapping.Keys == old(mapping.Keys)
      ensures out == Kept || old(zones[z].valid) == tables ==> Steady() && View() == old(View()) && trace == old(trace)
      ensures out == Done ==>
                && Steady() && Collected(tables, old(View()), View(), z)
                && FreeSlots(tables, View()) == old(FreeSlots(tables, View()) + |zones[z].deleted|)
                && DeletedSlots(View()) + old(|zones[z].deleted|) == old(DeletedSlots(View()))
                && old(trace) < trace && trace[|trace| - 1] == Reset(z)
      // The live tables are read in slot order, written in that order to
      // successive slots, and the zone is reset; nothing else is done.
      ensures out == Done ==> CopiedAs(tables, old(View()), View(), z, live, dests, old(trace), trace[..|trace| - 1])
      ensures out == Done ==> LiveIn(tables, old(zones[z]), live) && z in empty.Zones()
    {
      hide *;
      SteadyParts();
      FieldsOf();
      SoundZone(tables, View(), Dims(), trace, z);
      FullMeta(tables, zones[z]);
      if zones[z].write < tables {
        return Kept, [], [];
      }
      if zones[z].valid == tables {
        return if force then Exit else Kept, [], [];
      }
      if !(zones[z].valid * 5 < tables || force) {
        return Kept, [], [];
      }
      var ok;
      ghost var a;
      ok, a, live, dests := Vacate(z);
      if !ok {
        return Exit, [], [];
      }
      ghost var b, issued := View(), trace;
      PreparedParts(tables, old(View()), a, z);
      MidwayEnd(tables, a, b, z, live, Dims(), trace);
      PreparedCollected(tables, old(View()), a, Clear(b, z), z);
      ClearIs(b, z);
      FieldsOf();
      ShapeParts();
      trace := trace + [Reset(z)];
      zones := zones[z := ZoneMeta(0, 0, [])];
      empty.Put(z);
      full := full - {z};
      FieldsOf();
      ShapeFrom();
      SteadyFrom();
      assert trace[..|trace| - 1] == issued;
      CopiedSame(tables, old(View()), b, View(), z, live, dests, old(trace), issued);
      out := Done;
    }

    // ---------- Eviction ----------

    // Collects the marked zones that are less than a fifth live.
    method Sweep() returns (exited: bool)
      requires Steady() && reset <= full
      modifies this`mapping, this`remapping, this`pending, this`zones, this`full, this`trace, empty
      ensures exited ==> old(FreeSlots(tables, View())) + 1 < tables
      ensures exited ==> Shape() && empty.size == 0 && Inverse(View()) && mapping.Keys == old(mapping.Keys)
      ensures !exited ==> Steady() && Swept(tables, old(View()), View(), reset, {})
      ensures FreeSlots(tables, View()) >= old(FreeSlots(tables, View())) || exited
      ensures DeletedSlots(View()) <= old(DeletedSlots(View())) || exited
      ensures old(trace) <= trace || exited
    {
      hide *;
      ViewIs();
      var todo := reset;
      ghost var a, seen: set<nat> := View(), {};
      FullZones(tables, a, Dims(), trace);
      SweptStart(tables, a, todo);
      while todo != {}
        invariant seen + todo == reset && Steady()
        invariant Swept(tables, a, View(), seen, todo)
        invariant FreeSlots(tables, View()) >= FreeSlots(tables, a)
        invariant DeletedSlots(View()) <= DeletedSlots(a)
        invariant old(trace) <= trace
        decreases |todo|
      {
        var z :| z in todo;
        ghost var b := View();
        ViewIs();
        SweptNext(tables, a, b, seen, todo, z);
        SoundZone(tables, b, Dims(), trace, z);
        var out;
        ghost var live, dests;
        out, live, dests := ResetZone(z, false);
        if out == Exit {
          SweptKeys(tables, a, b, seen, todo);
          return true;
        }
        if out == Done {
          SweptReset(tables, a, b, View(), seen, todo, z);
        } else {
          SweptKept(tables, a, b, seen, todo, z);
        }
        seen := seen + {z};
        todo := todo - {z};
      }
      assert seen == reset;
      exited := false;
    }

    // Goes over the zones with deletions, once.
    method TryReset() returns (exited: bool)
      requires Valid()
      modifies this`mapping, this`remapping, this`pending, this`zones, this`full, this`reset, this`trace, empty
      ensures exited ==> Spent() && mapping.Keys == old(mapping.Keys)
      ensures !exited ==>
                && Valid() && reset == {} && Swept(tables, old(View()), View(), old(reset), {})
                && mapping.Keys == old(mapping.Keys)
                && FreeSlots(tables, View()) >= old(FreeSlots(tables, View()))
                && DeletedSlots(View()) <= old(DeletedSlots(View()))
                && old(trace) <= trace
    {
      hide *;
      ValidParts();
      ViewIs();
      ghost var a := View();
      exited := Sweep();
      if exited {
        NotAmple(FreeSlots(tables, a));
        SpentFrom();
        return;
      }
      SweptKeys(tables, a, View(), reset, {});
      ViewIs();
      reset := {};
      RoomyIs();
      ValidFrom();
    }

    lemma ValidParts()
      requires Valid()
      ensures Steady() && reset <= full
      ensures Ample() ==> FreeSlots(tables, View()) + 1 >= tables
    {
      hide Steady, FreeSlots;
    }

    lemma MarkedAreZones()
      requires Valid()
      ensures forall z :: z in reset ==> z < |View().zones|
    {
      hide Sound;
      FullZones(tables, View(), Dims(), trace);
    }

    lemma ValidFrom()
      requires Steady() && reset <= full && Roomy()
      ensures Valid()
    {}

    lemma RoomyIs()
      requires Ample() ==> FreeSlots(tables, View()) + 1 >= tables
      ensures Roomy()
    {
      hide FreeSlots;
    }

    lemma NotAmple(room: nat)
      requires Ample() ==> room + 1 >= tables
      ensures room + 1 < tables ==> !Ample()
    {}

    lemma SpentFrom()
      requires Shape() && empty.size == 0 && Inverse(View()) && !Ample()
      ensures Spent()
    {
      hide Shape, Inverse;
    }

    lemma ViewIs()
      requires Steady()
      ensures View() == State(mapping, remapping, pending, zones, open, which, empty.Zones(), full)
      ensures Sound(tables, View(), Dims(), trace) && |zones| == zoneNum
    {}

    // A full zone with the fewest live tables.
    method FewestLive() returns (z: nat)
      requires Steady() && full != {}
      ensures z in full && forall y :: y in full ==> z < zoneNum && y < zoneNum && zones[z].valid <= zones[y].valid
    {
      hide Sound;
      FullZones(tables, View(), Dims(), trace);
      var todo := full;
      z :| z in full;
      var least := tables;
      while todo != {}
        invariant todo <= full && z in full && least <= tables
        invariant forall y :: y in full && y !in todo ==> least <= zones[y].valid
        invariant least == tables || least == zones[z].valid
        decreases todo
      {
        var y :| y in todo;
        if zones[y].valid < least {
          least, z := zones[y].valid, y;
        }
        todo := todo - {y};
      }
    }

    method EvictZone() returns (exited: bool)
      requires Valid() && full != {}
      modifies this`mapping, this`remapping, this`pending, this`zones, this`full, this`reset, this`trace, empty
      ensures !exited ==>
                && Valid() && reset == {}
                && mapping.Keys == old(mapping.Keys) && pending <= old(pending) && open == old(open)
                && which == old(which)
                && FreeSlots(tables, View()) >= old(FreeSlots(tables, View()))
                && old(trace) <= trace
      ensures !exited ==> Evicted(tables, old(View()), old(reset), View())
      ensures !exited && old(reset) != {} ==> DeletedSlots(View()) <= old(DeletedSlots(View()))
      ensures !exited && old(reset) == {} ==> DeletedSlots(View()) < old(DeletedSlots(View()))
      ensures exited ==> mapping.Keys == old(mapping.Keys)
      ensures exited ==>
                || Spent()
                || (Valid() && View() == old(View())
                    && forall z :: z in full ==> z < zoneNum && zones[z].valid == tables)
    {
      hide Sound, FreeSlots, DeletedSlots, Inverse;
      if reset != {} {
        exited := TryReset();
      } else {
        FullZones(tables, View(), Dims(), trace);
        var z := FewestLive();
        SoundZone(tables, View(), Dims(), trace, z);
        ghost var a := View();
        var out;
        ghost var live, dests;
        out, live, dests := ResetZone(z, true);
        exited := out == Exit;
        assert !exited ==> Victim(tables, a, View(), z);
      }
    }

    // ---------- The interface ----------

    // Keeps a twentieth of the zones empty; exits when the collector does.
    // `log` has the states the evictions started from, and the last one.
    method MakeRoom() returns (exited: bool, ghost log: seq<Moment>)
      requires Valid() && Spacious()
      modifies this`mapping, this`remapping, this`pending, this`zones, this`full, this`reset, this`trace, empty
      ensures !exited ==>
                && Valid() && empty.size * 20 >= zoneNum
                && mapping.Keys == old(mapping.Keys) && pending <= old(pending) && open == old(open)
                && which == old(which)
                && FreeSlots(tables, View()) >= old(FreeSlots(tables, View()))
                && old(trace) <= trace
      ensures exited ==> Jammed() && mapping.Keys == old(mapping.Keys)
      // It evicts only while fewer zones are empty.
      ensures Evictions(tables, zoneNum, log) && log[0] == Moment(old(View()), old(reset))
      ensures !exited ==> log[|log| - 1] == Moment(View(), reset)
      ensures !exited && |log| == 1 ==>
                trace == old(trace) && empty.queues == old(empty.queues) && empty.ptr == old(empty.ptr)
    {
      hide Sound, FreeSlots, DeletedSlots, InOwnQueue, Total, ZonesIn, Collected, Swept, Spent, Inverse, Evicted,
           Evictions;
      log := [Moment(View(), reset)];
      NoEviction(tables, zoneNum, log[0]);
      while empty.size * 20 < zoneNum
        invariant Valid()
        invariant mapping.Keys == old(mapping.Keys) && pending <= old(pending)
        invariant open == old(open) && which == old(which)
        invariant FreeSlots(tables, View()) >= old(FreeSlots(tables, View()))
        invariant old(trace) <= trace && Evictions(tables, zoneNum, log) && log != []
        invariant log[0] == Moment(old(View()), old(reset)) && log[|log| - 1] == Moment(View(), reset)
        invariant |log| == 1 ==> trace == old(trace) && empty.queues == old(empty.queues) && empty.ptr == old(empty.ptr)
        decreases DeletedSlots(View()), |reset|
      {
        FullCount(tables, View(), Dims(), trace);
        empty.SizeCounts();
        ghost var a := View();
        exited := EvictZone();
        if exited {
          if !Spent() {
            empty.SizeCounts();
            FullOfTables(tables, View(), Dims(), trace);
          }
          return;
        }
        EvictionsNext(tables, zoneNum, log, Moment(View(), reset));
        log := log + [Moment(View(), reset)];
      }
      exited := false;
    }

    // Takes the next slot of the open zone whose turn it is, and opens `next`
    // in its place if that fills it.
    method TakeSlot() returns (slot: Slot, ghost next: nat)
      requires Shape() && empty.size > 0 && which < openNum && open[which] < zoneNum
      modifies this`zones, this`open, this`which, this`full, empty
      ensures Shape() && next in old(empty.Zones()) && slot == old(Slot(open[which], zones[open[which]].write))
      ensures var m := old(zones[open[which]]);
              && zones == old(zones)[slot.zone := ZoneMeta(m.write + 1, m.valid + 1, m.deleted)]
              && open == (if m.write + 1 >= tables then old(open)[old(which) := next] else old(open))
              && full == (if m.write + 1 >= tables then old(full) + {slot.zone} else old(full))
              && empty.Zones() == (if m.write + 1 >= tables then old(empty.Zones()) - {next} else old(empty.Zones()))
      // The turn goes to the next open zone, round and round.
      ensures which == if old(which) + 1 < openNum then old(which) + 1 else 0
      ensures empty.size + 1 >= old(empty.size)
      // The successor is the next zone of the queues, which are left alone
      // otherwise.
      ensures Succeeds(old(zones[open[which]]).write + 1 >= tables, old(empty.queues), old(empty.ptr), next,
                       empty.queues, empty.ptr)
    {
      hide InOwnQueue, Total, ZonesIn, FirstNonEmpty, Popped, Drawn;
      empty.SizeCounts();
      next :| next in empty.Zones();
      var z := open[which];
      slot := Slot(z, zones[z].write);
      zones := zones[z := ZoneMeta(zones[z].write + 1, zones[z].valid + 1, zones[z].deleted)];
      if zones[z].write >= tables {
        full := full + {z};
        var successor := empty.Get();
        next := successor;
        open := open[which := successor];
      }
      Successor(which, openNum);
      which := (which + 1) % openNum;
    }

    // Queues the write of one table.
    method PlaceTable(id: Id) returns (ghost next: nat)
      requires Steady() && reset <= full && empty.size > 0 && id !in mapping && id.level <= levels
      modifies this`mapping, this`remapping, this`pending, this`levels, this`zones, this`open, this`which, this`full,
               this`trace, empty
      ensures Steady() && reset <= full && Placed(tables, old(View()), View(), id, next)
      ensures id in mapping && trace == old(trace) + [Async(which + 1, mapping[id])]
      ensures which == if old(which) + 1 < openNum then old(which) + 1 else 0
      ensures old(which < openNum && open[which] < zoneNum)
      ensures Succeeds(old(zones[open[which]]).write + 1 >= tables, old(empty.queues), old(empty.ptr), next,
                       empty.queues, empty.ptr)
      ensures empty.size + 1 >= old(empty.size)
      ensures levels == if id.level == old(levels) then old(levels) + 1 else old(levels)
    {
      hide *;
      ghost var a := View();
      SteadyParts();
      FieldsOf();
      OpenZones(tables, a, Dims(), trace);
      var slot;
      slot, next := TakeSlot();
      AllocSound(tables, a, Dims(), trace, id, next);
      AllocIs(tables, a, id, next);
      RoundAndRound(openNum, a.which);
      FieldsOf();
      Enter(id, slot, Alloc(tables, a, id, next));
      FieldsOf();
      PlacedIs(tables, a, View(), id, next);
      SteadyFrom();
    }

    // Enters a table in the maps, and queues its write.
    method Enter(id: Id, slot: Slot, ghost b: State)
      requires Shape() && id.level <= levels
      requires b == State(mapping[id := slot], remapping[slot := id], pending + {id}, zones, open, which, empty.Zones(),
                          full)
      modifies this`mapping, this`remapping, this`pending, this`levels, this`trace
      ensures Shape() && View() == b && trace == old(trace) + [Async(which + 1, slot)]
      ensures levels == if id.level == old(levels) then old(levels) + 1 else old(levels)
    {
      hide *;
      ShapeParts();
      if levels < id.level + 1 {
        levels := levels + 1;
      }
      mapping := mapping[id := slot];
      remapping := remapping[slot := id];
      pending := pending + {id};
      trace := trace + [Async(which + 1, slot)];
      FieldsOf();
      ShapeFrom();
    }

    lemma EnoughEmpty()
      requires Steady() && empty.size * 20 >= zoneNum
      ensures empty.size > 0
    {
      hide Sound;
      OpenZones(tables, View(), Dims(), trace);
    }

    // With one zone less than a twentieth empty there is still room.
    lemma EmptiesAreRoom()
      requires (empty.size + 1) * 20 >= zoneNum && FreeSlots(tables, View()) >= empty.size
      ensures Ample() ==> FreeSlots(tables, View()) + 1 >= tables
    {
      hide FreeSlots;
    }

    lemma SteadyParts()
      requires Steady()
      ensures Shape() && Sound(tables, View(), Dims(), trace) && |open| == openNum && openNum > 0
    {}

    lemma SteadyFrom()
      requires Shape() && Sound(tables, View(), Dims(), trace)
      ensures Steady()
    {}

    // Evicts while it must, and places one table. `log` has the states the
    // evictions started from, and the one the table was placed in.
    method WriteTable(id: Id) returns (exited: bool, ghost log: seq<Moment>, ghost next: nat)
      requires Valid() && Spacious() && id !in mapping && id.level <= levels
      modifies this`mapping, this`remapping, this`pending, this`levels, this`zones, this`open, this`which, this`full,
               this`reset, this`trace, empty
      ensures !exited ==>
                && Valid() && mapping.Keys == old(mapping.Keys) + {id}
                && id in pending && pending <= old(pending) + {id}
                && old(trace) < trace && trace[|trace| - 1] == Async(which + 1, mapping[id])
                && (empty.size + 1) * 20 >= zoneNum
                && levels == if id.level == old(levels) then old(levels) + 1 else old(levels)
      // The slot is the next one of the open zone whose turn it is.
      ensures old(which < openNum && open[which] < zoneNum)
      ensures !exited ==> NextOf(mapping[id], zones, old(open[which]))
      // Then the turn goes to the next open zone, round and round.
      ensures !exited ==> which == if old(which) + 1 < openNum then old(which) + 1 else 0
      // Nothing is evicted unless few zones are empty; then the table is placed.
      ensures Evictions(tables, zoneNum, log) && log[0] == Moment(old(View()), old(reset))
      ensures !exited ==> Placed(tables, log[|log| - 1].st, View(), id, next)
      ensures !exited && |log| == 1 ==>
                && trace == old(trace) + [Async(which + 1, mapping[id])]
                && Succeeds(old(zones[open[which]]).write + 1 >= tables, old(empty.queues), old(empty.ptr), next,
                            empty.queues, empty.ptr)
      ensures exited ==> Jammed() && mapping.Keys == old(mapping.Keys)
    {
      hide Sound, FreeSlots, InOwnQueue, Total, ZonesIn, Placed, Stuck, Spent, NextPosition, Roomy, Evictions;
      OpenZones(tables, View(), Dims(), trace);
      next := 0;
      exited, log := MakeRoom();
      if exited {
        return;
      }
      OpenZones(tables, View(), Dims(), trace);
      ghost var a := View();
      ValidParts();
      EnoughEmpty();
      next := PlaceTable(id);
      PlacedFacts(tables, a, View(), id, next);
      EmptyZonesAreRoom(tables, View(), Dims(), trace);
      empty.SizeCounts();
      EmptiesAreRoom();
      RoomyIs();
      ValidFrom();
    }

    // Only a table whose write was waited for may be deleted.
    method DeleteTable(id: Id)
      requires Valid() && id !in pending
      modifies this`mapping, this`remapping, this`zones, this`reset
      ensures Valid() && mapping.Keys == old(mapping.Keys) - {id}
      ensures id !in old(mapping) ==> View() == old(View()) && reset == old(reset)
      ensures id in old(mapping) ==>
                && Removed(old(View()), View(), id)
                && reset == if old(mapping)[id].zone in full then old(reset) + {old(mapping)[id].zone} else old(reset)
    {
      hide *;
      ValidParts();
      FieldsOf();
      if id !in mapping {
        return;
      }
      ghost var a := View();
      RemoveReady(id);
      var s := mapping[id];
      mapping := mapping - {id};
      remapping := remapping - {s};
      var m := zones[s.zone];
      zones := zones[s.zone := ZoneMeta(m.write, m.valid - 1, m.deleted + [s.index])];
      FieldsOf();
      RemovedIs(a, View(), id);
      RemoveRoom(tables, a, id);
      ShapeFrom();
      SteadyFrom();
      RoomyIs();
      if zones[s.zone].write >= tables {
        reset := reset + {s.zone};
      }
      ValidFrom();
    }

    lemma RemoveReady(id: Id)
      requires Steady() && id in mapping && id !in pending
      ensures mapping[id].zone < |zones| && zones[mapping[id].zone].valid > 0
      ensures Sound(tables, Remove(View(), id), Dims(), trace)
      ensures mapping[id].zone in full <==> zones[mapping[id].zone].write >= tables
      ensures tables > 0 && |zones| == zoneNum && |open| == openNum && empty.Valid() && empty.div > 0
      ensures (forall z :: 0 <= z < zoneNum ==> QueueOf(z, empty.div) < |empty.queues|)
      ensures forall id :: id in mapping.Keys ==> id.level < levels
    {
      hide Sound;
      RemoveSound(tables, View(), Dims(), trace, id);
      SoundZone(tables, View(), Dims(), trace, mapping[id].zone);
      ShapeParts();
    }

    // The queued writes go to the open positions and their workers in turn: any
    // openNum of them in a row to as many different workers, and after that to
    // the same ones again.
    lemma WritesInTurn(i: nat, j: nat)
      requires Valid() && i < j < |trace| && trace[i].Async? && trace[j].Async?
      ensures openNum > 0 && which == Asyncs(trace) % openNum
      ensures 1 <= trace[i].worker <= openNum && Asyncs(trace[..i]) < Asyncs(trace[..j])
      ensures trace[i].worker == trace[j].worker <==> (Asyncs(trace[..j]) - Asyncs(trace[..i])) % openNum == 0
    {
      TurningIs();
      hide *;
      WorkersDiffer(openNum, trace, i, j);
    }

    lemma TurningIs()
      requires Valid()
      ensures openNum > 0 && which == Asyncs(trace) % openNum && InTurn(openNum, trace)
    {
      hide Core, Linked, Disciplined;
    }

    // Whatever the manager has done, the device sees its commands in order in
    // every interleaving with the workers.
    lemma SafeWithWorkers(events: seq<Event>)
      requires Valid() && events != [] && Schedule(trace, Init(Dims()), events)
      ensures DeviceOk(Dims(), trace, Exec(trace, Init(Dims()), events[..|events| - 1]), events[|events| - 1])
    {
      EveryInterleavingSafe(Dims(), trace, events);
    }
  }
}
