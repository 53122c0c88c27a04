// What the collector does to one full zone: it finds the live tables, moves
// them one by one into empty zones, and resets the zone.
module Relocation {
  import opened Arithmetic
  import opened Counting
  import opened Protocol
  import opened ZoneState

  // The queued writes among the commands.
  function Asyncs(trace: seq<Cmd>): nat {
    if trace == [] then 0 else Asyncs(trace[..|trace| - 1]) + if trace[|trace| - 1].Async? then 1 else 0
  }

  // They go to n workers in turn, the first to worker 2.
  ghost predicate InTurn(n: nat, trace: seq<Cmd>)
    requires n > 0
  {
    forall i :: 0 <= i < |trace| ==> AtTurn(n, trace[..i], trace[i])
  }

  ghost predicate AtTurn(n: nat, before: seq<Cmd>, c: Cmd)
    requires n > 0
  {
    c.Async? ==> c.worker == (Asyncs(before) + 1) % n + 1
  }

  // The open position whose turn it is.
  ghost predicate Turning(st: State, trace: seq<Cmd>) {
    st.open != [] && st.which == Asyncs(trace) % |st.open| && InTurn(|st.open|, trace)
  }

  lemma AsyncsNext(trace: seq<Cmd>, c: Cmd)
    ensures Asyncs(trace + [c]) == Asyncs(trace) + if c.Async? then 1 else 0
  {
    assert (trace + [c])[..|trace + [c]| - 1] == trace;
  }

  lemma InTurnNext(n: nat, trace: seq<Cmd>, c: Cmd)
    requires n > 0 && InTurn(n, trace) && AtTurn(n, trace, c)
    ensures InTurn(n, trace + [c])
  {
    hide AtTurn;
    var r := trace + [c];
    forall i | 0 <= i < |r| ensures AtTurn(n, r[..i], r[i]) {
      assert r[..i] == trace[..i];
      assert trace[..|trace|] == trace;
    }
  }

  lemma {:induction false} AsyncsBetween(trace: seq<Cmd>, i: nat, j: nat)
    requires i < j <= |trace|
    ensures Asyncs(trace[..i]) + (if trace[i].Async? then 1 else 0) <= Asyncs(trace[..j])
    decreases j
  {
    assert trace[..j][..j - 1] == trace[..j - 1];
    if i < j - 1 { AsyncsBetween(trace, i, j - 1); }
  }

  // Any n queued writes in a row go to n different workers, and the next n to
  // the same ones again.
  lemma WorkersDiffer(n: nat, trace: seq<Cmd>, i: nat, j: nat)
    requires n > 0 && InTurn(n, trace) && i < j < |trace| && trace[i].Async? && trace[j].Async?
    ensures 1 <= trace[i].worker <= n && Asyncs(trace[..i]) < Asyncs(trace[..j])
    ensures trace[i].worker == trace[j].worker <==> (Asyncs(trace[..j]) - Asyncs(trace[..i])) % n == 0
  {
    AsyncsBetween(trace, i, j);
    assert AtTurn(n, trace[..i], trace[i]) && AtTurn(n, trace[..j], trace[j]);
    SameRemainder(Asyncs(trace[..i]) + 1, Asyncs(trace[..j]) + 1, n);
  }

  lemma SameRemainder(a: nat, b: nat, n: nat)
    requires a <= b && n > 0
    ensures a % n == b % n <==> (b - a) % n == 0
  {
    QuotientRemainder(a, n);
    QuotientRemainder(b, n);
    QuotientRemainder(b - a, n);
    var q := (b - a) / n;
    if a % n == b % n {
      assert (b / n - a / n) * n == b / n * n - a / n * n;
      DivAtLeast(b, a / n, n);
      DivMulBack(b / n - a / n, n);
    }
    if (b - a) % n == 0 {
      assert (a / n + q) * n == a / n * n + q * n;
      DivUnique(b, n, a / n + q, a % n);
    }
  }

  // The commands issued so far are disciplined and match the state.
  ghost predicate Traced(k: nat, st: State, d: Size, trace: seq<Cmd>) {
    Sized(k, st, d) && Disciplined(d, trace) && Linked(st, Final(d, trace)) && Turning(st, trace)
  }

  lemma Extend(d: Size, trace: seq<Cmd>, c: Cmd, n: nat)
    requires Disciplined(d, trace) && Allowed(d, Final(d, trace), c)
    requires n > 0 && InTurn(n, trace) && AtTurn(n, trace, c)
    ensures Disciplined(d, trace + [c]) && Final(d, trace + [c]) == After(Final(d, trace), c)
    ensures InTurn(n, trace + [c]) && Asyncs(trace + [c]) == Asyncs(trace) + if c.Async? then 1 else 0
  {
    assert (trace + [c])[..|trace + [c]| - 1] == trace;
    AsyncsNext(trace, c);
    InTurnNext(n, trace, c);
  }

  // What holds between the manager's operations.
  ghost predicate Sound(k: nat, st: State, d: Size, trace: seq<Cmd>) {
    Core(k, st, {}, {}) && Traced(k, st, d, trace)
  }

  // Zones nothing was written to.
  function NewZones(n: nat): (r: seq<ZoneMeta>)
    ensures |r| == n && forall z :: 0 <= z < n ==> r[z] == ZoneMeta(0, 0, [])
  {
    seq(n, _ => ZoneMeta(0, 0, []))
  }

  lemma InitSound(k: nat, n: nat, open: seq<nat>, empties: set<nat>, d: Size)
    requires k > 0 && d == Size(k, n, |open| + 1) && Distinct(open) && open != []
    requires forall z: nat :: z < n <==> z in open || z in empties
    requires forall z :: z in open ==> z !in empties
    ensures Sound(k, State(map[], map[], {}, NewZones(n), open, 0, empties, {}), d, [])
  {
    var st := State(map[], map[], {}, NewZones(n), open, 0, empties, {});
    assert forall j :: 0 <= j < |open| ==> open[j] in open;
    assert Final(d, []) == Start(d);
  }

  function FetchCmds(st: State, id: Id): seq<Cmd>
    requires id in st.mapping
  {
    (if id in st.pending then [Wait(st.mapping[id])] else []) + [Read(st.mapping[id])]
  }

  // Reading tables one after the other.
  function WaitedAll(st: State, ids: seq<Id>): State { st.(pending := st.pending - set id | id in ids) }

  function FetchAll(st: State, ids: seq<Id>): seq<Cmd>
    requires forall id :: id in ids ==> id in st.mapping
  {
    if ids == [] then []
    else
      var rest, id := ids[..|ids| - 1], ids[|ids| - 1];
      FetchAll(st, rest) + FetchCmds(WaitedAll(st, rest), id)
  }

  lemma FetchAllNext(st: State, ids: seq<Id>, id: Id)
    requires (forall x :: x in ids ==> x in st.mapping) && id in st.mapping
    ensures FetchAll(st, ids + [id]) == FetchAll(st, ids) + FetchCmds(WaitedAll(st, ids), id)
    ensures WaitedAll(st, ids + [id]) == Waited(WaitedAll(st, ids), id)
  {
    assert (ids + [id])[..|ids|] == ids;
  }

  lemma NothingFetched(st: State)
    ensures FetchAll(st, []) == [] && WaitedAll(st, []) == st
  {}

  // The tables in these slots of a zone.
  function TablesIn(r: map<Slot, Id>, z: nat, live: seq<nat>): (ids: seq<Id>)
    requires forall i :: i in live ==> Slot(z, i) in r
    ensures |ids| == |live| && forall i :: 0 <= i < |live| ==> ids[i] == r[Slot(z, live[i])]
  {
    seq(|live|, i requires 0 <= i < |live| => r[Slot(z, live[i])])
  }

  lemma TablesInNext(r: map<Slot, Id>, z: nat, live: seq<nat>, i: nat)
    requires (forall j :: j in live ==> Slot(z, j) in r) && Slot(z, i) in r
    ensures TablesIn(r, z, live + [i]) == TablesIn(r, z, live) + [r[Slot(z, i)]]
  {}

  // Reading a table: its write is waited for first.
  lemma FetchSound(k: nat, st: State, d: Size, trace: seq<Cmd>, id: Id)
    requires Sound(k, st, d, trace) && id in st.mapping
    ensures Sound(k, Waited(st, id), d, trace + FetchCmds(st, id))
  {
    hide Core, Linked, Disciplined, Allowed;
    var st', trace' := Waited(st, id), trace;
    WaitKeeps(k, st, id, {}, {});
    if id in st.pending {
      WaitIssues(k, st, id, {}, {}, d, Final(d, trace));
      Extend(d, trace, Wait(st.mapping[id]), |st.open|);
      trace' := trace + [Wait(st.mapping[id])];
    } else {
      assert st' == st;
    }
    assert trace + FetchCmds(st, id) == trace' + [Read(st.mapping[id])];
    ReadIssues(k, st', id, {}, {}, d, Final(d, trace'));
    Extend(d, trace', Read(st.mapping[id]), |st.open|);
  }

  // Writing a table: one write is queued.
  lemma AllocSound(k: nat, st: State, d: Size, trace: seq<Cmd>, id: Id, next: nat)
    requires Sound(k, st, d, trace) && id !in st.mapping && next in st.empties
    ensures st.which < |st.open| && st.open[st.which] < |st.zones|
    ensures Sound(k, Alloc(k, st, id, next), d, trace + [Async(WorkerOf(|st.open|, st.which), AllocSlot(st))])
    ensures AllocSlot(st).index < k
  {
    hide Linked, Disciplined, Metas, Live, Inverse;
    AllocKeeps(k, st, id, next);
    AllocIssues(k, st, id, next, d, Final(d, trace));
    ModNext(Asyncs(trace), |st.open|);
    Extend(d, trace, Async(WorkerOf(|st.open|, st.which), AllocSlot(st)), |st.open|);
  }

  lemma RemoveSound(k: nat, st: State, d: Size, trace: seq<Cmd>, id: Id)
    requires Sound(k, st, d, trace) && id in st.mapping && id !in st.pending
    ensures st.mapping[id].zone < |st.zones| && st.zones[st.mapping[id].zone].valid > 0
    ensures st.mapping[id].index < st.zones[st.mapping[id].zone].write
    ensures Sound(k, Remove(st, id), d, trace)
  {
    RemoveKeeps(k, st, id);
    RemoveLinked(k, st, id, Final(d, trace));
    assert LiveSlot(st, {}, st.mapping[id]);
  }

  ghost predicate Removed(a: State, b: State, id: Id) {
    && id in a.mapping && a.mapping[id].zone < |a.zones| && a.zones[a.mapping[id].zone].valid > 0
    && b == Remove(a, id)
  }

  lemma RemovedIs(a: State, b: State, id: Id)
    requires id in a.mapping && a.mapping[id].zone < |a.zones| && a.zones[a.mapping[id].zone].valid > 0
    ensures var s := a.mapping[id];
            var m := a.zones[s.zone];
            Remove(a, id) == State(a.mapping - {id}, a.remapping - {s}, a.pending,
                                   a.zones[s.zone := ZoneMeta(m.write, m.valid - 1, m.deleted + [s.index])],
                                   a.open, a.which, a.empties, a.full)
    ensures b == Remove(a, id) ==> Removed(a, b, id)
  {}

  // From a to b tables were deleted, and each full zone that lost one is marked.
  ghost predicate Marked(a: State, b: State, marked: set<nat>) {
    && b.full == a.full && (forall id :: id in b.mapping ==> id in a.mapping && b.mapping[id] == a.mapping[id])
    && forall id :: id in a.mapping && id !in b.mapping && a.mapping[id].zone in a.full ==> a.mapping[id].zone in marked
  }

  lemma MarkedNone(a: State, marked: set<nat>)
    ensures Marked(a, a, marked)
  {}

  lemma MarkedNext(a: State, b: State, marked: set<nat>, c: State, id: Id)
    requires Marked(a, b, marked) && Removed(b, c, id)
    ensures Marked(a, c, if b.mapping[id].zone in b.full then marked + {b.mapping[id].zone} else marked)
  {}

  lemma MarkedTwice(a: State, b: State, c: State, marked: set<nat>, more: set<nat>)
    requires Marked(a, b, marked) && Marked(b, c, more) && marked <= more
    ensures Marked(a, c, more)
  {}

  lemma RemoveRoom(k: nat, st: State, id: Id)
    requires id in st.mapping && st.mapping[id].zone < |st.zones| && st.zones[st.mapping[id].zone].valid > 0
    ensures FreeSlots(k, Remove(st, id)) == FreeSlots(k, st)
  {
    FreeSame(k, st.zones, Remove(st, id).zones, st.empties, st.empties, |st.zones|);
  }

  ghost predicate Placed(k: nat, a: State, b: State, id: Id, next: nat) {
    && a.which < |a.open| && a.open[a.which] < |a.zones| && next in a.empties
    && b == Alloc(k, a, id, next)
  }

  lemma AllocIs(k: nat, st: State, id: Id, next: nat)
    requires st.which < |st.open| && st.open[st.which] < |st.zones|
    ensures var z := st.open[st.which];
            var m := st.zones[z];
            && AllocSlot(st) == Slot(z, m.write)
            && WorkerOf(|st.open|, st.which) == NextPosition(|st.open|, st.which) + 1
            && Alloc(k, st, id, next) ==
                 State(st.mapping[id := Slot(z, m.write)], st.remapping[Slot(z, m.write) := id], st.pending + {id},
                       st.zones[z := ZoneMeta(m.write + 1, m.valid + 1, m.deleted)],
                       if m.write + 1 >= k then st.open[st.which := next] else st.open,
                       NextPosition(|st.open|, st.which),
                       if m.write + 1 >= k then st.empties - {next} else st.empties,
                       if m.write + 1 >= k then st.full + {z} else st.full)
  {
    hide NextPosition;
  }

  lemma PlacedIs(k: nat, a: State, b: State, id: Id, next: nat)
    requires a.which < |a.open| && a.open[a.which] < |a.zones| && next in a.empties && b == Alloc(k, a, id, next)
    ensures Placed(k, a, b, id, next)
  {}

  lemma PlacedFacts(k: nat, a: State, b: State, id: Id, next: nat)
    requires Placed(k, a, b, id, next)
    ensures b.mapping.Keys == a.mapping.Keys + {id} && b.mapping[id] == AllocSlot(a)
    ensures b.pending == a.pending + {id} && |b.open| == |a.open|
    ensures var z := a.open[a.which];
            z < |b.zones| && b.mapping[id].zone == z && b.mapping[id].index + 1 == b.zones[z].write
    ensures b.which == NextPosition(|a.open|, a.which)
  {
    hide NextPosition;
  }

  // The order of the deleted slots does not matter.
  function Resorted(st: State, z: nat, deleted: seq<nat>): State
    requires z < |st.zones|
  {
    st.(zones := st.zones[z := st.zones[z].(deleted := deleted)])
  }

  ghost predicate Permuted(st: State, z: nat, deleted: seq<nat>) {
    && z < |st.zones| && Distinct(deleted) && |deleted| == |st.zones[z].deleted|
    && forall i :: i in deleted <==> i in st.zones[z].deleted
  }

  lemma ResortedKeeps(k: nat, st: State, z: nat, deleted: seq<nat>)
    requires Core(k, st, {}, {}) && Permuted(st, z, deleted)
    ensures Core(k, Resorted(st, z, deleted), {}, {})
  {
    var st' := Resorted(st, z, deleted);
    assert Partition(st', {});
    assert Metas(k, st', {}) by { assert MetaOk(k, st.zones[z]); }
    assert Live(st', {}) by {
      forall s ensures LiveSlot(st', {}, s) == LiveSlot(st, {}, s) {}
    }
  }

  lemma ResortedSound(k: nat, st: State, d: Size, trace: seq<Cmd>, z: nat, deleted: seq<nat>)
    requires Sound(k, st, d, trace) && Permuted(st, z, deleted)
    ensures var st' := Resorted(st, z, deleted);
            Sound(k, st', d, trace) && FreeSlots(k, st') == FreeSlots(k, st) && DeletedSlots(st') == DeletedSlots(st)
  {
    hide Core;
    var st' := Resorted(st, z, deleted);
    ResortedKeeps(k, st, z, deleted);
    FreeSame(k, st.zones, st'.zones, st.empties, st.empties, |st.zones|);
    DeletedChange(st.zones, st'.zones, z, |st.zones|);
  }

  lemma SoundZone(k: nat, st: State, d: Size, trace: seq<Cmd>, z: nat)
    requires Sound(k, st, d, trace) && z < |st.zones|
    ensures MetaOk(k, st.zones[z]) && (z in st.full <==> st.zones[z].write == k)
  {}

  lemma OpenZones(k: nat, st: State, d: Size, trace: seq<Cmd>)
    requires Sound(k, st, d, trace)
    ensures st.which < |st.open| && st.open[st.which] < |st.zones|
  {}

  lemma FullZones(k: nat, st: State, d: Size, trace: seq<Cmd>)
    requires Sound(k, st, d, trace)
    ensures forall z :: z in st.full ==> z < |st.zones| && st.zones[z].valid <= k
  {
    assert forall z :: z in st.full ==> MetaOk(k, st.zones[z]);
  }

  // The live slots of a full zone, in order.
  ghost predicate LiveIn(k: nat, m: ZoneMeta, live: seq<nat>) {
    && (forall a, b :: 0 <= a < b < |live| ==> live[a] < live[b])
    && (forall i: nat :: i in live <==> i < k && i !in m.deleted)
  }

  lemma WrittenIsLive(k: nat, st: State, d: Size, trace: seq<Cmd>, s: Slot)
    requires Sound(k, st, d, trace) && s.zone < |st.zones|
    requires s.zone in st.full && s.index < k && s.index !in st.zones[s.zone].deleted
    ensures s in st.remapping && st.remapping[s] in st.mapping
  {
    assert LiveSlot(st, {}, s);
  }

  // They are as many as the zone counts.
  lemma LiveCount(k: nat, m: ZoneMeta, live: seq<nat>)
    requires MetaOk(k, m) && m.write == k && LiveIn(k, m, live)
    ensures |live| == m.valid
  {
    SplitCount(live, m.deleted, k);
  }

  function Moved(z: nat, live: seq<nat>, i: nat): (r: set<Slot>)
    requires i <= |live|
    ensures forall s :: s in r <==> s.zone == z && s.index in live[..i]
  {
    set n | n in live[..i] :: Slot(z, n)
  }

  lemma MovedNext(z: nat, live: seq<nat>, i: nat)
    requires i < |live|
    ensures Moved(z, live, i + 1) == Moved(z, live, i) + {Slot(z, live[i])}
  {
    assert live[..i + 1] == live[..i] + [live[i]];
  }

  // The tables still to move.
  ghost predicate Waiting(a: State, b: State, z: nat, live: seq<nat>, i: nat) {
    forall j :: i <= j < |live| ==>
      var s := Slot(z, live[j]);
      s in a.remapping && s in b.remapping && b.remapping[s] == a.remapping[s] && a.remapping[s] !in a.pending
  }

  // From a to b, the first i live tables of zone z have moved.
  ghost predicate Moving(a: State, b: State, z: nat, live: seq<nat>, i: nat) {
    && b.mapping.Keys == a.mapping.Keys && b.pending == a.pending
    && b.open == a.open && b.which == a.which && |b.zones| == |a.zones|
    && z in a.full && a.full <= b.full && i <= |live|
    && (forall y :: 0 <= y < |a.zones| && y in a.full ==> b.zones[y] == a.zones[y])
    && (forall y :: 0 <= y < |a.zones| ==> b.zones[y].deleted == a.zones[y].deleted)
    && (forall id :: id in a.mapping && a.mapping[id].zone != z ==> b.mapping[id] == a.mapping[id])
    && Waiting(a, b, z, live, i)
  }

  lemma MoveCore(k: nat, b: State, z: nat, live: seq<nat>, i: nat, to: nat)
    requires i < |live| && Core(k, b, {to}, Moved(z, live, i)) && to < |b.zones| && b.zones[to].write < k
    requires z != to && Slot(z, live[i]) in b.remapping
    ensures Core(k, Move(b, Slot(z, live[i]), to), {to}, Moved(z, live, i + 1))
  {
    hide Core;
    MoveKeeps(k, b, Slot(z, live[i]), to, Moved(z, live, i));
    MovedNext(z, live, i);
  }

  lemma MoveStep(a: State, b: State, z: nat, live: seq<nat>, i: nat, to: nat)
    requires forall p, q :: 0 <= p < q < |live| ==> live[p] < live[q]
    requires i < |live| && Moving(a, b, z, live, i)
    requires Inverse(a) && Inverse(b) && to < |b.zones| && to !in b.full
    ensures Slot(z, live[i]) in b.remapping
    ensures Moving(a, Move(b, Slot(z, live[i]), to), z, live, i + 1)
  {
    var from := Slot(z, live[i]);
    assert from in b.remapping && a.mapping[b.remapping[from]] == from;
    var c := Move(b, from, to);
    forall j | i + 1 <= j < |live|
      ensures Slot(z, live[j]) in c.remapping && c.remapping[Slot(z, live[j])] == b.remapping[Slot(z, live[j])]
    {
      assert live[i] < live[j];
    }
    assert c.mapping.Keys == b.mapping.Keys;
  }

  // Once all have moved, nothing live is left.
  lemma AllMoved(k: nat, a: State, b: State, z: nat, live: seq<nat>)
    requires Core(k, b, {}, Moved(z, live, |live|)) && Moving(a, b, z, live, |live|)
    requires z < |a.zones| && a.zones[z].write == k && LiveIn(k, a.zones[z], live)
    ensures Vacated(b, z)
  {
    assert live[..|live|] == live;
    forall s | s in b.remapping ensures s.zone != z {
      assert LiveSlot(b, Moved(z, live, |live|), s);
    }
  }

  // ---------- What a completed reset does ----------

  ghost predicate Collected(k: nat, a: State, b: State, z: nat) {
    && |b.zones| == |a.zones| && z < |a.zones|
    && b.mapping.Keys == a.mapping.Keys && b.pending <= a.pending
    && b.open == a.open && b.which == a.which
    && (forall id :: id in a.mapping && a.mapping[id].zone != z ==> b.mapping[id] == a.mapping[id])
    && (forall id :: id in b.mapping ==> b.mapping[id].zone != z)
    && b.zones[z] == ZoneMeta(0, 0, []) && z in b.empties
    && a.full - {z} <= b.full
    && (forall y :: 0 <= y < |a.zones| && y in a.full && y != z ==> b.zones[y] == a.zones[y])
    && (forall y :: 0 <= y < |a.zones| && y != z ==> b.zones[y].deleted == a.zones[y].deleted)
  }

  // From a to b the zones `seen` were gone over and `todo` are still to come.
  ghost predicate Swept(k: nat, a: State, b: State, seen: set<nat>, todo: set<nat>) {
    && |b.zones| == |a.zones| && b.open == a.open && b.which == a.which
    && b.mapping.Keys == a.mapping.Keys && b.pending <= a.pending
    && (forall y :: y in todo ==> y in b.full && y < |a.zones| && b.zones[y] == a.zones[y])
    && (forall y :: 0 <= y < |a.zones| ==>
          b.zones[y].deleted == if y in seen && a.zones[y].valid * 5 < k then [] else a.zones[y].deleted)
  }

  // A full zone with the fewest live tables was collected.
  ghost predicate Victim(k: nat, a: State, b: State, z: nat) {
    && z in a.full && Collected(k, a, b, z)
    && forall y :: y in a.full ==> y < |a.zones| && a.zones[z].valid <= a.zones[y].valid
  }

  // One eviction: the marked zones are gone over, or a victim is collected.
  ghost predicate Evicted(k: nat, a: State, marked: set<nat>, b: State) {
    if marked != {} then Swept(k, a, b, marked, {}) else exists z :: Victim(k, a, b, z)
  }

  // A state, and the zones marked for reset.
  datatype Moment = Moment(st: State, marked: set<nat>)

  // Evictions one after the other, each while less than a twentieth of n zones
  // is empty.
  ghost predicate Evictions(k: nat, n: nat, log: seq<Moment>) {
    log != [] && forall i :: 0 <= i < |log| - 1 ==> NeededEviction(k, n, log[i], log[i + 1])
  }

  ghost predicate NeededEviction(k: nat, n: nat, a: Moment, b: Moment) {
    |a.st.empties| * 20 < n && Evicted(k, a.st, a.marked, b.st) && b.marked == {}
  }

  lemma EvictionsNext(k: nat, n: nat, log: seq<Moment>, b: Moment)
    requires Evictions(k, n, log) && NeededEviction(k, n, log[|log| - 1], b)
    ensures Evictions(k, n, log + [b]) && Evictions(k, n, [b])
  {
    hide NeededEviction;
  }

  lemma NoEviction(k: nat, n: nat, a: Moment)
    ensures Evictions(k, n, [a])
  {}

  lemma SweptStart(k: nat, a: State, todo: set<nat>)
    requires todo <= a.full && forall y :: y in a.full ==> y < |a.zones|
    ensures Swept(k, a, a, {}, todo)
  {}

  lemma SweptKeys(k: nat, a: State, b: State, seen: set<nat>, todo: set<nat>)
    requires Swept(k, a, b, seen, todo)
    ensures b.mapping.Keys == a.mapping.Keys
  {}

  lemma SweptNext(k: nat, a: State, b: State, seen: set<nat>, todo: set<nat>, z: nat)
    requires Swept(k, a, b, seen, todo) && z in todo
    ensures z < |b.zones| && z in b.full
  {}

  lemma SweptReset(k: nat, a: State, b: State, c: State, seen: set<nat>, todo: set<nat>, z: nat)
    requires Swept(k, a, b, seen, todo) && z in todo && z < |b.zones| && b.zones[z].valid * 5 < k
    requires Collected(k, b, c, z)
    ensures Swept(k, a, c, seen + {z}, todo - {z})
  {}

  lemma SweptKept(k: nat, a: State, b: State, seen: set<nat>, todo: set<nat>, z: nat)
    requires Swept(k, a, b, seen, todo) && z in todo && z < |b.zones| && b.zones[z].valid * 5 >= k
    ensures Swept(k, a, b, seen + {z}, todo - {z})
  {}

  // The room gained is exactly the deleted slots of the zone.
  lemma RoomGained(k: nat, a: State, b: State, z: nat, live: nat)
    requires Core(k, a, {}, {}) && z in a.full && z < |a.zones| && a.zones[z].valid == live
    requires FreeSlots(k, b) + live == FreeSlots(k, a) && |b.zones| == |a.zones|
    requires z !in b.empties
    requires forall y :: 0 <= y < |a.zones| && y != z ==> b.zones[y].deleted == a.zones[y].deleted
    ensures FreeSlots(k, Clear(b, z)) == FreeSlots(k, a) + |a.zones[z].deleted|
    ensures DeletedSlots(Clear(b, z)) + |a.zones[z].deleted| == DeletedSlots(a)
  {
    var c := Clear(b, z);
    FreeChange(k, b, c, z, |b.zones|);
    DeletedChange(a.zones, c.zones, z, |a.zones|);
    assert MetaOk(k, a.zones[z]);
  }

  lemma HoldRoom(k: nat, st: State, z: nat)
    requires z in st.empties && z < |st.zones|
    ensures FreeSlots(k, Hold(st, z)) + Room(k, st, z) == FreeSlots(k, st)
  {
    FreeChange(k, st, Hold(st, z), z, |st.zones|);
  }

  lemma ReleaseRoom(k: nat, st: State, z: nat)
    requires z < |st.zones| && z !in st.empties && st.zones[z].write <= k
    ensures FreeSlots(k, Release(k, st, z)) == FreeSlots(k, st) + (k - st.zones[z].write)
  {
    FreeChange(k, st, Release(k, st, z), z, |st.zones|);
  }

  lemma MoveRoom(k: nat, st: State, from: Slot, to: nat)
    requires from in st.remapping && to < |st.zones| && to !in st.empties
    ensures FreeSlots(k, Move(st, from, to)) == FreeSlots(k, st)
  {
    FreeSame(k, st.zones, Move(st, from, to).zones, st.empties, st.empties, |st.zones|);
  }

  lemma SameRoom(k: nat, a: State, b: State)
    requires b.zones == a.zones && b.empties == a.empties
    ensures FreeSlots(k, b) == FreeSlots(k, a) && DeletedSlots(b) == DeletedSlots(a)
  {}

  lemma HoldIs(st: State, z: nat)
    ensures Hold(st, z) == st.(empties := st.empties - {z})
  {}

  lemma ReleaseIs(k: nat, st: State, z: nat)
    requires z < |st.zones|
    ensures Release(k, st, z)
            == if st.zones[z].write >= k then st.(full := st.full + {z}) else st.(empties := st.empties + {z})
  {}

  lemma NoRoom(k: nat, st: State)
    requires st.empties == {}
    ensures FreeSlots(k, st) == 0
  {
    FreeNone(k, st.zones, |st.zones|);
  }

  // ---------- The relocation loop ----------

  // State b is reached from a with the first i tables moved; `held` is the
  // zone being filled.
  ghost predicate Midway(k: nat, a: State, b: State, z: nat, live: seq<nat>, i: nat, held: set<nat>, d: Size,
                         trace: seq<Cmd>) {
    && (forall p, q :: 0 <= p < q < |live| ==> live[p] < live[q])
    && Inverse(a) && Moving(a, b, z, live, i)
    && Core(k, b, held, Moved(z, live, i)) && Traced(k, b, d, trace)
  }

  lemma MidwayStart(k: nat, a: State, z: nat, live: seq<nat>, d: Size, trace: seq<Cmd>)
    requires Sound(k, a, d, trace) && z in a.full && z < |a.zones| && LiveIn(k, a.zones[z], live)
    requires forall i :: i in live ==> Slot(z, i) in a.remapping && a.remapping[Slot(z, i)] !in a.pending
    ensures Midway(k, a, a, z, live, 0, {}, d, trace)
  {
    assert Moved(z, live, 0) == {};
    assert forall j :: 0 <= j < |live| ==> live[j] in live;
  }

  lemma MidwayTake(k: nat, a: State, b: State, z: nat, live: seq<nat>, i: nat, d: Size, trace: seq<Cmd>, to: nat)
    requires Midway(k, a, b, z, live, i, {}, d, trace) && to in b.empties
    ensures to < |b.zones| && b.zones[to].write < k
    ensures Midway(k, a, Hold(b, to), z, live, i, {to}, d, trace)
    ensures FreeSlots(k, Hold(b, to)) + (k - b.zones[to].write) == FreeSlots(k, b)
  {
    assert MetaOk(k, b.zones[to]);
    HoldKeeps(k, b, to, Moved(z, live, i), Final(d, trace));
    HoldRoom(k, b, to);
  }

  lemma MidwayStep(k: nat, a: State, b: State, z: nat, live: seq<nat>, i: nat, d: Size, trace: seq<Cmd>, to: nat)
    requires Midway(k, a, b, z, live, i, {to}, d, trace) && i < |live|
    requires to < |b.zones| && b.zones[to].write < k
    ensures Slot(z, live[i]) in b.remapping
    ensures var c := Move(b, Slot(z, live[i]), to);
            && Midway(k, a, c, z, live, i + 1, {to}, d, trace + [Sync(Slot(to, b.zones[to].write))])
            && c.mapping.Keys == b.mapping.Keys && FreeSlots(k, c) == FreeSlots(k, b)
  {
    hide Linked, Disciplined, Allowed, Metas, Live;
    var from := Slot(z, live[i]);
    MoveStep(a, b, z, live, i, to);
    MoveCore(k, b, z, live, i, to);
    MoveRoom(k, b, from, to);
    MoveIssues(k, b, from, to, Moved(z, live, i), d, Final(d, trace));
    Extend(d, trace, Sync(Slot(to, b.zones[to].write)), |b.open|);
  }

  lemma ClearIs(st: State, z: nat)
    requires z < |st.zones|
    ensures Clear(st, z)
            == State(st.mapping, st.remapping, st.pending, st.zones[z := ZoneMeta(0, 0, [])], st.open, st.which,
                     st.empties + {z}, st.full - {z})
  {}

  // ---------- Where the tables go ----------

  function Syncs(dests: seq<Slot>): (r: seq<Cmd>)
    ensures |r| == |dests| && forall i :: 0 <= i < |dests| ==> r[i] == Sync(dests[i])
  {
    seq(|dests|, i requires 0 <= i < |dests| => Sync(dests[i]))
  }

  lemma SyncsNext(dests: seq<Slot>, s: Slot)
    ensures Syncs([]) == [] && Syncs(dests + [s]) == Syncs(dests) + [Sync(s)]
  {}

  // From a to b the table in slot `from` went to `dest`.
  ghost predicate WentTo(a: State, b: State, from: Slot, dest: Slot) {
    from in a.remapping && a.remapping[from] in b.mapping && b.mapping[a.remapping[from]] == dest
  }

  // The first live tables went to these slots, in this order.
  ghost predicate Rewritten(a: State, b: State, z: nat, live: seq<nat>, dests: seq<Slot>) {
    |dests| <= |live| && forall j :: 0 <= j < |dests| ==> WentTo(a, b, Slot(z, live[j]), dests[j])
  }

  lemma RewrittenNone(a: State, b: State, z: nat, live: seq<nat>)
    ensures Rewritten(a, b, z, live, [])
  {}

  lemma RewrittenSame(a: State, b: State, c: State, z: nat, live: seq<nat>, dests: seq<Slot>)
    requires Rewritten(a, b, z, live, dests) && c.mapping == b.mapping
    ensures Rewritten(a, c, z, live, dests)
  {}

  lemma RewrittenNext(k: nat, a: State, b: State, z: nat, live: seq<nat>, dests: seq<Slot>, d: Size, trace: seq<Cmd>,
                      to: nat)
    requires Midway(k, a, b, z, live, |dests|, {to}, d, trace) && |dests| < |live| && to < |b.zones|
    requires Rewritten(a, b, z, live, dests)
    ensures Slot(z, live[|dests|]) in b.remapping
    ensures var s := Slot(to, b.zones[to].write);
            Rewritten(a, Move(b, Slot(z, live[|dests|]), to), z, live, dests + [s])
  {
    hide Core, Traced;
    var i := |dests|;
    var from, c := Slot(z, live[i]), Move(b, Slot(z, live[i]), to);
    assert a.mapping[a.remapping[from]] == from;
    forall j | 0 <= j < i ensures WentTo(a, c, Slot(z, live[j]), dests[j]) {
      assert WentTo(a, b, Slot(z, live[j]), dests[j]);
      assert live[j] < live[i] && a.mapping[a.remapping[Slot(z, live[j])]] == Slot(z, live[j]);
    }
  }

  // The slots fill one zone after the other, in order.
  ghost predicate RunsOf(k: nat, dests: seq<Slot>, zones: seq<nat>)
    decreases |dests|
  {
    if dests == [] then zones == []
    else
      var n, m := |dests| - 1, |zones| - 1;
      && zones != [] && dests[n].zone == zones[m]
      && if n > 0 && dests[n - 1].index + 1 < k
         then dests[n] == Slot(dests[n - 1].zone, dests[n - 1].index + 1) && RunsOf(k, dests[..n], zones)
         else RunsOf(k, dests[..n], zones[..m])
  }

  ghost predicate AtEnd(k: nat, dests: seq<Slot>) { dests == [] || dests[|dests| - 1].index + 1 >= k }

  lemma RunsNext(k: nat, dests: seq<Slot>, zones: seq<nat>, s: Slot)
    requires RunsOf(k, dests, zones)
    ensures AtEnd(k, dests) ==> RunsOf(k, dests + [s], zones + [s.zone])
    ensures !AtEnd(k, dests) && s == Slot(dests[|dests| - 1].zone, dests[|dests| - 1].index + 1) ==>
              RunsOf(k, dests + [s], zones)
  {
    assert (dests + [s])[..|dests|] == dests && (zones + [s.zone])[..|zones|] == zones;
  }

  // The zone `to` is being filled, behind the slots filled before.
  ghost predicate Filling(k: nat, a: State, b: State, z: nat, live: seq<nat>, was: seq<Slot>, dests: seq<Slot>,
                          zones: seq<nat>, to: nat) {
    && was <= dests && Rewritten(a, b, z, live, dests) && to < |b.zones|
    && if dests == was then RunsOf(k, was, zones) && AtEnd(k, was)
       else RunsOf(k, dests, zones + [to]) && Slot(to, b.zones[to].write) == NextSlot(dests[|dests| - 1])
  }

  // The slot after this one.
  function NextSlot(s: Slot): Slot { Slot(s.zone, s.index + 1) }

  lemma FillStart(k: nat, a: State, b: State, z: nat, live: seq<nat>, was: seq<Slot>, zones: seq<nat>, to: nat)
    requires Rewritten(a, b, z, live, was) && to < |b.zones| && RunsOf(k, was, zones) && AtEnd(k, was)
    ensures Filling(k, a, b, z, live, was, was, zones, to) && Syncs(was[|was|..]) == []
  {}

  lemma FillNext(k: nat, a: State, b: State, z: nat, live: seq<nat>, was: seq<Slot>, dests: seq<Slot>, zones: seq<nat>,
                 d: Size, trace: seq<Cmd>, to: nat)
    requires Midway(k, a, b, z, live, |dests|, {to}, d, trace) && |dests| < |live|
    requires Filling(k, a, b, z, live, was, dests, zones, to) && b.zones[to].write < k
    ensures Slot(z, live[|dests|]) in b.remapping
    ensures var s := Slot(to, b.zones[to].write);
            && Filling(k, a, Move(b, Slot(z, live[|dests|]), to), z, live, was, dests + [s], zones, to)
            && Syncs((dests + [s])[|was|..]) == Syncs(dests[|was|..]) + [Sync(s)]
  {
    hide *;
    FillingIs(k, a, b, z, live, was, dests, zones, to);
    var s := Slot(to, b.zones[to].write);
    RewrittenNext(k, a, b, z, live, dests, d, trace, to);
    var c := Move(b, Slot(z, live[|dests|]), to);
    MoveIs(b, Slot(z, live[|dests|]), to);
    FillingIs(k, a, c, z, live, was, dests + [s], zones, to);
    NextSlotIs(k, was, dests);
    RunsNext(k, dests, if dests == was then zones else zones + [to], s);
    assert (dests + [s])[|dests|] == s;
    assert (dests + [s])[|was|..] == dests[|was|..] + [s];
    SyncsNext(dests[|was|..], s);
    NextSlotIs(k, was, dests + [s]);
  }

  lemma NextSlotIs(k: nat, was: seq<Slot>, dests: seq<Slot>)
    ensures dests != [] ==>
              var s := dests[|dests| - 1];
              NextSlot(s) == Slot(s.zone, s.index + 1) && (AtEnd(k, dests) <==> s.index + 1 >= k)
  {}

  lemma FillingIs(k: nat, a: State, b: State, z: nat, live: seq<nat>, was: seq<Slot>, dests: seq<Slot>, zones: seq<nat>,
                  to: nat)
    ensures Filling(k, a, b, z, live, was, dests, zones, to) <==>
              && was <= dests && Rewritten(a, b, z, live, dests) && to < |b.zones|
              && if dests == was then RunsOf(k, was, zones) && AtEnd(k, was)
                 else RunsOf(k, dests, zones + [to]) && Slot(to, b.zones[to].write) == NextSlot(dests[|dests| - 1])
  {
    hide Rewritten, RunsOf, AtEnd, NextSlot;
  }

  lemma FillEnd(k: nat, a: State, b: State, z: nat, live: seq<nat>, was: seq<Slot>, dests: seq<Slot>, zones: seq<nat>,
                to: nat, c: State)
    requires Filling(k, a, b, z, live, was, dests, zones, to) && dests != was && c.mapping == b.mapping
    ensures was <= dests && to < |b.zones| && Rewritten(a, c, z, live, dests) && RunsOf(k, dests, zones + [to])
    ensures Slot(to, b.zones[to].write) == NextSlot(dests[|dests| - 1])
  {}

  lemma MoveIs(b: State, from: Slot, to: nat)
    requires from in b.remapping && to < |b.zones|
    ensures var m, id := b.zones[to], b.remapping[from];
            Move(b, from, to) == b.(mapping := b.mapping[id := Slot(to, m.write)],
                                    remapping := (b.remapping - {from})[Slot(to, m.write) := id],
                                    zones := b.zones[to := ZoneMeta(m.write + 1, m.valid + 1, m.deleted)])
  {}

  lemma NoRuns(k: nat)
    ensures RunsOf(k, [], []) && AtEnd(k, [])
  {}

  lemma FetchAllSame(a: State, b: State, ids: seq<Id>)
    requires b.mapping == a.mapping && b.pending == a.pending && forall id :: id in ids ==> id in a.mapping
    ensures FetchAll(b, ids) == FetchAll(a, ids)
  {
    if ids != [] { FetchAllSame(a, b, ids[..|ids| - 1]); }
  }

  lemma LiveSame(k: nat, m: ZoneMeta, n: ZoneMeta, live: seq<nat>)
    requires LiveIn(k, m, live) && forall i :: i in m.deleted <==> i in n.deleted
    ensures LiveIn(k, n, live)
  {}

  // The live tables of a zone were read in order and then written in that order
  // to these slots, which fill one zone after the other, and they are there now.
  ghost predicate CopiedAs(k: nat, a: State, b: State, z: nat, live: seq<nat>, dests: seq<Slot>, before: seq<Cmd>,
                           after: seq<Cmd>) {
    && |dests| == |live| && Rewritten(a, b, z, live, dests) && (exists zones :: RunsOf(k, dests, zones))
    && (forall i :: i in live ==> Slot(z, i) in a.remapping)
    && (forall id :: id in TablesIn(a.remapping, z, live) ==> id in a.mapping)
    && after == before + FetchAll(a, TablesIn(a.remapping, z, live)) + Syncs(dests)
  }

  lemma CopiedNone(k: nat, a: State, z: nat, trace: seq<Cmd>)
    ensures CopiedAs(k, a, a, z, [], [], trace, trace)
  {
    NoRuns(k);
  }

  lemma CopiedSame(k: nat, a: State, b: State, c: State, z: nat, live: seq<nat>, dests: seq<Slot>, before: seq<Cmd>,
                   after: seq<Cmd>)
    requires CopiedAs(k, a, b, z, live, dests, before, after) && c.mapping == b.mapping
    ensures CopiedAs(k, a, c, z, live, dests, before, after)
  {
    hide FetchAll, Syncs;
  }

  // From a with its deleted slots sorted, which is s, through the reads to r.
  lemma CopiedFrom(k: nat, a: State, s: State, r: State, b: State, z: nat, live: seq<nat>, dests: seq<Slot>,
                   zones: seq<nat>, before: seq<Cmd>, read: seq<Cmd>, after: seq<Cmd>)
    requires RunsOf(k, dests, zones)
    requires s.mapping == a.mapping && s.remapping == a.remapping && s.pending == a.pending
    requires (forall i :: i in live ==> Slot(z, i) in s.remapping)
             && forall id :: id in TablesIn(s.remapping, z, live) ==> id in s.mapping
    requires r.remapping == s.remapping && read == before + FetchAll(s, TablesIn(s.remapping, z, live))
    requires |dests| == |live| && Rewritten(r, b, z, live, dests) && after == read + Syncs(dests)
    ensures CopiedAs(k, a, b, z, live, dests, before, after)
  {
    FetchAllSame(a, s, TablesIn(a.remapping, z, live));
    hide FetchAll, Syncs;
    forall j | 0 <= j < |dests| ensures WentTo(a, b, Slot(z, live[j]), dests[j]) {
      assert WentTo(r, b, Slot(z, live[j]), dests[j]);
    }
  }

  lemma MidwayGive(k: nat, a: State, b: State, z: nat, live: seq<nat>, i: nat, d: Size, trace: seq<Cmd>, to: nat)
    requires Midway(k, a, b, z, live, i, {to}, d, trace) && to < |b.zones|
    ensures b.zones[to].write <= k && to !in b.empties
    ensures Midway(k, a, Release(k, b, to), z, live, i, {}, d, trace)
    ensures FreeSlots(k, Release(k, b, to)) == FreeSlots(k, b) + (k - b.zones[to].write)
  {
    assert MetaOk(k, b.zones[to]);
    ReleaseKeeps(k, b, to, Moved(z, live, i), Final(d, trace));
    ReleaseRoom(k, b, to);
  }

  lemma MidwayEnd(k: nat, a: State, b: State, z: nat, live: seq<nat>, d: Size, trace: seq<Cmd>)
    requires k > 0 && Midway(k, a, b, z, live, |live|, {}, d, trace)
    requires Core(k, a, {}, {}) && z in a.full && z < |a.zones| && LiveIn(k, a.zones[z], live)
    requires FreeSlots(k, b) + |live| == FreeSlots(k, a)
    ensures z < |b.zones| && z !in b.empties
    ensures var c := Clear(b, z);
            && Sound(k, c, d, trace + [Reset(z)]) && Collected(k, a, c, z)
            && FreeSlots(k, c) == FreeSlots(k, a) + |a.zones[z].deleted|
            && DeletedSlots(c) + |a.zones[z].deleted| == DeletedSlots(a)
  {
    hide Linked, Disciplined, Allowed, Live, Inverse;
    assert z < |b.zones| && z in b.full && z !in b.empties;
    AllMoved(k, a, b, z, live);
    LiveCount(k, a.zones[z], live);
    RoomGained(k, a, b, z, |live|);
    ClearKeeps(k, b, z, Moved(z, live, |live|));
    ClearIssues(k, b, z, Moved(z, live, |live|), d, Final(d, trace));
    Extend(d, trace, Reset(z), |b.open|);
    VacatedMapping(b, z);
  }

  lemma MidwayMaps(k: nat, a: State, b: State, z: nat, live: seq<nat>, i: nat, held: set<nat>, d: Size, trace: seq<Cmd>)
    requires Midway(k, a, b, z, live, i, held, d, trace)
    ensures Inverse(b) && b.mapping.Keys == a.mapping.Keys
  {
    hide Traced, Inverse;
  }

  // A zone with no live table: nothing to collect.
  lemma NoneLive(k: nat, m: ZoneMeta)
    requires MetaOk(k, m) && m.write == k && m.valid == 0
    ensures LiveIn(k, m, [])
  {
    forall i: nat | i < k ensures i in m.deleted {
      if i !in m.deleted { LiveIsCounted(k, m, i); }
    }
  }

  // State b differs from a in writes waited for and in the order of the
  // deleted slots of zone z.
  ghost predicate Prepared(k: nat, a: State, b: State, z: nat) {
    && z < |a.zones| && |b.zones| == |a.zones| && b.pending <= a.pending
    && b == a.(pending := b.pending, zones := a.zones[z := a.zones[z].(deleted := b.zones[z].deleted)])
    && |b.zones[z].deleted| == |a.zones[z].deleted|
    && FreeSlots(k, b) == FreeSlots(k, a) && DeletedSlots(b) == DeletedSlots(a)
  }

  lemma PreparedCollected(k: nat, a: State, b: State, c: State, z: nat)
    requires Prepared(k, a, b, z) && Collected(k, b, c, z)
    ensures Collected(k, a, c, z) && |b.zones[z].deleted| == |a.zones[z].deleted|
    ensures FreeSlots(k, b) == FreeSlots(k, a) && DeletedSlots(b) == DeletedSlots(a)
  {}

  lemma PreparedParts(k: nat, a: State, b: State, z: nat)
    requires Prepared(k, a, b, z)
    ensures z < |a.zones| == |b.zones| && b.full == a.full && b.zones[z].valid == a.zones[z].valid
    ensures |b.zones[z].deleted| == |a.zones[z].deleted|
  {
    hide FreeSlots, DeletedSlots;
  }

  lemma FullMeta(k: nat, m: ZoneMeta)
    requires MetaOk(k, m)
    ensures m.write <= k && m.valid <= m.write
  {}

  lemma VacatedMapping(b: State, z: nat)
    requires Inverse(b) && Vacated(b, z)
    ensures forall id :: id in b.mapping ==> b.mapping[id].zone != z
  {}

  // ---------- Counting zones ----------

  lemma ZoneCount(st: State)
    requires Partition(st, {})
    ensures |st.open| + |st.empties| + |st.full| == |st.zones|
  {
    DistinctCount(st.open);
    BelowCount(|st.zones|);
    assert Members(st.open) !! st.empties !! st.full;
    assert Below(|st.zones|) == Members(st.open) + st.empties + st.full;
  }

  // With few zones open and few empty, some zone is full.
  lemma FullCount(k: nat, st: State, d: Size, trace: seq<Cmd>)
    requires Sound(k, st, d, trace)
    ensures |st.full| == |st.zones| - |st.open| - |st.empties|
  {
    ZoneCount(st);
  }

  // Every empty zone has a free slot.
  lemma {:induction false} FreeAtLeastEmpties(k: nat, st: State, n: nat)
    requires Metas(k, st, {}) && st.empties !! st.full && n <= |st.zones|
    ensures Free(k, st.zones, st.empties, n) >= |st.empties * Below(n)|
  {
    if n > 0 {
      FreeAtLeastEmpties(k, st, n - 1);
      assert MetaOk(k, st.zones[n - 1]);
      BelowNext(st.empties, n - 1);
    } else {
      assert st.empties * Below(0) == {};
    }
  }

  lemma EmptyZonesAreRoom(k: nat, st: State, d: Size, trace: seq<Cmd>)
    requires Sound(k, st, d, trace)
    ensures FreeSlots(k, st) >= |st.empties|
  {
    hide Traced, Inverse, Live;
    FreeAtLeastEmpties(k, st, |st.zones|);
    assert st.empties * Below(|st.zones|) == st.empties;
  }

  // ---------- Counting tables ----------

  // Live tables counted zone by zone.
  function Valid(zones: seq<ZoneMeta>, n: nat): nat
    requires n <= |zones|
  {
    if n == 0 then 0 else Valid(zones, n - 1) + zones[n - 1].valid
  }

  function LiveBelow(st: State, n: nat): set<Slot> { set s | s in st.remapping && s.zone < n }

  function LiveOf(st: State, z: nat): set<Slot> { set s | s in st.remapping && s.zone == z }

  function Indices(k: nat, m: ZoneMeta): (r: set<nat>)
    ensures forall i: nat :: i in r <==> i < m.write && i !in m.deleted
  {
    Below(m.write) - Members(m.deleted)
  }

  lemma {:induction false} SlotCount(z: nat, a: set<nat>, b: set<Slot>)
    requires forall s :: s in b <==> s.zone == z && s.index in a
    ensures |b| == |a|
    decreases |a|
  {
    if a == {} {
      assert b == {};
    } else {
      var i :| i in a;
      SlotCount(z, a - {i}, b - {Slot(z, i)});
    }
  }

  lemma ZoneLive(k: nat, st: State, z: nat)
    requires Core(k, st, {}, {}) && z < |st.zones|
    ensures |LiveOf(st, z)| == st.zones[z].valid
  {
    var m := st.zones[z];
    assert MetaOk(k, m);
    forall s ensures s in LiveOf(st, z) <==> s.zone == z && s.index in Indices(k, m) {
      assert s in st.remapping <==> LiveSlot(st, {}, s);
    }
    SlotCount(z, Indices(k, m), LiveOf(st, z));
    BelowCount(m.write);
    DistinctCount(m.deleted);
    assert Below(m.write) == Indices(k, m) + Members(m.deleted);
  }

  lemma {:induction false} LiveTotal(k: nat, st: State, n: nat)
    requires Core(k, st, {}, {}) && n <= |st.zones|
    ensures |LiveBelow(st, n)| == Valid(st.zones, n)
  {
    if n > 0 {
      LiveTotal(k, st, n - 1);
      ZoneLive(k, st, n - 1);
      assert LiveBelow(st, n) == LiveBelow(st, n - 1) + LiveOf(st, n - 1);
    } else {
      assert LiveBelow(st, 0) == {};
    }
  }

  lemma {:induction false} InverseCount(m: map<Id, Slot>, r: map<Slot, Id>, slots: set<Slot>)
    requires slots <= r.Keys && (forall s :: s in slots ==> r[s] in m && m[r[s]] == s)
    ensures |slots| <= |m|
    decreases |slots|
  {
    if slots != {} {
      var s :| s in slots;
      InverseCount(m - {r[s]}, r, slots - {s});
      assert m.Keys == (m - {r[s]}).Keys + {r[s]};
    }
  }

  // The zones count the tables: their valid numbers add up to all of them.
  lemma TablesCounted(k: nat, st: State, d: Size, trace: seq<Cmd>)
    requires Sound(k, st, d, trace)
    ensures |st.mapping| == Valid(st.zones, |st.zones|)
  {
    hide Traced;
    LiveTotal(k, st, |st.zones|);
    forall s | s in st.remapping ensures s.zone < |st.zones| { assert LiveSlot(st, {}, s); }
    assert LiveBelow(st, |st.zones|) == st.remapping.Keys;
    InverseCount(st.mapping, st.remapping, st.remapping.Keys);
    IdCount(st.mapping, st.remapping, st.mapping.Keys);
  }

  lemma {:induction false} IdCount(m: map<Id, Slot>, r: map<Slot, Id>, ids: set<Id>)
    requires ids <= m.Keys && (forall id :: id in ids ==> m[id] in r && r[m[id]] == id)
    ensures |ids| <= |r.Keys|
    decreases |ids|
  {
    if ids != {} {
      var id :| id in ids;
      IdCount(m, r - {m[id]}, ids - {id});
      assert r.Keys == (r - {m[id]}).Keys + {m[id]};
    }
  }

  lemma BelowNext(full: set<nat>, n: nat)
    ensures |full * Below(n + 1)| == |full * Below(n)| + if n in full then 1 else 0
  {
    if n in full {
      assert full * Below(n + 1) == full * Below(n) + {n};
    } else {
      assert full * Below(n + 1) == full * Below(n);
    }
  }

  lemma TimesNext(c: nat, k: nat)
    ensures (c + 1) * k == c * k + k && 0 * k == 0
  {}

  lemma {:induction false} ValidAtLeast(k: nat, zones: seq<ZoneMeta>, full: set<nat>, n: nat)
    requires n <= |zones| && forall z :: z in full ==> z < |zones| && zones[z].valid == k
    ensures Valid(zones, n) >= |full * Below(n)| * k
  {
    if n > 0 {
      ValidAtLeast(k, zones, full, n - 1);
      BelowNext(full, n - 1);
      ValidNext(zones, n);
      hide *;
      TimesNext(|full * Below(n - 1)|, k);
    } else {
      assert full * Below(0) == {};
      TimesNext(0, k);
    }
  }

  lemma ValidNext(zones: seq<ZoneMeta>, n: nat)
    requires 0 < n <= |zones|
    ensures Valid(zones, n) == Valid(zones, n - 1) + zones[n - 1].valid
  {}

  // When every full zone holds nothing but live tables, there are that many.
  lemma FullOfTables(k: nat, st: State, d: Size, trace: seq<Cmd>)
    requires Sound(k, st, d, trace) && forall z :: z in st.full ==> z < |st.zones| && st.zones[z].valid == k
    ensures |st.mapping| >= |st.full| * k
  {
    TablesCounted(k, st, d, trace);
    ValidAtLeast(k, st.zones, st.full, |st.zones|);
    FullZones(k, st, d, trace);
    assert st.full * Below(|st.zones|) == st.full;
  }

  // ---------- Byte addresses ----------

  // The source keeps byte addresses: zone z starts at z * cap, with cap the
  // capacity of a zone, and its slot i at i * size further.
  function Address(k: nat, size: nat, s: Slot): nat {
    s.zone * (k * size) + s.index * size
  }

  // From an address below the end of its zone, the slot can be read back, so
  // distinct slots have distinct addresses.
  lemma AddressBack(k: nat, size: nat, s: Slot)
    requires size > 0 && s.index < k
    ensures k * size > 0
    ensures Address(k, size, s) / (k * size) == s.zone
    ensures Address(k, size, s) % (k * size) / size == s.index
  {
    MulMonotone(s.index, k, size);
    DivUnique(Address(k, size, s), k * size, s.zone, s.index * size);
    DivMulBack(s.index, size);
  }

  // The last byte of a zone stands for its end: a write pointer has reached it
  // exactly when all k slots are written.
  lemma EndReached(k: nat, size: nat, z: nat, i: nat)
    requires size >= 2 && i <= k
    ensures Address(k, size, Slot(z, i)) >= (z + 1) * (k * size) - 1 <==> i == k
  {
    MulMonotone(i, k, size);
    assert (z + 1) * (k * size) == z * (k * size) + k * size;
  }
}
