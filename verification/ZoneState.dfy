// The state of the zone manager, its invariant, and its elementary steps, each
// of which issues one command the protocol allows.
module ZoneState {
  import opened Counting
  import opened Protocol

  // A table of the store: its level and its number within the level.
  datatype Id = Id(level: nat, num: nat)

  // Slots of a zone written so far, live tables in it, and deleted slots.
  datatype ZoneMeta = ZoneMeta(write: nat, valid: nat, deleted: seq<nat>)

  datatype State = State(
    mapping: map<Id, Slot>, remapping: map<Slot, Id>, pending: set<Id>,
    zones: seq<ZoneMeta>, open: seq<nat>, which: nat,
    empties: set<nat>, full: set<nat>)

  function NextPosition(n: nat, j: nat): nat
    requires n > 0
  {
    (j + 1) % n
  }

  lemma RoundAndRound(n: nat, j: nat)
    requires j < n
    ensures NextPosition(n, j) == if j + 1 < n then j + 1 else 0
  {}

  // The worker that writes for an open position. The source advances the
  // position before it queues the write.
  function WorkerOf(n: nat, j: nat): nat
    requires n > 0
  {
    NextPosition(n, j) + 1
  }

  // ---------- The invariant ----------

  // Each zone is open, empty, full or in the collector's hands: exactly one.
  ghost predicate Partition(st: State, held: set<nat>) {
    && Distinct(st.open) && st.open != [] && st.which < |st.open|
    && (forall j :: 0 <= j < |st.open| ==> st.open[j] < |st.zones|)
    && st.empties !! st.full !! held
    && (forall z :: z in st.open ==> z < |st.zones| && z !in st.empties && z !in st.full && z !in held)
    && (forall z :: z in st.empties || z in st.full || z in held ==> z < |st.zones|)
    && (forall z: nat :: z < |st.zones| ==> z in st.open || z in st.empties || z in st.full || z in held)
  }

  ghost predicate MetaOk(k: nat, m: ZoneMeta) {
    && m.write <= k
    && m.valid + |m.deleted| == m.write
    && Distinct(m.deleted)
    && (forall i :: i in m.deleted ==> i < m.write)
  }

  // A zone is full exactly when all its slots are written.
  ghost predicate Metas(k: nat, st: State, held: set<nat>) {
    && (forall z :: 0 <= z < |st.zones| ==> MetaOk(k, st.zones[z]))
    && (forall z :: 0 <= z < |st.zones| && z !in held ==> (z in st.full <==> st.zones[z].write == k))
  }

  // The two maps are each other's inverse.
  ghost predicate Inverse(st: State) {
    && (forall id :: id in st.mapping ==> st.mapping[id] in st.remapping && st.remapping[st.mapping[id]] == id)
    && (forall s :: s in st.remapping ==> st.remapping[s] in st.mapping && st.mapping[st.remapping[s]] == s)
  }

  ghost predicate LiveSlot(st: State, moved: set<Slot>, s: Slot) {
    && s.zone < |st.zones| && s.index < st.zones[s.zone].write
    && s.index !in st.zones[s.zone].deleted && s !in moved
  }

  // The mapped slots are exactly those written, not deleted and not moved.
  ghost predicate Live(st: State, moved: set<Slot>) {
    forall s :: s in st.remapping <==> LiveSlot(st, moved, s)
  }

  ghost predicate Core(k: nat, st: State, held: set<nat>, moved: set<Slot>) {
    && Partition(st, held) && Metas(k, st, held) && Inverse(st) && Live(st, moved)
    && st.pending <= st.mapping.Keys
  }

  // What the protocol knows of the commands issued so far.
  ghost predicate Linked(st: State, sent: Issued) {
    && |sent.count| == |st.zones|
    && (forall z :: 0 <= z < |st.zones| ==> sent.count[z] == st.zones[z].write)
    && (forall s :: s in sent.pending <==> s in st.remapping && st.remapping[s] in st.pending)
    && (forall s :: s in sent.pending ==> s.zone in st.open || s.zone in st.full)
    && (forall s, j :: s in sent.pending && 0 <= j < |st.open| && s.zone == st.open[j] ==>
          sent.pending[s] == WorkerOf(|st.open|, j))
  }

  ghost predicate Sized(k: nat, st: State, d: Size) {
    && d.tables == k && d.zones == |st.zones| && d.workers == |st.open| + 1
  }

  // ---------- Allocation ----------

  // The open zone takes one table; `next` is the empty zone opened in its
  // place if that fills it.
  function Alloc(k: nat, st: State, id: Id, next: nat): State
    requires st.which < |st.open| && st.open[st.which] < |st.zones|
  {
    var z := st.open[st.which];
    var m := st.zones[z];
    var slot := Slot(z, m.write);
    var filled := m.write + 1 >= k;
    State(st.mapping[id := slot], st.remapping[slot := id], st.pending + {id},
          st.zones[z := ZoneMeta(m.write + 1, m.valid + 1, m.deleted)],
          if filled then st.open[st.which := next] else st.open,
          NextPosition(|st.open|, st.which),
          if filled then st.empties - {next} else st.empties,
          if filled then st.full + {z} else st.full)
  }

  function AllocSlot(st: State): Slot
    requires st.which < |st.open| && st.open[st.which] < |st.zones|
  {
    Slot(st.open[st.which], st.zones[st.open[st.which]].write)
  }

  lemma AllocKeepsPartition(k: nat, st: State, id: Id, next: nat)
    requires Core(k, st, {}, {}) && id !in st.mapping && next in st.empties
    ensures Partition(Alloc(k, st, id, next), {})
  {
    var z := st.open[st.which];
    assert z in st.open;
    var st' := Alloc(k, st, id, next);
    if st.zones[z].write + 1 >= k {
      assert st'.open[st.which] == next;
      forall y | y in st.open ensures y in st'.open || y == z {
        var j :| 0 <= j < |st.open| && st.open[j] == y;
        assert y != z ==> st'.open[j] == y;
      }
      forall y | y in st'.open ensures (y in st.open && y != z) || y == next {
        var j :| 0 <= j < |st'.open| && st'.open[j] == y;
        assert j != st.which ==> st.open[j] == y;
      }
    }
  }

  lemma AllocKeepsLive(k: nat, st: State, id: Id, next: nat)
    requires Core(k, st, {}, {}) && id !in st.mapping && next in st.empties
    ensures var st' := Alloc(k, st, id, next); Metas(k, st', {}) && Inverse(st') && Live(st', {})
  {
    var z := st.open[st.which];
    assert z in st.open;
    var slot, st' := AllocSlot(st), Alloc(k, st, id, next);
    assert slot !in st.remapping;
    assert MetaOk(k, st.zones[z]);
    forall s ensures s in st'.remapping <==> LiveSlot(st', {}, s) {
      if s != slot {
        assert s in st.remapping <==> LiveSlot(st, {}, s);
      } else {
        assert slot.index !in st.zones[z].deleted;
      }
    }
  }

  // Allocation keeps the invariant.
  lemma AllocKeeps(k: nat, st: State, id: Id, next: nat)
    requires Core(k, st, {}, {}) && id !in st.mapping && next in st.empties
    ensures Core(k, Alloc(k, st, id, next), {}, {})
  {
    AllocKeepsPartition(k, st, id, next);
    AllocKeepsLive(k, st, id, next);
  }

  // The write it queues is the next of its zone, at that zone's worker.
  lemma AllocIssues(k: nat, st: State, id: Id, next: nat, d: Size, sent: Issued)
    requires Core(k, st, {}, {}) && id !in st.mapping && next in st.empties
    requires Linked(st, sent) && Sized(k, st, d)
    ensures var c := Async(WorkerOf(|st.open|, st.which), AllocSlot(st));
            && Allowed(d, sent, c) && Linked(Alloc(k, st, id, next), After(sent, c))
            && Sized(k, Alloc(k, st, id, next), d)
  {
    var z := st.open[st.which];
    assert z in st.open && z !in st.full;
    var slot, st' := AllocSlot(st), Alloc(k, st, id, next);
    var c := Async(WorkerOf(|st.open|, st.which), slot);
    var sent' := After(sent, c);
    assert slot !in st.remapping;
    assert MetaOk(k, st.zones[z]);
    forall s ensures s in sent'.pending <==> s in st'.remapping && st'.remapping[s] in st'.pending {
      if s != slot && s in st.remapping { assert st.mapping[st.remapping[s]] == s; }
    }
    forall s | s in sent'.pending ensures s.zone in st'.open || s.zone in st'.full {
      if s.zone in st.open {
        var j :| 0 <= j < |st.open| && st.open[j] == s.zone;
        if j != st.which { assert st'.open[j] == s.zone; }
      }
    }
    forall s, j | s in sent'.pending && 0 <= j < |st'.open| && s.zone == st'.open[j]
      ensures sent'.pending[s] == WorkerOf(|st'.open|, j)
    {
      assert s != slot ==> s.zone in st.open || s.zone in st.full;
      assert s == slot && st'.open[j] == z ==> j == st.which;
    }
  }

  // ---------- Waiting ----------

  function Waited(st: State, id: Id): State { st.(pending := st.pending - {id}) }

  lemma WaitKeeps(k: nat, st: State, id: Id, held: set<nat>, moved: set<Slot>)
    requires Core(k, st, held, moved)
    ensures Core(k, Waited(st, id), held, moved)
  {
    assert forall s :: LiveSlot(Waited(st, id), moved, s) == LiveSlot(st, moved, s);
  }

  lemma WaitIssues(k: nat, st: State, id: Id, held: set<nat>, moved: set<Slot>, d: Size, sent: Issued)
    requires Core(k, st, held, moved) && Linked(st, sent) && Sized(k, st, d) && id in st.pending
    ensures var c := Wait(st.mapping[id]); Allowed(d, sent, c) && Linked(Waited(st, id), After(sent, c))
  {}

  // A live table that was waited for can be read.
  lemma ReadIssues(k: nat, st: State, id: Id, held: set<nat>, moved: set<Slot>, d: Size, sent: Issued)
    requires Core(k, st, held, moved) && Linked(st, sent) && Sized(k, st, d)
    requires id in st.mapping && id !in st.pending
    ensures var c := Read(st.mapping[id]); Allowed(d, sent, c) && After(sent, c) == sent
  {
    assert LiveSlot(st, moved, st.mapping[id]);
  }

  // ---------- Deletion ----------

  function Remove(st: State, id: Id): State
    requires id in st.mapping && st.mapping[id].zone < |st.zones| && st.zones[st.mapping[id].zone].valid > 0
  {
    var s := st.mapping[id];
    var m := st.zones[s.zone];
    st.(mapping := st.mapping - {id}, remapping := st.remapping - {s},
        zones := st.zones[s.zone := ZoneMeta(m.write, m.valid - 1, m.deleted + [s.index])])
  }

  // A zone that holds a live table counts it.
  lemma LiveIsCounted(k: nat, m: ZoneMeta, i: nat)
    requires MetaOk(k, m) && i < m.write && i !in m.deleted
    ensures m.valid > 0
  {
    if m.valid == 0 {
      var s := m.deleted + [i];
      DistinctBelow(s, m.write);
    }
  }

  lemma RemoveKeeps(k: nat, st: State, id: Id)
    requires Core(k, st, {}, {}) && id in st.mapping && id !in st.pending
    ensures st.mapping[id].zone < |st.zones| && st.zones[st.mapping[id].zone].valid > 0
    ensures Core(k, Remove(st, id), {}, {})
  {
    var s := st.mapping[id];
    assert LiveSlot(st, {}, s);
    LiveIsCounted(k, st.zones[s.zone], s.index);
    var st' := Remove(st, id);
    forall x ensures x in st'.remapping <==> LiveSlot(st', {}, x) {
      assert x in st.remapping <==> LiveSlot(st, {}, x);
    }
  }

  lemma RemoveLinked(k: nat, st: State, id: Id, sent: Issued)
    requires Core(k, st, {}, {}) && id in st.mapping && id !in st.pending && Linked(st, sent)
    requires st.mapping[id].zone < |st.zones| && st.zones[st.mapping[id].zone].valid > 0
    ensures Linked(Remove(st, id), sent)
  {}

  // ---------- Relocation ----------

  // One live table moves to the next slot of the zone in hand.
  function Move(st: State, from: Slot, to: nat): State
    requires from in st.remapping && to < |st.zones|
  {
    var id := st.remapping[from];
    var m := st.zones[to];
    var slot := Slot(to, m.write);
    st.(mapping := st.mapping[id := slot], remapping := (st.remapping - {from})[slot := id],
        zones := st.zones[to := ZoneMeta(m.write + 1, m.valid + 1, m.deleted)])
  }

  lemma MoveKeeps(k: nat, st: State, from: Slot, to: nat, moved: set<Slot>)
    requires Core(k, st, {to}, moved) && from in st.remapping && from.zone != to && to < |st.zones|
    requires st.zones[to].write < k && forall s :: s in moved ==> s.zone != to
    ensures Core(k, Move(st, from, to), {to}, moved + {from})
    ensures Move(st, from, to).mapping.Keys == st.mapping.Keys
  {
    var id, slot, st' := st.remapping[from], Slot(to, st.zones[to].write), Move(st, from, to);
    assert !LiveSlot(st, moved, slot);
    assert MetaOk(k, st.zones[to]);
    forall s ensures s in st'.remapping <==> LiveSlot(st', moved + {from}, s) {
      assert s in st.remapping <==> LiveSlot(st, moved, s);
      if s == slot { assert slot.index !in st.zones[to].deleted; }
    }
  }

  lemma MoveIssues(k: nat, st: State, from: Slot, to: nat, moved: set<Slot>, d: Size, sent: Issued)
    requires Core(k, st, {to}, moved) && from in st.remapping && from.zone != to && to < |st.zones|
    requires st.zones[to].write < k
    requires Linked(st, sent) && Sized(k, st, d) && st.remapping[from] !in st.pending
    ensures var c := Sync(Slot(to, st.zones[to].write));
            Allowed(d, sent, c) && Linked(Move(st, from, to), After(sent, c))
  {
    var slot := Slot(to, st.zones[to].write);
    assert !LiveSlot(st, moved, slot);
    assert slot !in st.remapping;
    var st', sent' := Move(st, from, to), After(sent, Sync(slot));
    assert NonePending(sent, to);
    forall s ensures s in sent'.pending <==> s in st'.remapping && st'.remapping[s] in st'.pending {
      if s == slot { assert st'.remapping[s] == st.remapping[from]; }
    }
  }

  // ---------- Reset ----------

  function Clear(st: State, z: nat): State
    requires z < |st.zones|
  {
    st.(zones := st.zones[z := ZoneMeta(0, 0, [])], empties := st.empties + {z}, full := st.full - {z})
  }

  // Nothing live is left in the zone.
  ghost predicate Vacated(st: State, z: nat) {
    forall s :: s in st.remapping ==> s.zone != z
  }

  lemma ClearKeeps(k: nat, st: State, z: nat, moved: set<Slot>)
    requires k > 0 && Core(k, st, {}, moved) && z in st.full && Vacated(st, z)
    requires forall s :: s in moved ==> s.zone == z
    ensures z < |st.zones| && Core(k, Clear(st, z), {}, {})
  {
    var st' := Clear(st, z);
    forall s ensures s in st'.remapping <==> LiveSlot(st', {}, s) {
      assert s in st.remapping <==> LiveSlot(st, moved, s);
    }
  }

  lemma ClearIssues(k: nat, st: State, z: nat, moved: set<Slot>, d: Size, sent: Issued)
    requires Core(k, st, {}, moved) && z in st.full && Vacated(st, z) && Linked(st, sent) && Sized(k, st, d)
    ensures z < |st.zones| && Allowed(d, sent, Reset(z)) && Linked(Clear(st, z), After(sent, Reset(z)))
  {
    assert NonePending(sent, z);
  }

  // ---------- Taking a zone in hand and giving it back ----------

  function Hold(st: State, z: nat): State { st.(empties := st.empties - {z}) }

  lemma HoldKeeps(k: nat, st: State, z: nat, moved: set<Slot>, sent: Issued)
    requires Core(k, st, {}, moved) && z in st.empties && Linked(st, sent)
    ensures Core(k, Hold(st, z), {z}, moved) && Linked(Hold(st, z), sent)
  {
    assert forall s :: LiveSlot(Hold(st, z), moved, s) == LiveSlot(st, moved, s);
  }

  function Release(k: nat, st: State, z: nat): State
    requires z < |st.zones|
  {
    if st.zones[z].write >= k then st.(full := st.full + {z}) else st.(empties := st.empties + {z})
  }

  lemma ReleaseKeeps(k: nat, st: State, z: nat, moved: set<Slot>, sent: Issued)
    requires z < |st.zones| && Core(k, st, {z}, moved) && Linked(st, sent)
    ensures Core(k, Release(k, st, z), {}, moved) && Linked(Release(k, st, z), sent)
  {
    assert forall s :: LiveSlot(Release(k, st, z), moved, s) == LiveSlot(st, moved, s);
    assert MetaOk(k, st.zones[z]);
  }

  // ---------- Room ----------

  // Free slots in empty zones, among the first n zones.
  function Free(k: nat, zones: seq<ZoneMeta>, empties: set<nat>, n: nat): nat
    requires n <= |zones|
  {
    if n == 0 then 0
    else
      Free(k, zones, empties, n - 1)
      + if n - 1 in empties && zones[n - 1].write <= k then k - zones[n - 1].write else 0
  }

  function FreeSlots(k: nat, st: State): nat { Free(k, st.zones, st.empties, |st.zones|) }

  lemma {:induction false} FreeSame(k: nat, a: seq<ZoneMeta>, b: seq<ZoneMeta>, e: set<nat>, f: set<nat>, n: nat)
    requires n <= |a| && n <= |b|
    requires forall z :: 0 <= z < n ==> (z in e <==> z in f) && (z in e ==> a[z].write == b[z].write)
    ensures Free(k, a, e, n) == Free(k, b, f, n)
  {
    if n > 0 { FreeSame(k, a, b, e, f, n - 1); }
  }

  // Room of one zone.
  function Room(k: nat, st: State, z: nat): nat
    requires z < |st.zones|
  {
    if z in st.empties && st.zones[z].write <= k then k - st.zones[z].write else 0
  }

  lemma {:induction false} FreeChange(k: nat, a: State, b: State, z: nat, n: nat)
    requires z < |a.zones| == |b.zones| && n <= |a.zones|
    requires forall y :: 0 <= y < |a.zones| && y != z ==>
               (y in a.empties <==> y in b.empties) && (y in a.empties ==> a.zones[y].write == b.zones[y].write)
    ensures Free(k, a.zones, a.empties, n) + (if z < n then Room(k, b, z) else 0)
         == Free(k, b.zones, b.empties, n) + (if z < n then Room(k, a, z) else 0)
  {
    if n > 0 { FreeChange(k, a, b, z, n - 1); }
  }

  lemma {:induction false} FreeNone(k: nat, zones: seq<ZoneMeta>, n: nat)
    requires n <= |zones|
    ensures Free(k, zones, {}, n) == 0
  {
    if n > 0 { FreeNone(k, zones, n - 1); }
  }

  // Deleted slots among the first n zones.
  function Deleted(zones: seq<ZoneMeta>, n: nat): nat
    requires n <= |zones|
  {
    if n == 0 then 0 else Deleted(zones, n - 1) + |zones[n - 1].deleted|
  }

  function DeletedSlots(st: State): nat { Deleted(st.zones, |st.zones|) }

  lemma {:induction false} DeletedChange(a: seq<ZoneMeta>, b: seq<ZoneMeta>, z: nat, n: nat)
    requires z < |a| == |b| && n <= |a|
    requires forall y :: 0 <= y < |a| && y != z ==> |a[y].deleted| == |b[y].deleted|
    ensures Deleted(a, n) + (if z < n then |b[z].deleted| else 0)
            == Deleted(b, n) + (if z < n then |a[z].deleted| else 0)
  {
    if n > 0 { DeletedChange(a, b, z, n - 1); }
  }
}
