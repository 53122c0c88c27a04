// The asynchronous write protocol. The main thread issues commands; each
// asynchronous write goes to the FIFO queue of one worker. A trace of commands
// that follows a discipline the main thread can check on its own is safe in
// every interleaving with the workers.
module Protocol {
  import opened Options

  // A table-sized slot of a zone.
  datatype Slot = Slot(zone: nat, index: nat)

  datatype Cmd =
    | Async(worker: nat, slot: Slot)   // queue a write of one table
    | Wait(slot: Slot)                 // wait for a queued write
    | Sync(slot: Slot)                 // write one table at once
    | Read(slot: Slot)
    | Reset(zone: nat)

  // Tables per zone, number of zones and number of workers.
  datatype Size = Size(tables: nat, zones: nat, workers: nat)

  // ---------- What the main thread knows ----------

  // The slots written per zone since its last reset, and the queued writes
  // not waited for yet, each with its worker.
  datatype Issued = Issued(count: seq<nat>, pending: map<Slot, nat>)

  function Start(d: Size): Issued {
    Issued(seq(d.zones, _ => 0), map[])
  }

  function SetCount(s: Issued, zone: nat, n: nat): Issued {
    if zone < |s.count| then s.(count := s.count[zone := n]) else s
  }

  function After(s: Issued, c: Cmd): Issued {
    match c
    case Async(w, slot) => SetCount(s, slot.zone, slot.index + 1).(pending := s.pending[slot := w])
    case Wait(slot) => s.(pending := s.pending - {slot})
    case Sync(slot) => SetCount(s, slot.zone, slot.index + 1)
    case Read(_) => s
    case Reset(z) => SetCount(s, z, 0)
  }

  ghost predicate NonePending(s: Issued, zone: nat) {
    forall p :: p in s.pending ==> p.zone != zone
  }

  // Writes go to a zone in slot order, its queued writes all to one worker; a
  // direct write or a reset comes only when none of its writes is pending.
  ghost predicate Allowed(d: Size, s: Issued, c: Cmd) {
    match c
    case Async(w, slot) =>
      && w < d.workers && slot.zone < |s.count| && slot.index == s.count[slot.zone] < d.tables
      && (forall p :: p in s.pending && p.zone == slot.zone ==> s.pending[p] == w)
    case Wait(slot) => slot in s.pending
    case Sync(slot) => slot.zone < |s.count| && slot.index == s.count[slot.zone] < d.tables && NonePending(s, slot.zone)
    case Read(slot) => slot.zone < |s.count| && slot.index < s.count[slot.zone] && slot !in s.pending
    case Reset(z) => z < |s.count| && s.count[z] == d.tables && NonePending(s, z)
  }

  function Final(d: Size, trace: seq<Cmd>): Issued {
    if trace == [] then Start(d) else After(Final(d, trace[..|trace| - 1]), trace[|trace| - 1])
  }

  ghost predicate Disciplined(d: Size, trace: seq<Cmd>) {
    trace == [] ||
    (Disciplined(d, trace[..|trace| - 1]) && Allowed(d, Final(d, trace[..|trace| - 1]), trace[|trace| - 1]))
  }

  lemma {:induction false} DisciplinedPrefix(d: Size, trace: seq<Cmd>, n: nat)
    requires Disciplined(d, trace) && n <= |trace|
    ensures Disciplined(d, trace[..n])
    ensures n < |trace| ==>
              Allowed(d, Final(d, trace[..n]), trace[n])
              && Final(d, trace[..n + 1]) == After(Final(d, trace[..n]), trace[n])
    decreases |trace|
  {
    if n < |trace| - 1 {
      DisciplinedPrefix(d, trace[..|trace| - 1], n);
      assert trace[..|trace| - 1][..n] == trace[..n] && trace[..|trace| - 1][..n + 1] == trace[..n + 1];
    } else if n == |trace| - 1 {
      assert trace[..n + 1] == trace;
    } else {
      assert trace[..n] == trace;
    }
  }

  // ---------- The system ----------

  // `done` commands have been issued; each worker has a queue and perhaps a
  // task in hand; the device has a write pointer per zone.
  datatype Sys = Sys(done: nat, queues: seq<seq<Slot>>, running: seq<Option<Slot>>, wp: seq<nat>)

  datatype Event = Main | Take(worker: nat) | Execute(worker: nat)

  function Init(d: Size): Sys {
    Sys(0, seq(d.workers, _ => []), seq(d.workers, _ => None), seq(d.zones, _ => 0))
  }

  ghost predicate Completed(s: Sys, slot: Slot) {
    forall w :: 0 <= w < |s.queues| && w < |s.running| ==> slot !in s.queues[w] && s.running[w] != Some(slot)
  }

  ghost predicate Enabled(trace: seq<Cmd>, s: Sys, e: Event) {
    match e
    case Main => s.done < |trace| && (trace[s.done].Wait? ==> Completed(s, trace[s.done].slot))
    case Take(w) => w < |s.queues| == |s.running| && s.queues[w] != [] && s.running[w] == None
    case Execute(w) => w < |s.queues| == |s.running| && s.running[w].Some?
  }

  function Write(s: Sys, slot: Slot): Sys {
    if slot.zone < |s.wp| then s.(wp := s.wp[slot.zone := s.wp[slot.zone] + 1]) else s
  }

  function Issue(s: Sys, c: Cmd): Sys {
    match c
    case Async(w, slot) => if w < |s.queues| then s.(queues := s.queues[w := s.queues[w] + [slot]]) else s
    case Wait(_) => s
    case Sync(slot) => Write(s, slot)
    case Read(_) => s
    case Reset(z) => if z < |s.wp| then s.(wp := s.wp[z := 0]) else s
  }

  function Next(trace: seq<Cmd>, s: Sys, e: Event): Sys {
    match e
    case Main => if s.done < |trace| then Issue(s, trace[s.done]).(done := s.done + 1) else s
    case Take(w) =>
      if w < |s.queues| && w < |s.running| && s.queues[w] != []
      then s.(running := s.running[w := Some(s.queues[w][0])], queues := s.queues[w := s.queues[w][1..]])
      else s
    case Execute(w) =>
      if w < |s.running| && s.running[w].Some? then
        Write(s, s.running[w].value).(running := s.running[w := None])
      else s
  }

  // The device gets a write of a slot at its zone's write pointer.
  ghost predicate WriteInOrder(d: Size, s: Sys, slot: Slot) {
    slot.zone < |s.wp| && slot.index == s.wp[slot.zone] < d.tables
  }

  // What the device sees of an event is in order: writes at the write
  // pointer, reads below it, resets of full zones.
  ghost predicate DeviceOk(d: Size, trace: seq<Cmd>, s: Sys, e: Event) {
    match e
    case Main =>
      s.done < |trace| &&
      (match trace[s.done]
       case Async(_, _) => true
       case Wait(_) => true
       case Sync(slot) => WriteInOrder(d, s, slot)
       case Read(slot) => slot.zone < |s.wp| && slot.index < s.wp[slot.zone]
       case Reset(z) => z < |s.wp| && s.wp[z] == d.tables)
    case Take(_) => true
    case Execute(w) => w < |s.running| && s.running[w].Some? && WriteInOrder(d, s, s.running[w].value)
  }

  // ---------- The invariant ----------

  // What a worker has still to write, the task in hand first.
  function Line(s: Sys, w: nat): seq<Slot>
    requires w < |s.queues| == |s.running|
  {
    (if s.running[w].Some? then [s.running[w].value] else []) + s.queues[w]
  }

  // A slot a worker still has to write was issued to that worker.
  ghost predicate Owned(k: Issued, wp: seq<nat>, w: nat, slot: Slot)
    requires |wp| == |k.count|
  {
    && slot in k.pending && k.pending[slot] == w
    && slot.zone < |wp| && wp[slot.zone] <= slot.index < k.count[slot.zone]
  }

  ghost predicate InSlotOrder(line: seq<Slot>) {
    forall i, j :: 0 <= i < j < |line| && line[i].zone == line[j].zone ==> line[i].index < line[j].index
  }

  ghost predicate Shape(d: Size, k: Issued, s: Sys) {
    |s.queues| == |s.running| == d.workers && |s.wp| == |k.count| == d.zones
  }

  ghost predicate Lines(k: Issued, s: Sys)
    requires |s.queues| == |s.running| && |s.wp| == |k.count|
  {
    forall w :: 0 <= w < |s.queues| ==>
      InSlotOrder(Line(s, w)) && forall slot :: slot in Line(s, w) ==> Owned(k, s.wp, w, slot)
  }

  // Every slot between the write pointer and the issued count waits in the
  // line of its worker.
  ghost predicate Covered(k: Issued, s: Sys)
    requires |s.queues| == |s.running| && |s.wp| == |k.count|
  {
    forall z, i :: 0 <= z < |s.wp| && s.wp[z] <= i < k.count[z] ==>
      var slot := Slot(z, i);
      slot in k.pending && k.pending[slot] < |s.queues| && slot in Line(s, k.pending[slot])
  }

  ghost predicate Known(d: Size, k: Issued) {
    && (forall z :: 0 <= z < |k.count| ==> k.count[z] <= d.tables)
    && (forall p :: p in k.pending ==> p.zone < |k.count| && p.index < k.count[p.zone])
    && (forall p, q :: p in k.pending && q in k.pending && p.zone == q.zone ==> k.pending[p] == k.pending[q])
  }

  // All pending writes of a zone are in one worker's line, in slot order, and
  // reach from the device's write pointer to the issued count.
  ghost predicate Inv(d: Size, k: Issued, s: Sys) {
    && Shape(d, k, s) && Known(d, k) && Lines(k, s) && Covered(k, s)
    && (forall z :: 0 <= z < |s.wp| ==> s.wp[z] <= k.count[z])
  }

  lemma InitInv(d: Size)
    ensures Inv(d, Start(d), Init(d))
  {}

  // With no write of a zone pending, the device has them all.
  lemma CaughtUp(d: Size, k: Issued, s: Sys, z: nat)
    requires Inv(d, k, s) && z < |s.wp| && NonePending(k, z)
    ensures s.wp[z] == k.count[z]
  {
    var first := Slot(z, s.wp[z]);
    assert first.index < k.count[z] ==> first in k.pending;
  }

  // The task in hand is the next slot of its zone.
  lemma NextInLine(d: Size, k: Issued, s: Sys, w: nat)
    requires Inv(d, k, s) && w < |s.running| && s.running[w].Some?
    ensures WriteInOrder(d, s, s.running[w].value)
  {
    var slot := s.running[w].value;
    var line := Line(s, w);
    assert line[0] == slot && slot in line;
    assert Owned(k, s.wp, w, slot);
    var first := Slot(slot.zone, s.wp[slot.zone]);
    assert first in k.pending && first in Line(s, k.pending[first]);
    assert k.pending[first] == w;
    assert forall m :: 0 < m < |line| && line[m].zone == slot.zone ==> line[0].index < line[m].index;
    var m :| 0 <= m < |line| && line[m] == first;
  }

  lemma AsyncKeepsInv(d: Size, k: Issued, s: Sys, w: nat, slot: Slot)
    requires Inv(d, k, s) && Allowed(d, k, Async(w, slot))
    ensures Inv(d, After(k, Async(w, slot)), Issue(s, Async(w, slot)))
  {
    var k', s' := After(k, Async(w, slot)), Issue(s, Async(w, slot));
    forall v | 0 <= v < |s'.queues|
      ensures InSlotOrder(Line(s', v)) && forall x :: x in Line(s', v) ==> Owned(k', s'.wp, v, x)
    {
      var line := Line(s, v);
      assert InSlotOrder(line);
      if v == w {
        assert Line(s', v) == line + [slot];
        forall i | 0 <= i < |line| ensures line[i].zone == slot.zone ==> line[i].index < slot.index {
          assert Owned(k, s.wp, v, line[i]);
        }
      } else {
        assert Line(s', v) == line;
      }
      forall x | x in Line(s', v) ensures Owned(k', s'.wp, v, x) {
        if x in line { assert Owned(k, s.wp, v, x); }
      }
    }
    forall z, i | 0 <= z < |s'.wp| && s'.wp[z] <= i < k'.count[z]
      ensures var x := Slot(z, i); x in k'.pending && k'.pending[x] < |s'.queues| && x in Line(s', k'.pending[x])
    {
      var x := Slot(z, i);
      if x == slot {
        assert s'.queues[w][|s'.queues[w]| - 1] == slot;
      } else {
        assert x in k.pending && x in Line(s, k.pending[x]);
      }
    }
  }

  lemma WaitKeepsInv(d: Size, k: Issued, s: Sys, slot: Slot)
    requires Inv(d, k, s) && Completed(s, slot)
    ensures Inv(d, After(k, Wait(slot)), s)
  {
    var k' := After(k, Wait(slot));
    forall w, x | 0 <= w < |s.queues| && x in Line(s, w) ensures Owned(k', s.wp, w, x) {
      assert Owned(k, s.wp, w, x);
    }
    forall z, i | 0 <= z < |s.wp| && s.wp[z] <= i < k'.count[z]
      ensures var x := Slot(z, i); x in k'.pending && k'.pending[x] < |s.queues| && x in Line(s, k'.pending[x])
    {
      var x := Slot(z, i);
      assert x in k.pending && x in Line(s, k.pending[x]);
    }
  }

  // Moving a zone's count and write pointer together, when none of its
  // writes is pending, touches no line.
  lemma QuietZoneKeepsInv(d: Size, k: Issued, s: Sys, z: nat, n: nat)
    requires Inv(d, k, s) && z < |s.wp| && NonePending(k, z) && n <= d.tables
    ensures Inv(d, SetCount(k, z, n), s.(wp := s.wp[z := n]))
  {
    var k', s' := SetCount(k, z, n), s.(wp := s.wp[z := n]);
    forall w | 0 <= w < |s'.queues|
      ensures InSlotOrder(Line(s', w)) && forall x :: x in Line(s', w) ==> Owned(k', s'.wp, w, x)
    {
      assert Line(s', w) == Line(s, w);
      forall x | x in Line(s', w) ensures Owned(k', s'.wp, w, x) { assert Owned(k, s.wp, w, x); }
    }
    forall y, i | 0 <= y < |s'.wp| && s'.wp[y] <= i < k'.count[y]
      ensures var x := Slot(y, i); x in k'.pending && k'.pending[x] < |s'.queues| && x in Line(s', k'.pending[x])
    {
      assert y != z;
      var x := Slot(y, i);
      assert x in k.pending && x in Line(s, k.pending[x]);
    }
  }

  lemma TakeKeepsInv(d: Size, trace: seq<Cmd>, k: Issued, s: Sys, w: nat)
    requires Inv(d, k, s) && Enabled(trace, s, Take(w))
    ensures Inv(d, k, Next(trace, s, Take(w)))
  {
    var s' := Next(trace, s, Take(w));
    forall v | 0 <= v < |s.queues| ensures Line(s', v) == Line(s, v) {
      if v == w { assert s.queues[w] == [s.queues[w][0]] + s.queues[w][1..]; }
    }
    forall z, i | 0 <= z < |s'.wp| && s'.wp[z] <= i < k.count[z]
      ensures var x := Slot(z, i); x in k.pending && k.pending[x] < |s'.queues| && x in Line(s', k.pending[x])
    {
      var x := Slot(z, i);
      assert x in k.pending && x in Line(s, k.pending[x]);
    }
    forall v | 0 <= v < |s'.queues|
      ensures InSlotOrder(Line(s', v)) && forall x :: x in Line(s', v) ==> Owned(k, s'.wp, v, x)
    {
      assert Line(s', v) == Line(s, v);
    }
  }

  lemma ExecuteKeepsInv(d: Size, trace: seq<Cmd>, k: Issued, s: Sys, w: nat)
    requires Inv(d, k, s) && Enabled(trace, s, Execute(w))
    ensures Inv(d, k, Next(trace, s, Execute(w)))
  {
    var s' := Next(trace, s, Execute(w));
    var slot := s.running[w].value;
    NextInLine(d, k, s, w);
    assert Line(s, w) == [slot] + Line(s', w);
    assert Line(s, w)[0] == slot && Owned(k, s.wp, w, slot);
    forall v | 0 <= v < |s'.queues|
      ensures InSlotOrder(Line(s', v)) && forall x :: x in Line(s', v) ==> Owned(k, s'.wp, v, x)
    {
      var line, line' := Line(s, v), Line(s', v);
      if v == w {
        assert forall i :: 0 <= i < |line'| ==> line'[i] == line[i + 1];
      } else {
        assert line' == line;
      }
      forall x | x in line' ensures Owned(k, s'.wp, v, x) {
        assert x in line && Owned(k, s.wp, v, x);
        if x.zone == slot.zone {
          assert k.pending[x] == k.pending[slot] == w;
          var i :| 0 <= i < |line'| && line'[i] == x;
          assert line[0].index < line[i + 1].index;
        }
      }
    }
    forall z, i | 0 <= z < |s'.wp| && s'.wp[z] <= i < k.count[z]
      ensures var x := Slot(z, i); x in k.pending && k.pending[x] < |s'.queues| && x in Line(s', k.pending[x])
    {
      var x := Slot(z, i);
      assert x in k.pending && x in Line(s, k.pending[x]) && x != slot;
      if k.pending[x] != w { assert Line(s', k.pending[x]) == Line(s, k.pending[x]); }
    }
  }

  // Every step of a disciplined trace keeps the invariant and is in order.
  lemma StepSafe(d: Size, trace: seq<Cmd>, s: Sys, e: Event)
    requires Disciplined(d, trace) && s.done <= |trace|
    requires Inv(d, Final(d, trace[..s.done]), s) && Enabled(trace, s, e)
    ensures var s' := Next(trace, s, e); s'.done <= |trace| && Inv(d, Final(d, trace[..s'.done]), s')
    ensures DeviceOk(d, trace, s, e)
  {
    var k := Final(d, trace[..s.done]);
    match e {
      case Main =>
        DisciplinedPrefix(d, trace, s.done);
        var c := trace[s.done];
        assert Final(d, trace[..s.done + 1]) == After(k, c);
        IssueSafe(d, k, s, c);
        InvIgnoresDone(d, After(k, c), Issue(s, c), s.done + 1);
      case Take(w) => TakeKeepsInv(d, trace, k, s, w);
      case Execute(w) =>
        NextInLine(d, k, s, w);
        ExecuteKeepsInv(d, trace, k, s, w);
    }
  }

  lemma InvIgnoresDone(d: Size, k: Issued, s: Sys, n: nat)
    requires Inv(d, k, s)
    ensures Inv(d, k, s.(done := n))
  {
    var s' := s.(done := n);
    assert forall w :: 0 <= w < |s.queues| == |s.running| ==> Line(s', w) == Line(s, w);
    forall z, i | 0 <= z < |s'.wp| && s'.wp[z] <= i < k.count[z]
      ensures var x := Slot(z, i); x in k.pending && k.pending[x] < |s'.queues| && x in Line(s', k.pending[x])
    {
      var x := Slot(z, i);
      assert x in k.pending && x in Line(s, k.pending[x]);
    }
  }

  lemma IssueSafe(d: Size, k: Issued, s: Sys, c: Cmd)
    requires Inv(d, k, s) && Allowed(d, k, c) && (c.Wait? ==> Completed(s, c.slot))
    ensures Inv(d, After(k, c), Issue(s, c))
    ensures c.Sync? ==> WriteInOrder(d, s, c.slot)
    ensures c.Read? ==> c.slot.zone < |s.wp| && c.slot.index < s.wp[c.slot.zone]
    ensures c.Reset? ==> c.zone < |s.wp| && s.wp[c.zone] == d.tables
  {
    hide Inv, Allowed, WriteInOrder, Completed;
    match c {
      case Async(w, slot) => AsyncKeepsInv(d, k, s, w, slot);
      case Wait(slot) => WaitKeepsInv(d, k, s, slot);
      case Sync(slot) => SyncSafe(d, k, s, slot);
      case Read(slot) => ReadSafe(d, k, s, slot);
      case Reset(z) => ResetSafe(d, k, s, z);
    }
  }

  lemma SyncSafe(d: Size, k: Issued, s: Sys, slot: Slot)
    requires Inv(d, k, s) && Allowed(d, k, Sync(slot))
    ensures Inv(d, After(k, Sync(slot)), Issue(s, Sync(slot))) && WriteInOrder(d, s, slot)
  {
    CaughtUp(d, k, s, slot.zone);
    hide Lines, Covered, Known;
    QuietZoneKeepsInv(d, k, s, slot.zone, slot.index + 1);
  }

  lemma ReadSafe(d: Size, k: Issued, s: Sys, slot: Slot)
    requires Inv(d, k, s) && Allowed(d, k, Read(slot))
    ensures slot.zone < |s.wp| && slot.index < s.wp[slot.zone]
  {
    hide Lines, Known;
    assert s.wp[slot.zone] <= slot.index ==> Slot(slot.zone, slot.index) in k.pending;
  }

  lemma ResetSafe(d: Size, k: Issued, s: Sys, z: nat)
    requires Inv(d, k, s) && Allowed(d, k, Reset(z))
    ensures Inv(d, After(k, Reset(z)), Issue(s, Reset(z))) && z < |s.wp| && s.wp[z] == d.tables
  {
    CaughtUp(d, k, s, z);
    hide Lines, Covered, Known;
    QuietZoneKeepsInv(d, k, s, z, 0);
  }

  // ---------- Every interleaving ----------

  function Exec(trace: seq<Cmd>, s: Sys, events: seq<Event>): Sys {
    if events == [] then s else Next(trace, Exec(trace, s, events[..|events| - 1]), events[|events| - 1])
  }

  // A schedule in which every event is enabled when it happens.
  ghost predicate Schedule(trace: seq<Cmd>, s: Sys, events: seq<Event>) {
    events == [] ||
    (Schedule(trace, s, events[..|events| - 1])
     && Enabled(trace, Exec(trace, s, events[..|events| - 1]), events[|events| - 1]))
  }

  // In every interleaving of a disciplined main thread with its workers, the
  // device sees writes at the write pointer, reads of written slots and resets
  // of full zones only.
  lemma {:induction false} EveryInterleavingSafe(d: Size, trace: seq<Cmd>, events: seq<Event>)
    requires Disciplined(d, trace) && Schedule(trace, Init(d), events)
    ensures var s := Exec(trace, Init(d), events); s.done <= |trace| && Inv(d, Final(d, trace[..s.done]), s)
    ensures events != [] ==> DeviceOk(d, trace, Exec(trace, Init(d), events[..|events| - 1]), events[|events| - 1])
  {
    if events == [] {
      InitInv(d);
    } else {
      EveryInterleavingSafe(d, trace, events[..|events| - 1]);
      StepSafe(d, trace, Exec(trace, Init(d), events[..|events| - 1]), events[|events| - 1]);
    }
  }

  // The main thread is never stuck: while it waits, some worker can move.
  lemma NeverStuck(d: Size, trace: seq<Cmd>, s: Sys)
    requires s.done < |trace| && |s.queues| == |s.running|
    ensures exists e :: Enabled(trace, s, e)
  {
    if Enabled(trace, s, Main) {
    } else {
      var slot := trace[s.done].slot;
      var w :| 0 <= w < |s.queues| && (slot in s.queues[w] || s.running[w] == Some(slot));
      assert Enabled(trace, s, if s.running[w].Some? then Execute(w) else Take(w));
    }
  }

  // Work left: each worker event takes some away, and only the main thread
  // adds to it, so no wait is for ever.
  function Work(queues: seq<seq<Slot>>, running: seq<Option<Slot>>): nat
    requires |queues| == |running|
  {
    if queues == [] then 0
    else 2 * |queues[0]| + (if running[0].Some? then 1 else 0) + Work(queues[1..], running[1..])
  }

  lemma {:induction false} WorkUpdate(queues: seq<seq<Slot>>, running: seq<Option<Slot>>, w: nat, q: seq<Slot>,
      r: Option<Slot>)
    requires w < |queues| == |running|
    ensures Work(queues[w := q], running[w := r]) + 2 * |queues[w]| + (if running[w].Some? then 1 else 0)
         == Work(queues, running) + 2 * |q| + (if r.Some? then 1 else 0)
  {
    var queues', running' := queues[w := q], running[w := r];
    if w > 0 {
      assert queues'[1..] == queues[1..][w - 1 := q] && running'[1..] == running[1..][w - 1 := r];
      WorkUpdate(queues[1..], running[1..], w - 1, q, r);
    } else {
      assert queues'[1..] == queues[1..] && running'[1..] == running[1..];
    }
  }

  lemma WorkersFinish(trace: seq<Cmd>, s: Sys, e: Event)
    requires !e.Main? && |s.queues| == |s.running| && Enabled(trace, s, e)
    ensures var s' := Next(trace, s, e);
            |s'.queues| == |s'.running| && Work(s'.queues, s'.running) < Work(s.queues, s.running)
  {
    match e {
      case Take(w) => WorkUpdate(s.queues, s.running, w, s.queues[w][1..], Some(s.queues[w][0]));
      case Execute(w) =>
        WorkUpdate(s.queues, s.running, w, s.queues[w], None);
        assert s.queues[w := s.queues[w]] == s.queues;
    }
  }
}
