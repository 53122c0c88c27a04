// From table slots to flash pages: the requests the zone manager sends, and
// that the flash takes each of them without a fault.
module Dispatch {
  import opened Options
  import opened Arithmetic
  import opened Blocks
  import opened Flash
  import opened Geometries
  import opened Latency
  import Protocol
  import opened Relocation
  import ZoneManager
  import ZoneState

  // A zone holds k tables of t pages each.
  ghost predicate Tables(g: Geometry, k: nat, t: nat) {
    Usable(g) && k > 0 && t > 0 && k * t == ZonePages(g)
  }

  // The size of a table in bytes.
  function TableBytes(g: Geometry, t: nat): nat { t * g.secsPerPg * g.secsz }

  // The byte address of a slot, in sectors.
  lemma SlotSector(g: Geometry, k: nat, t: nat, slot: Protocol.Slot)
    requires Tables(g, k, t)
    ensures Address(k, TableBytes(g, t), slot) == (slot.zone * ZoneSectors(g) + slot.index * t * g.secsPerPg) * g.secsz
  {
    var s, b, z, i := g.secsPerPg, g.secsz, slot.zone, slot.index;
    PagesDerived(g);
    assert k * (t * s * b) == k * t * s * b;
    Commute(s, ZonePages(g));
    assert z * (ZoneSectors(g) * b) == z * ZoneSectors(g) * b;
    assert i * (t * s * b) == i * t * s * b;
    assert (z * ZoneSectors(g) + i * t * s) * b == z * ZoneSectors(g) * b + i * t * s * b;
  }

  // The request for a whole table, from its address and length in bytes.
  lemma SlotRequest(g: Geometry, k: nat, t: nat, slot: Protocol.Slot)
    requires Tables(g, k, t)
    ensures var a, n := Address(k, TableBytes(g, t), slot), TableBytes(g, t);
            && a / g.secsz == slot.zone * ZoneSectors(g) + slot.index * t * g.secsPerPg
            && (a + n) / g.secsz == a / g.secsz + t * g.secsPerPg
  {
    var x, y := slot.zone * ZoneSectors(g) + slot.index * t * g.secsPerPg, t * g.secsPerPg;
    SlotSector(g, k, t, slot);
    DivMulBack(x, g.secsz);
    assert (x + y) * g.secsz == x * g.secsz + y * g.secsz;
    DivMulBack(x + y, g.secsz);
  }

  lemma SlotFits(g: Geometry, k: nat, t: nat, slot: Protocol.Slot)
    requires Tables(g, k, t) && slot.index < k
    ensures Proper(g, slot.zone, slot.index * t, slot.zone * ZoneSectors(g) + slot.index * t * g.secsPerPg,
                   t * g.secsPerPg)
    ensures (slot.index + 1) * t <= ZonePages(g) && ((slot.index + 1) * t == ZonePages(g) <==> slot.index + 1 == k)
  {
    var s, p, i := g.secsPerPg, ZonePages(g), slot.index;
    PagesDerived(g);
    MulMonotone(i + 1, k, t);
    assert (i + 1) * t == i * t + t;
    MulMonotone((i + 1) * t, p, s);
    assert (i * t + t) * s == i * t * s + t * s;
    Commute(s, p);
    assert (slot.zone + 1) * ZoneSectors(g) == slot.zone * ZoneSectors(g) + ZoneSectors(g);
    DivMulBack(t, s);
    MulMonotone(1, t, s);
  }

  // The zones are the whole device, in sectors.
  lemma DeviceSectors(g: Geometry)
    requires Usable(g)
    ensures Zones(g) * ZoneSectors(g) == g.secsPerPg * g.pgsPerBlk * g.blksPerPl * g.lunsPerCh * g.nchs
  {
    var tt := g.secsPerPg * g.pgsPerBlk * g.blksPerPl * g.lunsPerCh * g.nchs;
    var n, zs, b := Zones(g), ZoneSectors(g), g.secsz;
    Derived(g);
    WholeSectors(g);
    WholeDevice(g);
    hide Zones, ZoneSectors;
    assert tt * b == FlashSize(g);
    assert n * zs * b == n * (zs * b);
    SameFactor(n * zs, tt, b);
  }

  lemma WholeDevice(g: Geometry)
    requires Usable(g)
    ensures Zones(g) * g.zoneCap == FlashSize(g)
  {
    Derived(g);
    var e, r, b, f, c, l := End(g), Rows(g), BlockSize(g), g.fcgs, Chips(g), g.lunsPerCh;
    hide Zones, BlockSize, End, Rows, Chips;
    assert r * f * l * (b * c * e) == b * (e * r) * l * (f * c);
  }

  lemma SameFactor(x: nat, y: nat, b: nat)
    requires b > 0 && x * b == y * b
    ensures x == y
  {
    MulMonotone(x, y, b);
    if x < y { } else if y < x { MulMonotone(y, x, b); }
  }

  // A page has a zone if and only if it is before the end of the device; a
  // request for a page after it fails the check of the zone index.
  lemma PageHasZone(g: Geometry, p: nat, r: nat)
    requires Usable(g) && r < g.secsPerPg
    ensures ZoneIndex(g, p * g.secsPerPg + r) < Zones(g) <==> p < Zones(g) * ZonePages(g)
  {
    var s, z, n := g.secsPerPg, ZonePages(g), Zones(g);
    PagesDerived(g);
    Commute(s, z);
    hide Zones, ZonePages;
    assert n * (z * s) == n * z * s;
    if p < n * z {
      MulMonotone(p + 1, n * z, s);
      assert (p + 1) * s == p * s + s;
      DivBelow(p * s + r, n, z * s);
    } else {
      MulMonotone(n * z, p, s);
      DivAtLeast(p * s + r, n, z * s);
    }
  }

  // Tables in different slots share no physical page.
  lemma TablesApart(g: Geometry, k: nat, t: nat, a: Protocol.Slot, b: Protocol.Slot, i: nat, j: nat)
    requires Tables(g, k, t) && a != b && a.index < k && b.index < k
    requires a.zone < Zones(g) && b.zone < Zones(g) && i < t && j < t
    ensures Locate(g, a.zone, a.index * t + i) != Locate(g, b.zone, b.index * t + j)
  {
    SlotBelow(a.index, k, i, t);
    SlotBelow(b.index, k, j, t);
    LocateBack(g, a.zone, a.index * t + i);
    LocateBack(g, b.zone, b.index * t + j);
    DivUnique(a.index * t + i, t, a.index, i);
    DivUnique(b.index * t + j, t, b.index, j);
  }

  // The first sector of a slot, for zones of zs sectors and tables of n.
  function FirstSector(zs: nat, n: nat, slot: Protocol.Slot): nat {
    slot.zone * zs + slot.index * n
  }

  lemma SlotSectors(g: Geometry, k: nat, t: nat, slot: Protocol.Slot)
    requires Tables(g, k, t) && slot.index < k && slot.zone < Zones(g)
    ensures var slba, nlb := FirstSector(ZoneSectors(g), t * g.secsPerPg, slot), t * g.secsPerPg;
            && Proper(g, slot.zone, slot.index * t, slba, nlb)
            && ZoneIndex(g, slba) == slot.zone && PagesIn(g, slba, nlb) == t
            && slba / g.secsPerPg == slot.zone * ZonePages(g) + slot.index * t
            && slba + nlb <= Zones(g) * ZoneSectors(g)
  {
    var slba, nlb := FirstSector(ZoneSectors(g), t * g.secsPerPg, slot), t * g.secsPerPg;
    assert slot.index * t * g.secsPerPg == slot.index * nlb;
    SlotFits(g, k, t, slot);
    ProperWrite(g, slot.zone, slot.index * t, slba, nlb);
    SameFactor(PagesIn(g, slba, nlb), t, g.secsPerPg);
    MulMonotone(slot.zone + 1, Zones(g), ZoneSectors(g));
  }

  // The sector request the source makes of a byte request for a slot.
  method Request(g: Geometry, k: nat, t: nat, slot: Protocol.Slot) returns (slba: nat, nlb: nat)
    requires Tables(g, k, t)
    ensures slba == FirstSector(ZoneSectors(g), t * g.secsPerPg, slot) && nlb == t * g.secsPerPg
  {
    SlotRequest(g, k, t, slot);
    assert slot.index * t * g.secsPerPg == slot.index * (t * g.secsPerPg);
    var offset, len := Address(k, TableBytes(g, t), slot), TableBytes(g, t);
    slba := offset / g.secsz;
    nlb := (offset + len) / g.secsz - slba;
  }

  // The LUNs that hold no page of the zone are as available as before.
  ghost predicate Elsewhere(g: Geometry, z: nat, before: (nat, nat) -> nat, after: (nat, nat) -> nat)
    requires Usable(g)
  {
    forall c: nat, l: nat :: l != LunOf(g, z) || c / Chips(g) != Group(g, z) ==> after(c, l) == before(c, l)
  }

  lemma QuietElsewhere(g: Geometry, z: nat, w: nat, n: nat, before: (nat, nat) -> nat, after: (nat, nat) -> nat,
                       start: nat, lat: nat)
    requires Usable(g) && Regular(g) && ZonesPerLun(g) > 0 && Timed(before, after, start, Run(g, z, w, n), lat)
    ensures Elsewhere(g, z, before, after)
  {
    hide Run, LunOf, Group, CountOn;
    forall c: nat, l: nat | l != LunOf(g, z) || c / Chips(g) != Group(g, z) ensures after(c, l) == before(c, l) {
      RunElsewhere(g, z, w, n, c, l);
    }
  }

  // Writing a table at the next slot of its zone: no fault, the right pages,
  // and the zone is FULL exactly when that was its last slot. With the zone
  // idle the time is known.
  method WriteSlot(f: Ftl, k: nat, t: nat, slot: Protocol.Slot, stime: nat)
    returns (lat: nat, faults: set<Fault>, ghost pages: seq<Ppa>)
    requires f.Valid() && Tables(f.g, k, t) && slot.zone < f.zones.Length && slot.index < k
    requires f.InStep(slot.zone) && f.written[slot.zone] == slot.index * t
    modifies f`written, f.zones, f.avail
    ensures f.Valid() && faults == {} && f.InStep(slot.zone)
    ensures f.written == old(f.written)[slot.zone := (slot.index + 1) * t]
    ensures f.zones[slot.zone].full <==> slot.index + 1 == k
    ensures forall y :: 0 <= y < f.zones.Length && y != slot.zone ==> f.zones[y] == old(f.zones[y])
    ensures pages == Run(f.g, slot.zone, slot.index * t, t)
    ensures stime != 0 && Idle(f.g, slot.zone, old(f.Times()), stime) ==> lat == Ceil(t, Chips(f.g)) * PROG_LATENCY
    // No LUN outside the zone changes its time.
    ensures stime != 0 ==> Elsewhere(f.g, slot.zone, old(f.Times()), f.Times())
  {
    ghost var z, w, times := slot.zone, slot.index * t, f.Times();
    SlotSectors(f.g, k, t, slot);
    SlotFits(f.g, k, t, slot);
    DeviceSectors(f.g);
    assert f.ZoneOk(z);
    hide Locate, Regular, Zones, ZoneSectors, ZonePages, Chips, End, ZonesPerLun, BlockSize, PagesIn, ZoneIndex, Idle,
         Slowest, Timed, Run, Ceil, Checked, Proper;
    assert (slot.index + 1) * t == w + t;
    var slba, nlb := Request(f.g, k, t, slot);
    ghost var zone := f.zones[z];
    lat, faults, pages := f.Write(slba, nlb, stime);
    NoFaults(f.g, zone, w, slba, nlb, faults);
    assert f.ZoneOk(z);
    if stime != 0 {
      QuietElsewhere(f.g, z, w, t, times, f.Times(), stime, PROG_LATENCY);
    }
    if stime != 0 && Idle(f.g, z, times, stime) {
      IdleRun(f.g, z, w, t, times, stime, PROG_LATENCY, lat);
    }
  }

  // Reading it back visits the pages it was written to.
  method ReadSlot(f: Ftl, k: nat, t: nat, slot: Protocol.Slot, stime: nat) returns (ghost pages: seq<Ppa>)
    requires f.Valid() && Tables(f.g, k, t) && slot.zone < f.zones.Length && slot.index < k
    modifies f.avail
    ensures f.Valid() && pages == Run(f.g, slot.zone, slot.index * t, t)
  {
    SlotSectors(f.g, k, t, slot);
    var slba, nlb := Request(f.g, k, t, slot);
    var lat;
    lat, pages := f.Read(slba, nlb, stime);
    forall i | 0 <= i < t ensures pages[i] == Run(f.g, slot.zone, slot.index * t, t)[i] {
      ProperPages(f.g, slot.zone, slot.index * t, slba, nlb, i);
    }
  }

  // Resetting a zone with all its slots written erases its blocks.
  method ResetSlots(f: Ftl, k: nat, t: nat, z: nat) returns (ghost erased: seq<Block>)
    requires f.Valid() && Tables(f.g, k, t) && z < f.zones.Length && f.written[z] == k * t
    modifies f`written, f.zones, f.avail
    ensures f.Valid() && f.InStep(z) && f.written == old(f.written)[z := 0]
    ensures forall y :: 0 <= y < f.zones.Length && y != z ==> f.zones[y] == old(f.zones[y])
    ensures erased == ZoneBlocks(f.g, z)
  {
    SlotSectors(f.g, k, t, Protocol.Slot(z, 0));
    assert f.ZoneOk(z);
    var slba, nlb := Request(f.g, k, t, Protocol.Slot(z, 0));
    ghost var clock;
    erased, clock := f.Reset(slba);
  }

  // ---------- Whole runs ----------

  // The flash has written what the protocol's device has, table by table.
  ghost predicate Matches(f: Ftl, wp: seq<nat>, t: nat)
    reads f, f.zones
  {
    |wp| == f.zones.Length == |f.written| && forall z :: 0 <= z < |wp| ==> f.InStep(z) && f.written[z] == wp[z] * t
  }

  lemma ZoneMatches(f: Ftl, wp: seq<nat>, t: nat, z: nat)
    requires Matches(f, wp, t) && z < |wp|
    ensures |wp| == f.zones.Length == |f.written| && f.InStep(z) && f.written[z] == wp[z] * t
  {}

  // What the flash sees of one event.
  datatype Access = WriteTable(slot: Protocol.Slot) | ReadTable(slot: Protocol.Slot) | ResetZone(zone: nat) | Nothing

  function AccessOf(trace: seq<Protocol.Cmd>, s: Protocol.Sys, e: Protocol.Event): Access {
    match e
    case Main =>
      if s.done >= |trace| then Nothing
      else (match trace[s.done]
            case Async(_, _) => Nothing
            case Wait(_) => Nothing
            case Sync(slot) => WriteTable(slot)
            case Read(slot) => ReadTable(slot)
            case Reset(z) => ResetZone(z))
    case Take(_) => Nothing
    case Execute(w) => if w < |s.running| && s.running[w].Some? then WriteTable(s.running[w].value) else Nothing
  }

  // The pages programmed or read, and the blocks erased.
  datatype Visit = Visit(pages: seq<Ppa>, erased: seq<Block>)

  ghost function VisitOf(g: Geometry, t: nat, a: Access): Visit
    requires Usable(g)
  {
    match a
    case WriteTable(slot) => Visit(Run(g, slot.zone, slot.index * t, t), [])
    case ReadTable(slot) => Visit(Run(g, slot.zone, slot.index * t, t), [])
    case ResetZone(z) => Visit([], ZoneBlocks(g, z))
    case Nothing => Visit([], [])
  }

  // What each event makes the flash do.
  ghost predicate Visited(g: Geometry, t: nat, d: Protocol.Size, trace: seq<Protocol.Cmd>, events: seq<Protocol.Event>,
                          visits: seq<Visit>)
    requires Usable(g)
  {
    && |visits| == |events|
    && forall i :: 0 <= i < |events| ==> VisitAt(g, t, d, trace, events[..i], events[i], visits[i])
  }

  ghost predicate VisitAt(g: Geometry, t: nat, d: Protocol.Size, trace: seq<Protocol.Cmd>, before: seq<Protocol.Event>,
                          e: Protocol.Event, v: Visit)
    requires Usable(g)
  {
    v == VisitOf(g, t, AccessOf(trace, Protocol.Exec(trace, Protocol.Init(d), before), e))
  }

  lemma VisitedNext(g: Geometry, t: nat, d: Protocol.Size, trace: seq<Protocol.Cmd>, events: seq<Protocol.Event>,
                    i: nat, visits: seq<Visit>, v: Visit)
    requires Usable(g) && i < |events| && Visited(g, t, d, trace, events[..i], visits)
    requires v == VisitOf(g, t, AccessOf(trace, Protocol.Exec(trace, Protocol.Init(d), events[..i]), events[i]))
    ensures Visited(g, t, d, trace, events[..i + 1], visits + [v])
  {
    assert VisitAt(g, t, d, trace, events[..i], events[i], v);
    hide VisitAt, Usable;
    var b, c, r := events[..i], events[..i + 1], visits + [v];
    forall j | 0 <= j < |c| ensures VisitAt(g, t, d, trace, c[..j], c[j], r[j]) {
      assert c[..j] == if j < i then b[..j] else events[..i];
    }
  }

  lemma NoVisits(g: Geometry, t: nat, d: Protocol.Size, trace: seq<Protocol.Cmd>)
    requires Usable(g)
    ensures Visited(g, t, d, trace, [], [])
  {}

  lemma TablesUsable(g: Geometry, k: nat, t: nat)
    requires Tables(g, k, t)
    ensures Usable(g)
  {}

  function AccessWp(wp: seq<nat>, a: Access): seq<nat> {
    match a
    case WriteTable(slot) => if slot.zone < |wp| then wp[slot.zone := wp[slot.zone] + 1] else wp
    case ReadTable(_) => wp
    case ResetZone(z) => if z < |wp| then wp[z := 0] else wp
    case Nothing => wp
  }

  ghost predicate AccessOk(d: Protocol.Size, wp: seq<nat>, a: Access) {
    match a
    case WriteTable(slot) => slot.zone < |wp| && slot.index == wp[slot.zone] < d.tables
    case ReadTable(slot) => slot.zone < |wp| && slot.index < wp[slot.zone] <= d.tables
    case ResetZone(z) => z < |wp| && wp[z] == d.tables
    case Nothing => true
  }

  lemma EventAccess(d: Protocol.Size, trace: seq<Protocol.Cmd>, s: Protocol.Sys, e: Protocol.Event)
    requires Protocol.Disciplined(d, trace) && s.done <= |trace|
    requires Protocol.Inv(d, Protocol.Final(d, trace[..s.done]), s)
    requires Protocol.Enabled(trace, s, e)
    ensures AccessOk(d, s.wp, AccessOf(trace, s, e))
    ensures Protocol.Next(trace, s, e).wp == AccessWp(s.wp, AccessOf(trace, s, e))
    ensures var s' := Protocol.Next(trace, s, e);
            s'.done <= |trace| && Protocol.Inv(d, Protocol.Final(d, trace[..s'.done]), s')
  {
    hide *;
    Protocol.StepSafe(d, trace, s, e);
    PointersBelow(d, Protocol.Final(d, trace[..s.done]), s);
    AccessFacts(d, trace, s, e);
  }

  lemma PointersBelow(d: Protocol.Size, k: Protocol.Issued, s: Protocol.Sys)
    requires Protocol.Inv(d, k, s)
    ensures forall z :: 0 <= z < |s.wp| ==> s.wp[z] <= d.tables
  {
    hide Protocol.Lines, Protocol.Covered;
  }

  lemma AccessFacts(d: Protocol.Size, trace: seq<Protocol.Cmd>, s: Protocol.Sys, e: Protocol.Event)
    requires Protocol.DeviceOk(d, trace, s, e) && forall z :: 0 <= z < |s.wp| ==> s.wp[z] <= d.tables
    ensures AccessOk(d, s.wp, AccessOf(trace, s, e))
    ensures Protocol.Next(trace, s, e).wp == AccessWp(s.wp, AccessOf(trace, s, e))
  {}

  lemma AccessCase(g: Geometry, d: Protocol.Size, t: nat, wp: seq<nat>, a: Access)
    requires Usable(g) && AccessOk(d, wp, a)
    ensures Regular(g) && ZonesPerLun(g) > 0
    ensures a.WriteTable? ==>
              && a.slot.zone < |wp| && a.slot.index == wp[a.slot.zone] < d.tables
              && AccessWp(wp, a) == wp[a.slot.zone := wp[a.slot.zone] + 1]
    ensures a.ReadTable? ==> a.slot.zone < |wp| && a.slot.index < d.tables && AccessWp(wp, a) == wp
    ensures a.WriteTable? || a.ReadTable? ==> VisitOf(g, t, a) == Visit(Run(g, a.slot.zone, a.slot.index * t, t), [])
    ensures a.ResetZone? ==>
              && a.zone < |wp| && wp[a.zone] == d.tables && AccessWp(wp, a) == wp[a.zone := 0]
              && VisitOf(g, t, a) == Visit([], ZoneBlocks(g, a.zone))
    ensures a.Nothing? ==> VisitOf(g, t, a) == Visit([], []) && AccessWp(wp, a) == wp
  {
    hide Regular, ZonesPerLun, Run, ZoneBlocks;
  }

  lemma AllMatch(f: Ftl, wp: seq<nat>, t: nat)
    requires Usable(f.g) && Matches(f, wp, t)
    ensures |wp| == f.zones.Length == |f.written|
    ensures forall z :: 0 <= z < |wp| ==>
              f.InStep(z) && StepAt(f.g, z, f.written[z], f.zones[z].writePtr) && f.written[z] == wp[z] * t
  {}

  lemma MatchesFrom(f: Ftl, wp: seq<nat>, t: nat)
    requires Usable(f.g) && |wp| == f.zones.Length == |f.written|
    requires forall z :: 0 <= z < |wp| ==>
               (f.InStep(z) || StepAt(f.g, z, f.written[z], f.zones[z].writePtr)) && f.written[z] == wp[z] * t
    ensures Matches(f, wp, t)
  {}

  method Play(f: Ftl, d: Protocol.Size, t: nat, ghost wp: seq<nat>, a: Access)
    returns (faults: set<Fault>, ghost visit: Visit)
    requires f.Valid() && Tables(f.g, d.tables, t) && Matches(f, wp, t) && AccessOk(d, wp, a)
    modifies f`written, f.zones, f.avail
    ensures f.Valid() && faults == {} && Matches(f, AccessWp(wp, a), t)
    ensures Usable(f.g) && visit == VisitOf(f.g, t, a)
  {
    hide *;
    TablesUsable(f.g, d.tables, t);
    AccessCase(f.g, d, t, wp, a);
    AllMatch(f, wp, t);
    faults, visit := {}, Visit([], []);
    var now: nat := *;
    match a {
      case WriteTable(slot) =>
        ZoneMatches(f, wp, t, slot.zone);
        var lat;
        ghost var pages;
        lat, faults, pages := WriteSlot(f, d.tables, t, slot, now);
        visit := Visit(pages, []);
      case ReadTable(slot) =>
        ZoneMatches(f, wp, t, slot.zone);
        ghost var pages := ReadSlot(f, d.tables, t, slot, now);
        visit := Visit(pages, []);
      case ResetZone(z) =>
        ZoneMatches(f, wp, t, z);
        ghost var erased := ResetSlots(f, d.tables, t, z);
        visit := Visit([], erased);
      case Nothing =>
    }
    MatchesFrom(f, AccessWp(wp, a), t);
  }

  // Plays any interleaving of a disciplined main thread with its workers on a
  // new flash: no write has a fault, each event visits the pages of its slot or
  // erases the blocks of its zone, and the flash ends where the protocol says.
  method Replay(f: Ftl, d: Protocol.Size, t: nat, trace: seq<Protocol.Cmd>,
                events: seq<Protocol.Event>)
    returns (faults: seq<set<Fault>>, ghost visits: seq<Visit>)
    requires f.Valid() && Tables(f.g, d.tables, t) && Matches(f, Protocol.Init(d).wp, t)
    requires Protocol.Disciplined(d, trace) && Protocol.Schedule(trace, Protocol.Init(d), events)
    modifies f`written, f.zones, f.avail
    ensures f.Valid() && |faults| == |events| && forall i :: 0 <= i < |faults| ==> faults[i] == {}
    ensures Usable(f.g) && Visited(f.g, t, d, trace, events, visits)
    ensures Matches(f, Protocol.Exec(trace, Protocol.Init(d), events).wp, t)
  {
    hide *;
    faults, visits := [], [];
    TablesUsable(f.g, d.tables, t);
    NoVisits(f.g, t, d, trace);
    var s := Protocol.Init(d);
    ScheduleStart(d, trace, s);
    assert events[..0] == [];
    var i := 0;
    while i < |events|
      invariant 0 <= i == |faults| <= |events| && f.Valid() && Matches(f, s.wp, t)
      invariant forall j :: 0 <= j < |faults| ==> faults[j] == {}
      invariant Visited(f.g, t, d, trace, events[..i], visits)
      invariant s == Protocol.Exec(trace, Protocol.Init(d), events[..i])
      invariant s.done <= |trace| && Protocol.Inv(d, Protocol.Final(d, trace[..s.done]), s)
    {
      ScheduleAt(trace, Protocol.Init(d), events, i);
      EventAccess(d, trace, s, events[i]);
      var fault;
      ghost var visit;
      fault, visit := Play(f, d, t, s.wp, AccessOf(trace, s, events[i]));
      VisitedNext(f.g, t, d, trace, events, i, visits, visit);
      faults, visits := faults + [fault], visits + [visit];
      s := Protocol.Next(trace, s, events[i]);
      i := i + 1;
    }
    assert events[..i] == events;
  }

  lemma ScheduleStart(d: Protocol.Size, trace: seq<Protocol.Cmd>, s: Protocol.Sys)
    requires s == Protocol.Init(d)
    ensures s == Protocol.Exec(trace, Protocol.Init(d), []) && s.done == 0
    ensures s.done <= |trace| && Protocol.Inv(d, Protocol.Final(d, trace[..s.done]), s)
  {
    Protocol.InitInv(d);
    assert trace[..0] == [];
  }

  lemma {:induction false} ScheduleAt(trace: seq<Protocol.Cmd>, s: Protocol.Sys, events: seq<Protocol.Event>, i: nat)
    requires Protocol.Schedule(trace, s, events) && i < |events|
    ensures Protocol.Enabled(trace, Protocol.Exec(trace, s, events[..i]), events[i])
    ensures Protocol.Exec(trace, s, events[..i + 1])
            == Protocol.Next(trace, Protocol.Exec(trace, s, events[..i]), events[i])
    decreases |events|
  {
    var before := events[..|events| - 1];
    if i < |events| - 1 {
      ScheduleAt(trace, s, before, i);
      assert before[..i] == events[..i] && before[..i + 1] == events[..i + 1];
    } else {
      assert events[..i + 1] == events && events[..i] == before;
    }
  }

  // ---------- The manager and the flash ----------

  // All commands are issued and the workers have nothing left to write.
  ghost predicate AtRest(trace: seq<Protocol.Cmd>, s: Protocol.Sys) {
    && s.done == |trace| && |s.queues| == |s.running|
    && forall w :: 0 <= w < |s.queues| ==> s.queues[w] == [] && s.running[w] == None
  }

  // Then the device has every write that was issued.
  lemma RestingDevice(d: Protocol.Size, trace: seq<Protocol.Cmd>, s: Protocol.Sys)
    requires AtRest(trace, s) && Protocol.Inv(d, Protocol.Final(d, trace[..s.done]), s)
    ensures s.wp == Protocol.Final(d, trace).count
  {
    assert trace[..s.done] == trace;
    var k := Protocol.Final(d, trace);
    hide Protocol.Lines, Protocol.Known, Protocol.Final;
    forall w | 0 <= w < |s.queues| ensures Protocol.Line(s, w) == [] {}
    AllCovered(k, s);
  }

  lemma AllCovered(k: Protocol.Issued, s: Protocol.Sys)
    requires |s.queues| == |s.running| && |s.wp| == |k.count| && Protocol.Covered(k, s)
    requires forall w :: 0 <= w < |s.queues| ==> Protocol.Line(s, w) == []
    requires forall z :: 0 <= z < |s.wp| ==> s.wp[z] <= k.count[z]
    ensures s.wp == k.count
  {
    hide Protocol.Line, Protocol.Covered;
    forall z | 0 <= z < |s.wp| ensures s.wp[z] == k.count[z] { BehindIsQueued(k, s, z); }
  }

  // A zone whose writes are not all done has one in a worker's line.
  lemma BehindIsQueued(k: Protocol.Issued, s: Protocol.Sys, z: nat)
    requires |s.queues| == |s.running| && |s.wp| == |k.count| && Protocol.Covered(k, s) && z < |s.wp|
    ensures s.wp[z] >= k.count[z] || exists w :: 0 <= w < |s.queues| && Protocol.Line(s, w) != []
  {
    hide Protocol.Line;
    if s.wp[z] < k.count[z] {
      var slot := Protocol.Slot(z, s.wp[z]);
      assert slot in Protocol.Line(s, k.pending[slot]);
    }
  }

  // The manager's own commands, in any interleaving with its workers, play on
  // a new flash without a fault. Once all is at rest, the pages written in
  // each zone are those of the slots the manager counts.
  method ReplayManager(f: Ftl, pool: ZoneManager.MemoryManager, t: nat, trace: seq<Protocol.Cmd>,
                       events: seq<Protocol.Event>)
    returns (faults: seq<set<Fault>>, ghost visits: seq<Visit>)
    requires f.Valid() && pool.Valid() && trace == pool.trace && Tables(f.g, pool.tables, t)
    requires Matches(f, Protocol.Init(pool.Dims()).wp, t)
    requires Protocol.Schedule(trace, Protocol.Init(pool.Dims()), events)
    modifies f`written, f.zones, f.avail
    ensures f.Valid() && |faults| == |events| && forall i :: 0 <= i < |faults| ==> faults[i] == {}
    ensures Usable(f.g) && Visited(f.g, t, pool.Dims(), trace, events, visits)
    ensures AtRest(trace, Protocol.Exec(trace, Protocol.Init(pool.Dims()), events)) ==>
              |f.written| == |pool.zones|
              && forall z :: 0 <= z < |pool.zones| ==> f.written[z] == pool.zones[z].write * t
  {
    hide *;
    ManagerTrace(pool);
    faults, visits := Replay(f, pool.Dims(), t, trace, events);
    ghost var s := Protocol.Exec(trace, Protocol.Init(pool.Dims()), events);
    if AtRest(trace, s) {
      EndInv(pool.Dims(), trace, events);
      RestingDevice(pool.Dims(), trace, s);
      MatchedSize(f, s.wp, t);
      forall z | 0 <= z < |s.wp| ensures f.written[z] == s.wp[z] * t { ZoneMatches(f, s.wp, t, z); }
    }
  }

  lemma MatchedSize(f: Ftl, wp: seq<nat>, t: nat)
    requires Matches(f, wp, t)
    ensures |f.written| == |wp|
  {}

  lemma ManagerTrace(pool: ZoneManager.MemoryManager)
    requires pool.Valid()
    ensures Protocol.Disciplined(pool.Dims(), pool.trace) && pool.Dims().tables == pool.tables
    ensures var count := Protocol.Final(pool.Dims(), pool.trace).count;
            |count| == |pool.zones| && forall z :: 0 <= z < |pool.zones| ==> count[z] == pool.zones[z].write
  {
    hide ZoneState.Core, Protocol.Disciplined, Protocol.Final;
  }

  lemma {:induction false} EndInv(d: Protocol.Size, trace: seq<Protocol.Cmd>, events: seq<Protocol.Event>)
    requires Protocol.Disciplined(d, trace) && Protocol.Schedule(trace, Protocol.Init(d), events)
    ensures var s := Protocol.Exec(trace, Protocol.Init(d), events);
            s.done <= |trace| && Protocol.Inv(d, Protocol.Final(d, trace[..s.done]), s)
    decreases |events|
  {
    hide Protocol.Inv, Protocol.Disciplined, Protocol.Enabled, Protocol.Next, Protocol.Init;
    if events == [] {
      ScheduleStart(d, trace, Protocol.Init(d));
    } else {
      var before := events[..|events| - 1];
      EndInv(d, trace, before);
      EventAccess(d, trace, Protocol.Exec(trace, Protocol.Init(d), before), events[|events| - 1]);
    }
  }

  // The i-th page of a slot.
  function PageOf(g: Geometry, t: nat, x: Protocol.Slot, i: nat): Ppa
    requires Usable(g)
  {
    Derived(g);
    Locate(g, x.zone, x.index * t + i)
  }

  ghost predicate PagesApart(g: Geometry, t: nat, x: Protocol.Slot, y: Protocol.Slot)
    requires Usable(g) && x.zone < Zones(g) && y.zone < Zones(g)
  {
    forall i, j :: 0 <= i < t && 0 <= j < t ==> PageOf(g, t, x, i) != PageOf(g, t, y, j)
  }

  // Any two tables the manager holds share no physical page.
  lemma HeldApart(pool: ZoneManager.MemoryManager, g: Geometry, t: nat, a: ZoneState.Id, b: ZoneState.Id)
    requires pool.Valid() && Tables(g, pool.tables, t) && pool.zoneNum == Zones(g)
    requires a in pool.mapping && b in pool.mapping && a != b
    ensures Usable(g) && pool.mapping[a].zone < Zones(g) && pool.mapping[b].zone < Zones(g)
    ensures PagesApart(g, t, pool.mapping[a], pool.mapping[b])
  {
    SlotsApart(pool, a, b);
    TablesUsable(g, pool.tables, t);
    hide pool.Valid;
    AllPagesApart(g, pool.tables, t, pool.mapping[a], pool.mapping[b]);
  }

  lemma AllPagesApart(g: Geometry, k: nat, t: nat, x: Protocol.Slot, y: Protocol.Slot)
    requires Tables(g, k, t) && x != y && x.index < k && y.index < k && x.zone < Zones(g) && y.zone < Zones(g)
    ensures PagesApart(g, t, x, y)
  {
    forall i, j | 0 <= i < t && 0 <= j < t ensures PageOf(g, t, x, i) != PageOf(g, t, y, j) {
      TablesApart(g, k, t, x, y, i, j);
    }
  }

  lemma SlotsApart(pool: ZoneManager.MemoryManager, a: ZoneState.Id, b: ZoneState.Id)
    requires pool.Valid() && a in pool.mapping && b in pool.mapping && a != b
    ensures pool.mapping[a] != pool.mapping[b] && pool.mapping[a].index < pool.tables
    ensures pool.mapping[b].index < pool.tables
    ensures pool.mapping[a].zone < pool.zoneNum && pool.mapping[b].zone < pool.zoneNum
  {
    hide Traced, ZoneState.Partition;
    var st := pool.View();
    forall s | s in st.remapping ensures s.zone < pool.zoneNum && s.index < pool.tables {
      assert ZoneState.LiveSlot(st, {}, s);
      assert ZoneState.MetaOk(pool.tables, st.zones[s.zone]);
    }
  }
}
