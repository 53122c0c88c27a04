// The flash translation layer: zones with a stepwise write pointer, and the
// time at which each LUN is available.
module Flash {
  import opened Arithmetic
  import opened Blocks
  import opened Geometries
  import opened Latency

  const READ_LATENCY := 40000
  const PROG_LATENCY := 200000
  const ERASE_LATENCY := 2000000

  // A zone: its number and group, whether it is FULL, its write pointer in
  // sectors, and the physical page that is written next.
  datatype Zone = Zone(id: nat, fcg: nat, full: bool, writePtr: nat, wpp: Ppa)

  // What is wrong with a write; the source reports it and carries on.
  datatype Fault = OutOfDevice | OutOfZone | ZoneFull | NotAtPointer

  // The physical page of a logical page.
  function PhysOf(g: Geometry, lpn: nat): Ppa
    requires Regular(g) && ZonesPerLun(g) > 0 && g.secsPerPg * g.secsz > 0 && ZonePages(g) > 0
  {
    Locate(g, lpn / ZonePages(g), lpn % ZonePages(g))
  }

  ghost predicate Usable(g: Geometry) {
    Regular(g) && ZonesPerLun(g) > 0 && g.secsPerPg * g.secsz > 0 && ZonePages(g) > 0 && ZoneSectors(g) > 0
  }

  lemma RegularIsUsable(g: Geometry)
    requires Regular(g)
    ensures Usable(g)
  {
    Derived(g);
    PagesDerived(g);
    MulMonotone(1, g.secsPerPg, ZonePages(g));
  }

  // A page-aligned sector of a zone.
  lemma SectorPage(g: Geometry, z: nat, w: nat, r: nat)
    requires Usable(g) && r < g.secsPerPg
    ensures (z * ZoneSectors(g) + w * g.secsPerPg + r) / g.secsPerPg == z * ZonePages(g) + w
  {
    PagesDerived(g);
    var s := g.secsPerPg;
    assert z * (s * ZonePages(g)) == z * ZonePages(g) * s;
    assert (z * ZonePages(g) + w) * s == z * ZonePages(g) * s + w * s;
    DivUnique(z * ZoneSectors(g) + w * s + r, s, z * ZonePages(g) + w, r);
  }

  // A sector's zone is its page's zone.
  lemma SectorZone(g: Geometry, slba: nat)
    requires Usable(g)
    ensures slba / ZoneSectors(g) == slba / g.secsPerPg / ZonePages(g)
  {
    PagesDerived(g);
    DivTwice(slba, g.secsPerPg, ZonePages(g));
  }

  // Page w of zone z is where logical page z * ZonePages + w lives.
  lemma PhysOfZonePage(g: Geometry, z: nat, w: nat)
    requires Usable(g) && w < ZonePages(g)
    ensures PhysOf(g, z * ZonePages(g) + w) == Locate(g, z, w)
  {
    DivUnique(z * ZonePages(g) + w, ZonePages(g), z, w);
  }

  function ZoneIndex(g: Geometry, slba: nat): nat
    requires Usable(g)
  {
    slba / ZoneSectors(g)
  }

  // Pages a request touches.
  function PagesIn(g: Geometry, slba: nat, nlb: nat): (n: nat)
    requires Usable(g) && nlb > 0
    ensures n == (slba + nlb - 1) / g.secsPerPg - slba / g.secsPerPg + 1
  {
    DivMonotone(slba, slba + nlb - 1, g.secsPerPg);
    (slba + nlb - 1) / g.secsPerPg - slba / g.secsPerPg + 1
  }

  // They are exactly the pages of its sectors.
  lemma TouchedPages(g: Geometry, slba: nat, nlb: nat, lpn: nat)
    requires Usable(g) && nlb > 0
    ensures slba / g.secsPerPg <= lpn < slba / g.secsPerPg + PagesIn(g, slba, nlb)
            <==> exists s: nat :: OfRequest(slba, nlb, s) && s / g.secsPerPg == lpn
  {
    hide Regular, ZonePages, ZoneSectors, ZonesPerLun;
    var p, last := g.secsPerPg, slba + nlb - 1;
    if slba / p <= lpn <= last / p {
      var s := Max(slba, lpn * p);
      QuotientRemainder(slba, p);
      QuotientRemainder(last, p);
      MulMonotone(lpn, last / p, p);
      MulMonotone(slba / p, lpn, p);
      DivUnique(s, p, lpn, s - lpn * p);
      assert OfRequest(slba, nlb, s) && s / p == lpn;
    }
    if s: nat :| OfRequest(slba, nlb, s) && s / p == lpn {
      DivMonotone(slba, s, p);
      DivMonotone(s, last, p);
    }
  }

  ghost predicate OfRequest(slba: nat, nlb: nat, s: nat) { slba <= s < slba + nlb }

  // A write that starts at the pointer of a zone, is a whole number of pages
  // and stays within the zone.
  ghost predicate Proper(g: Geometry, z: nat, w: nat, slba: nat, nlb: nat)
    requires Usable(g)
  {
    && slba == z * ZoneSectors(g) + w * g.secsPerPg && nlb > 0 && nlb % g.secsPerPg == 0
    && slba + nlb <= (z + 1) * ZoneSectors(g)
  }

  lemma FitsZone(s: nat, p: nat, w: nat, m: nat)
    requires s > 0 && w * s + m * s <= s * p
    ensures w + m <= p
  {
    assert w * s + m * s == (w + m) * s;
    Commute(s, p);
    if w + m > p { MulMonotone(p, w + m, s); }
  }

  lemma LastPage(g: Geometry, z: nat, w: nat, m: nat)
    requires Usable(g) && m > 0
    ensures (z * ZoneSectors(g) + w * g.secsPerPg + m * g.secsPerPg - 1) / g.secsPerPg == z * ZonePages(g) + w + m - 1
  {
    var s := g.secsPerPg;
    assert (w + m - 1) * s == w * s + m * s - s;
    SectorPage(g, z, w + m - 1, s - 1);
  }

  lemma ProperWrite(g: Geometry, z: nat, w: nat, slba: nat, nlb: nat)
    requires Usable(g) && Proper(g, z, w, slba, nlb)
    ensures var n := PagesIn(g, slba, nlb);
            && slba / g.secsPerPg == z * ZonePages(g) + w && n * g.secsPerPg == nlb
            && ZoneIndex(g, slba) == z && w + n <= ZonePages(g)
            && slba + nlb == z * ZoneSectors(g) + (w + n) * g.secsPerPg
  {
    var s, p, m := g.secsPerPg, ZonePages(g), nlb / g.secsPerPg;
    PagesDerived(g);
    SectorPage(g, z, w, 0);
    LastPage(g, z, w, m);
    hide Usable, ZonePages, ZoneSectors, Regular;
    assert nlb == m * s;
    assert (z + 1) * ZoneSectors(g) == z * ZoneSectors(g) + ZoneSectors(g);
    FitsZone(s, p, w, m);
    assert (w + m) * s == w * s + m * s;
    MulMonotone(w, p, s);
    Commute(s, p);
    DivUnique(slba, ZoneSectors(g), z, w * s);
  }

  lemma ProperPages(g: Geometry, z: nat, w: nat, slba: nat, nlb: nat, i: nat)
    requires Usable(g) && Proper(g, z, w, slba, nlb) && i < PagesIn(g, slba, nlb)
    ensures Run(g, z, w, PagesIn(g, slba, nlb))[i] == PhysOf(g, slba / g.secsPerPg + i)
  {
    ProperWrite(g, z, w, slba, nlb);
    PhysOfZonePage(g, z, w + i);
  }

  // When a LUN is available after commands that begin at these clock readings.
  function Served(avail: nat, begins: seq<nat>, lat: nat): nat {
    if begins == [] then avail else Max(Served(avail, begins[..|begins| - 1], lat), begins[|begins| - 1]) + lat
  }

  lemma ServedNext(avail: nat, begins: seq<nat>, begin: nat, lat: nat)
    ensures Served(avail, begins + [begin], lat) == Max(Served(avail, begins, lat), begin) + lat
  {
    assert (begins + [begin])[..|begins|] == begins;
  }

  // The clock was read once for each block of each channel.
  ghost predicate Readings(clock: seq<seq<nat>>, channels: int, blocks: nat) {
    |clock| == channels && forall i :: 0 <= i < |clock| ==> |clock[i]| == blocks
  }

  // The channels from first.ch to ch have erased their column; other LUNs are
  // as before.
  ghost predicate ColumnsErased(first: Ppa, ch: nat, end: nat, clock: seq<seq<nat>>, before: (nat, nat) -> nat,
                                after: (nat, nat) -> nat) {
    && Readings(clock, ch - first.ch, end)
    && forall c: nat, l: nat ::
         after(c, l) == if l == first.lun && first.ch <= c < ch
                        then Served(before(c, l), clock[c - first.ch], ERASE_LATENCY)
                        else before(c, l)
  }

  lemma ColumnsStart(first: Ppa, end: nat, before: (nat, nat) -> nat)
    ensures ColumnsErased(first, first.ch, end, [], before, before)
  {}

  lemma ColumnsNext(first: Ppa, ch: nat, end: nat, clock: seq<seq<nat>>, begins: seq<nat>, before: (nat, nat) -> nat,
                    now: (nat, nat) -> nat, after: (nat, nat) -> nat)
    requires ColumnsErased(first, ch, end, clock, before, now) && first.ch <= ch && |begins| == end
    requires after(ch, first.lun) == Served(now(ch, first.lun), begins, ERASE_LATENCY)
    requires forall c, l :: c != ch || l != first.lun ==> after(c, l) == now(c, l)
    ensures ColumnsErased(first, ch + 1, end, clock + [begins], before, after)
  {
    hide Served;
  }

  // The channel after the last one of a group.
  function GroupEnd(g: Geometry, fcg: nat): nat
    requires Usable(g)
  {
    Chips(g) * (fcg + 1)
  }

  // A zone was erased: each of its LUNs served one erase for each of its
  // blocks, and no other LUN did anything.
  ghost predicate ZoneErased(g: Geometry, z: nat, clock: seq<seq<nat>>, before: (nat, nat) -> nat,
                             after: (nat, nat) -> nat)
    requires Usable(g)
  {
    && Readings(clock, Chips(g), End(g))
    && forall c: nat, l: nat ::
         after(c, l) == if l == LunOf(g, z) && 0 <= c - Chips(g) * Group(g, z) < Chips(g)
                        then Served(before(c, l), clock[c - Chips(g) * Group(g, z)], ERASE_LATENCY)
                        else before(c, l)
  }

  lemma ColumnsAll(g: Geometry, z: nat, first: Ppa, ch: nat, clock: seq<seq<nat>>, before: (nat, nat) -> nat,
                   after: (nat, nat) -> nat)
    requires Usable(g) && first.ch == Chips(g) * Group(g, z) && first.lun == LunOf(g, z)
    requires ch == GroupEnd(g, Group(g, z)) && ColumnsErased(first, ch, End(g), clock, before, after)
    ensures ZoneErased(g, z, clock, before, after)
  {
    assert ch == Chips(g) * Group(g, z) + Chips(g);
    hide Served, LunOf, End;
  }

  // The faults reported are those the write has.
  ghost predicate Checked(g: Geometry, zone: Zone, slba: nat, nlb: nat, faults: set<Fault>)
    requires Usable(g)
  {
    && (OutOfDevice in faults <==> slba + nlb > g.secsPerPg * g.pgsPerBlk * g.blksPerPl * g.lunsPerCh * g.nchs)
    && (OutOfZone in faults <==> slba + nlb > (zone.id + 1) * ZoneSectors(g))
    && (ZoneFull in faults <==> zone.full)
    && (NotAtPointer in faults <==> zone.writePtr != slba)
  }

  // The pages of a request went to its zone, from the pointer on.
  ghost predicate Wrote(g: Geometry, before: seq<nat>, after: seq<nat>, slba: nat, nlb: nat, pages: seq<Ppa>)
    requires Usable(g)
  {
    nlb > 0 && ZoneIndex(g, slba) < |before| &&
    var z, n := ZoneIndex(g, slba), PagesIn(g, slba, nlb);
    pages == Run(g, z, before[z], n) && after == before[z := before[z] + n]
  }

  lemma UsableSized(g: Geometry)
    requires Usable(g)
    ensures Regular(g) && Positive(g) && Sized(g) && End(g) > 0 && Chips(g) > 0 && ZonesPerLun(g) > 0 && g.secsPerPg > 0
    ensures g.secsPerPg * g.secsz > 0 && ZonePages(g) > 0 && ZoneSectors(g) > 0
  {}

  lemma PagesOrder(g: Geometry, slba: nat, nlb: nat)
    requires Usable(g) && nlb > 0
    ensures slba / g.secsPerPg <= (slba + nlb - 1) / g.secsPerPg
    ensures PagesIn(g, slba, nlb) == (slba + nlb - 1) / g.secsPerPg - slba / g.secsPerPg + 1
  {
    hide Regular, ZonePages, ZoneSectors, ZonesPerLun;
    DivMonotone(slba, slba + nlb - 1, g.secsPerPg);
  }

  // Each logical page from that of slba on is in its place.
  ghost predicate InPlace(g: Geometry, slba: nat, pages: seq<Ppa>)
    requires Usable(g)
  {
    forall i :: 0 <= i < |pages| ==> pages[i] == PhysOf(g, slba / g.secsPerPg + i)
  }

  lemma ProperInPlace(g: Geometry, z: nat, w: nat, slba: nat, nlb: nat, pages: seq<Ppa>)
    requires Usable(g) && Proper(g, z, w, slba, nlb) && pages == Run(g, z, w, PagesIn(g, slba, nlb))
    ensures InPlace(g, slba, pages)
  {
    hide *;
    UsableSized(g);
    var first := slba / g.secsPerPg;
    forall i | 0 <= i < |pages| ensures pages[i] == PhysOf(g, first + i) {
      ProperPages(g, z, w, slba, nlb, i);
    }
    InPlaceIs(g, slba, first, pages);
  }

  lemma InPlaceIs(g: Geometry, slba: nat, first: nat, pages: seq<Ppa>)
    requires Usable(g) && first == slba / g.secsPerPg
    ensures InPlace(g, slba, pages) <==> forall i :: 0 <= i < |pages| ==> pages[i] == PhysOf(g, first + i)
  {
    hide Usable, PhysOf;
  }

  lemma WroteIs(g: Geometry, before: seq<nat>, after: seq<nat>, slba: nat, nlb: nat, pages: seq<Ppa>, z: nat, n: nat)
    requires Usable(g) && nlb > 0 && z < |before| && z == ZoneIndex(g, slba) && n == PagesIn(g, slba, nlb)
    ensures Wrote(g, before, after, slba, nlb, pages)
            <==> pages == Run(g, z, before[z], n) && after == before[z := before[z] + n]
  {
    hide ZoneIndex, PagesIn, Run;
  }

  // A write pointer in sectors that agrees with the pages written.
  ghost predicate StepAt(g: Geometry, z: nat, w: nat, writePtr: nat)
    requires Usable(g)
  {
    writePtr == z * ZoneSectors(g) + w * g.secsPerPg
  }

  ghost predicate WholePages(g: Geometry, nlb: nat)
    requires Usable(g)
  {
    nlb % g.secsPerPg == 0
  }

  // A faultless write of whole pages puts each logical page in its place and
  // leaves the pointer in step.
  lemma FaultlessLands(g: Geometry, zone: Zone, w: nat, slba: nat, nlb: nat, faults: set<Fault>, pages: seq<Ppa>)
    requires Usable(g) && Checked(g, zone, slba, nlb, faults) && faults == {} && nlb > 0 && WholePages(g, nlb)
    requires StepAt(g, zone.id, w, zone.writePtr) && pages == Run(g, zone.id, w, PagesIn(g, slba, nlb))
    ensures var n := PagesIn(g, slba, nlb);
            StepAt(g, zone.id, w + n, zone.writePtr + nlb) && w + n <= ZonePages(g) && InPlace(g, slba, pages)
  {
    FaultlessIsProper(g, zone, w, slba, nlb, faults);
    ProperWrite(g, zone.id, w, slba, nlb);
    hide Proper, InPlace, Checked, PagesIn, ZonePages, ZoneSectors, Run;
    ProperInPlace(g, zone.id, w, slba, nlb, pages);
  }

  lemma FaultlessIsProper(g: Geometry, zone: Zone, w: nat, slba: nat, nlb: nat, faults: set<Fault>)
    requires Usable(g) && Checked(g, zone, slba, nlb, faults) && faults == {} && nlb > 0 && nlb % g.secsPerPg == 0
    requires zone.writePtr == zone.id * ZoneSectors(g) + w * g.secsPerPg
    ensures Proper(g, zone.id, w, slba, nlb) && slba == zone.writePtr
  {}

  lemma NoFaults(g: Geometry, zone: Zone, w: nat, slba: nat, nlb: nat, faults: set<Fault>)
    requires Usable(g) && Checked(g, zone, slba, nlb, faults) && Proper(g, zone.id, w, slba, nlb)
    requires !zone.full && zone.writePtr == slba
    requires slba + nlb <= g.secsPerPg * g.pgsPerBlk * g.blksPerPl * g.lunsPerCh * g.nchs
    ensures faults == {}
  {
    forall x ensures x !in faults {
      match x {
        case OutOfDevice =>
        case OutOfZone =>
        case ZoneFull =>
        case NotAtPointer =>
      }
    }
  }

  class Ftl {
    const g: Geometry
    const zones: array<Zone>
    const avail: array2<nat>
    ghost var written: seq<nat>   // pages written per zone since its reset

    ghost predicate ZoneOk(z: nat)
      reads this, zones
    {
      && Usable(g) && z < zones.Length == |written|
      && zones[z].id == z && zones[z].fcg == Group(g, z) && zones[z].wpp == Locate(g, z, written[z])
      && (zones[z].full <==> written[z] >= ZonePages(g))
    }

    ghost predicate Valid()
      reads this, zones
    {
      && Usable(g) && zones.Length == |written| == Zones(g)
      && avail.Length0 == g.nchs && avail.Length1 == g.lunsPerCh
      && (forall z :: 0 <= z < zones.Length ==> ZoneOk(z))
    }

    // The write pointer in sectors agrees with the pages written.
    ghost predicate InStep(z: nat)
      reads this, zones
    {
      Usable(g) && z < zones.Length == |written| && StepAt(g, z, written[z], zones[z].writePtr)
    }

    // When each LUN is available.
    ghost function Times(): (nat, nat) -> nat
      reads avail
    {
      var a0, a1 := avail.Length0, avail.Length1;
      var m := map c, l | 0 <= c < a0 && 0 <= l < a1 :: (c, l) := avail[c, l];
      (c, l) => if (c, l) in m then m[(c, l)] else 0
    }

    constructor (g: Geometry)
      requires Regular(g)
      ensures Valid() && this.g == g && fresh(zones) && fresh(avail)
      ensures forall z :: 0 <= z < zones.Length ==> InStep(z) && written[z] == 0 && !zones[z].full
      ensures forall c, l :: 0 <= c < g.nchs && 0 <= l < g.lunsPerCh ==> avail[c, l] == 0
    {
      RegularIsUsable(g);
      this.g := g;
      var numZones := Zones(g);
      zones := new Zone[numZones](_ => Zone(0, 0, false, 0, Ppa(0, 0, 0, 0)));
      avail := new nat[g.nchs, g.lunsPerCh]((_, _) => 0);
      written := seq(numZones, _ => 0);
      new;
      var i, start := 0, 0;
      while i < zones.Length
        invariant 0 <= i <= zones.Length && start == i * g.zoneCap
        invariant fresh(zones) && fresh(avail) && this.g == g && written == seq(zones.Length, _ => 0)
        invariant forall z :: 0 <= z < i ==> ZoneOk(z) && InStep(z) && !zones[z].full
        invariant forall c, l :: 0 <= c < g.nchs && 0 <= l < g.lunsPerCh ==> avail[c, l] == 0
      {
        FirstPage(g, i);
        zones[i] := Zone(i, i % g.fcgs, false, start / g.secsz,
                         Ppa(g.nchs / g.fcgs * (i % g.fcgs), LunOf(g, i), End(g) * (i / g.fcgs) % g.blksPerPl, 0));
        assert (i + 1) * g.zoneCap == i * g.zoneCap + g.zoneCap;
        start := start + g.zoneCap;
        i := i + 1;
      }
    }

    // ---------- Time ----------

    // One command on a LUN; a start time of 0 stands for what the clock reads.
    method AdvanceStatus(p: Ppa, lat: nat, stime: nat, clock: nat) returns (d: nat, ghost start: nat)
      requires p.ch < avail.Length0 && p.lun < avail.Length1
      modifies avail
      ensures start == if stime == 0 then clock else stime
      ensures Times()(p.ch, p.lun) == start + d == Max(old(Times())(p.ch, p.lun), start) + lat
      ensures forall c, l :: c != p.ch || l != p.lun ==> Times()(c, l) == old(Times())(c, l)
    {
      var begin := if stime == 0 then clock else stime;
      start := begin;
      avail[p.ch, p.lun] := (if avail[p.ch, p.lun] < begin then begin else avail[p.ch, p.lun]) + lat;
      d := avail[p.ch, p.lun] - begin;
    }

    // ---------- The write pointer ----------

    method AdvanceWritePointer(z: nat)
      requires Valid() && z < zones.Length
      modifies this`written, zones
      ensures Valid() && written == old(written)[z := old(written)[z] + 1]
      ensures forall y :: 0 <= y < zones.Length && y != z ==> zones[y] == old(zones[y])
      ensures zones[z].writePtr == old(zones[z].writePtr)
    {
      ghost var n := written[z];
      assert ZoneOk(z);
      NextPage(g, z, n);
      hide Locate, ZonesPerLun, ZonePages, BlockSize, LunOf, ZoneSectors;
      var wpp := zones[z].wpp;
      var full := zones[z].full;
      wpp := wpp.(ch := wpp.ch + 1);
      if wpp.ch % Chips(g) == 0 {
        wpp := wpp.(ch := Chips(g) * zones[z].fcg, blk := wpp.blk + 1);
        if wpp.blk % End(g) == 0 {
          wpp := wpp.(blk := End(g) * (zones[z].id / g.fcgs) % g.blksPerPl, pg := wpp.pg + 1);
          if wpp.pg == g.pgsPerBlk {
            full := true;
          }
        }
      }
      assert wpp == Locate(g, z, n + 1) && (full <==> n + 1 >= ZonePages(g));
      zones[z] := zones[z].(full := full, wpp := wpp);
      written := written[z := n + 1];
      forall y | 0 <= y < zones.Length ensures ZoneOk(y) {
        assert y != z ==> old(ZoneOk(y));
      }
    }

    // The same step for a page that is being read; tells the end of the zone.
    method NextOf(z: nat, page: Ppa, ghost n: nat) returns (next: Ppa, last: bool)
      requires Valid() && z < zones.Length && page == Locate(g, z, n)
      ensures next == Locate(g, z, n + 1) && (last <==> n + 1 == ZonePages(g))
    {
      NextPage(g, z, n);
      assert ZoneOk(z);
      next, last := page.(ch := page.ch + 1), false;
      if next.ch % Chips(g) == 0 {
        next := next.(ch := Chips(g) * zones[z].fcg, blk := next.blk + 1);
        if next.blk % End(g) == 0 {
          next := next.(blk := End(g) * (zones[z].id / g.fcgs) % g.blksPerPl, pg := next.pg + 1);
          last := next.pg == g.pgsPerBlk;
        }
      }
    }

    // ---------- Writing ----------

    method CheckWrite(z: nat, slba: nat, nlb: nat) returns (faults: set<Fault>)
      requires Valid() && z < zones.Length
      ensures Checked(g, zones[z], slba, nlb, faults)
    {
      faults := {};
      if slba + nlb > g.secsPerPg * g.pgsPerBlk * g.blksPerPl * g.lunsPerCh * g.nchs {
        faults := faults + {OutOfDevice};
      }
      assert ZoneOk(z);
      assert (z + 1) * ZoneSectors(g) == z * ZoneSectors(g) + ZoneSectors(g);
      if slba + nlb > z * ZoneSectors(g) + g.zoneCap / g.secsz {
        faults := faults + {OutOfZone};
      }
      if zones[z].full {
        faults := faults + {ZoneFull};
      }
      if zones[z].writePtr != slba {
        faults := faults + {NotAtPointer};
      }
    }

    method MovePointer(z: nat, nlb: nat)
      requires Valid() && z < zones.Length
      modifies zones
      ensures Valid() && zones[z] == old(zones[z]).(writePtr := old(zones[z].writePtr) + nlb)
      ensures forall y :: 0 <= y < zones.Length && y != z ==> zones[y] == old(zones[y])
    {
      zones[z] := zones[z].(writePtr := zones[z].writePtr + nlb);
      forall y | 0 <= y < zones.Length ensures ZoneOk(y) { assert old(ZoneOk(y)); }
    }

    // One page at the write pointer of a zone.
    method WritePage(z: nat, stime: nat) returns (lat: nat, ghost page: Ppa, ghost start: nat)
      requires Valid() && z < zones.Length
      modifies this`written, zones, avail
      ensures Valid() && page == Locate(g, z, old(written)[z]) && written == old(written)[z := old(written)[z] + 1]
      ensures zones[z].writePtr == old(zones[z].writePtr)
      ensures forall y :: 0 <= y < zones.Length && y != z ==> zones[y] == old(zones[y])
      ensures stime != 0 ==> start == stime
      ensures Times()(page.ch, page.lun) == start + lat == Max(old(Times())(page.ch, page.lun), start) + PROG_LATENCY
      ensures forall c, l :: c != page.ch || l != page.lun ==> Times()(c, l) == old(Times())(c, l)
    {
      hide Locate, BlockSize, End, Chips, LunOf, Group, ZonesPerLun, ZonePages, ZoneSectors;
      var ppa := zones[z].wpp;
      page := ppa;
      assert ZoneOk(z);
      LunInRange(g, z, written[z]);
      AdvanceWritePointer(z);
      var clock: nat := *;
      lat, start := AdvanceStatus(ppa, PROG_LATENCY, stime, clock);
    }

    // Programs pages first to last at the write pointer of a zone.
    method ProgramPages(z: nat, first: nat, last: nat, stime: nat) returns (maxlat: nat, ghost pages: seq<Ppa>)
      requires Valid() && z < zones.Length && first <= last
      modifies this`written, zones, avail
      ensures Valid() && zones[z].writePtr == old(zones[z].writePtr)
      ensures pages == Run(g, z, old(written)[z], last - first + 1)
      ensures written == old(written)[z := old(written)[z] + (last - first + 1)]
      ensures forall y :: 0 <= y < zones.Length && y != z ==> zones[y] == old(zones[y])
      ensures stime != 0 ==> Slowest(pages, old(Times()), stime, PROG_LATENCY, maxlat)
      ensures stime != 0 ==> Timed(old(Times()), Times(), stime, pages, PROG_LATENCY)
    {
      hide Locate, BlockSize, End, Chips, LunOf, Group, ZonesPerLun, ZonePages, ZoneSectors, Slowest, CountOn, Busy,
           ZoneOk, Times, Timed, Run;
      var lpn := first;
      ghost var w, times := written[z], Times();
      maxlat := 0;
      pages := [];
      TimedStart(times, stime, PROG_LATENCY);
      RunNext(g, z, w, 0);
      while lpn <= last
        invariant first <= lpn <= last + 1 && Valid()
        invariant pages == Run(g, z, w, lpn - first) && written == old(written)[z := w + (lpn - first)]
        invariant zones[z].writePtr == old(zones[z].writePtr)
        invariant forall y :: 0 <= y < zones.Length && y != z ==> zones[y] == old(zones[y])
        invariant stime != 0 ==>
                    Slowest(pages, times, stime, PROG_LATENCY, maxlat)
                    && Timed(times, Times(), stime, pages, PROG_LATENCY)
      {
        ghost var now := Times();
        RunNext(g, z, w, lpn - first);
        var curlat;
        ghost var page, start;
        curlat, page, start := WritePage(z, stime);
        if stime != 0 {
          TimedNext(times, now, Times(), stime, pages, page, PROG_LATENCY);
          SlowestNext(pages, page, times, stime, PROG_LATENCY, maxlat, curlat);
        }
        maxlat := if curlat > maxlat then curlat else maxlat;
        pages := pages + [page];
        lpn := lpn + 1;
      }
    }

    // Writes at the pointer of the zone slba lies in.
    method Write(slba: nat, nlb: nat, stime: nat) returns (maxlat: nat, faults: set<Fault>, ghost pages: seq<Ppa>)
      requires Valid() && nlb > 0 && ZoneIndex(g, slba) < zones.Length
      modifies this`written, zones, avail
      ensures Valid() && Checked(g, old(zones[ZoneIndex(g, slba)]), slba, nlb, faults)
      ensures Wrote(g, old(written), written, slba, nlb, pages)
      ensures zones[ZoneIndex(g, slba)].writePtr == old(zones[ZoneIndex(g, slba)].writePtr) + nlb
      ensures forall y :: 0 <= y < zones.Length && y != ZoneIndex(g, slba) ==> zones[y] == old(zones[y])
      // A faultless write of whole pages puts each logical page in its place.
      ensures old(InStep(ZoneIndex(g, slba))) && faults == {} && WholePages(g, nlb) ==>
                InStep(ZoneIndex(g, slba)) && written[ZoneIndex(g, slba)] <= ZonePages(g) && InPlace(g, slba, pages)
      ensures stime != 0 ==> Slowest(pages, old(Times()), stime, PROG_LATENCY, maxlat)
      ensures stime != 0 ==> Timed(old(Times()), Times(), stime, pages, PROG_LATENCY)
    {
      hide *;
      ValidSizes();
      UsableSized(g);
      var z := ZoneIndex(g, slba);
      ZoneFacts(z);
      InStepIs(z);
      ghost var zone, w, n, inStep, before := zones[z], written[z], PagesIn(g, slba, nlb), InStep(z), written;
      PagesOrder(g, slba, nlb);
      faults := CheckWrite(z, slba, nlb);
      MovePointer(z, nlb);
      maxlat, pages := ProgramPages(z, slba / g.secsPerPg, (slba + nlb - 1) / g.secsPerPg, stime);
      WroteIs(g, before, written, slba, nlb, pages, z, n);
      if inStep && faults == {} && WholePages(g, nlb) {
        FaultlessLands(g, zone, w, slba, nlb, faults, pages);
        ValidSizes();
        InStepIs(z);
      }
    }

    lemma ValidSizes()
      requires Valid()
      ensures Usable(g) && zones.Length == |written| == Zones(g) && g.secsPerPg > 0
    {}

    lemma ZoneFacts(z: nat)
      requires Valid() && z < zones.Length
      ensures Usable(g) && zones.Length == |written| == Zones(g) && g.secsPerPg > 0
      ensures zones[z].id == z && zones[z].fcg == Group(g, z) && zones[z].wpp == Locate(g, z, written[z])
      ensures zones[z].full <==> written[z] >= ZonePages(g)
    {
      assert ZoneOk(z);
    }

    lemma InStepIs(z: nat)
      requires Usable(g) && z < zones.Length == |written|
      ensures InStep(z) <==> StepAt(g, z, written[z], zones[z].writePtr)
    {}

    // ---------- Reading ----------

    // One page, and the step to the next.
    method ReadPage(z: nat, ppa: Ppa, stime: nat, ghost n: nat) returns (lat: nat, next: Ppa, end: bool,
                    ghost start: nat)
      requires Valid() && z < zones.Length && ppa == Locate(g, z, n)
      modifies avail
      ensures Valid() && next == Locate(g, z, n + 1) && (end <==> n + 1 == ZonePages(g))
      ensures stime != 0 ==> start == stime
      ensures Times()(ppa.ch, ppa.lun) == start + lat == Max(old(Times())(ppa.ch, ppa.lun), start) + READ_LATENCY
      ensures forall c, l :: c != ppa.ch || l != ppa.lun ==> Times()(c, l) == old(Times())(c, l)
    {
      hide Locate, BlockSize, End, Chips, LunOf, Group, ZonesPerLun, ZoneSectors, ZoneOk, Times, ZonePages;
      LunInRange(g, z, n);
      var clock: nat := *;
      lat, start := AdvanceStatus(ppa, READ_LATENCY, stime, clock);
      next, end := NextOf(z, ppa, n);
    }

    // Visits the pages of a request, crossing from zone to zone.
    method Read(slba: nat, nlb: nat, stime: nat) returns (maxlat: nat, ghost pages: seq<Ppa>)
      requires Valid() && nlb > 0 && slba + nlb <= Zones(g) * ZoneSectors(g)
      modifies avail
      ensures Valid() && |pages| == PagesIn(g, slba, nlb)
      ensures forall i :: 0 <= i < |pages| ==> pages[i] == PhysOf(g, slba / g.secsPerPg + i)
      ensures stime != 0 ==> Slowest(pages, old(Times()), stime, READ_LATENCY, maxlat)
      ensures stime != 0 ==> Timed(old(Times()), Times(), stime, pages, READ_LATENCY)
    {
      hide Locate, BlockSize, End, Chips, LunOf, Group, ZonesPerLun, ZoneSectors, Slowest, CountOn, Busy, ZoneOk, Times,
           Timed, ZoneIndex, ZonePages, Zones, At, PhysOf, InZone;
      ReadRange(g, slba, nlb);
      var z, zoneEnd := ZoneIndex(g, slba), ZoneIndex(g, slba + nlb - 1);
      var lpn, last := slba / g.secsPerPg, (slba + nlb - 1) / g.secsPerPg;
      ghost var first, times, n := lpn, Times(), PagesIn(g, slba, nlb);
      var ppa := Locate(g, z, InZone(g, lpn));
      AtPage(g, lpn, z, ppa);
      maxlat := 0;
      pages := [];
      TimedStart(times, stime, READ_LATENCY);
      while lpn <= last
        invariant first <= lpn <= last + 1 && Valid() && |pages| == lpn - first
        invariant lpn <= last ==> At(g, lpn, z, ppa)
        invariant forall i :: 0 <= i < |pages| ==> pages[i] == PhysOf(g, first + i)
        invariant stime != 0 ==>
                    Slowest(pages, times, stime, READ_LATENCY, maxlat)
                    && Timed(times, Times(), stime, pages, READ_LATENCY)
      {
        ghost var now := Times();
        AtPage(g, lpn, z, ppa);
        AtNext(g, lpn, last, z, ppa, ZonePages(g));
        var sublat, next, end;
        ghost var start;
        sublat, next, end, start := ReadPage(z, ppa, stime, InZone(g, lpn));
        if stime != 0 {
          TimedNext(times, now, Times(), stime, pages, ppa, READ_LATENCY);
          SlowestNext(pages, ppa, times, stime, READ_LATENCY, maxlat, sublat);
        }
        pages := pages + [ppa];
        ppa := next;
        if end && z != zoneEnd {
          z := z + 1;
          ppa := Locate(g, z, 0);
        }
        maxlat := if sublat > maxlat then sublat else maxlat;
        lpn := lpn + 1;
      }
    }

    // ---------- Resetting ----------

    method ResetPointer(z: nat)
      requires Valid() && z < zones.Length
      modifies this`written, zones
      ensures Valid() && InStep(z) && !zones[z].full && written == old(written)[z := 0]
      ensures forall y :: 0 <= y < zones.Length && y != z ==> zones[y] == old(zones[y])
    {
      FirstPage(g, z);
      zones[z] := Zone(zones[z].id, zones[z].id % g.fcgs, false, z * ZoneSectors(g),
                       Ppa(g.nchs / g.fcgs * (z % g.fcgs), LunOf(g, z), End(g) * (z / g.fcgs) % g.blksPerPl, 0));
      written := written[z := 0];
      forall y | 0 <= y < zones.Length ensures ZoneOk(y) { assert old(ZoneOk(y)); }
    }

    // Erases the blocks of a zone in one channel. The source starts from the
    // zone's first block and stops at the next multiple of its height.
    method EraseColumn(ch: nat, lun: nat, start: nat) returns (ghost erased: seq<Block>, ghost begins: seq<nat>)
      requires Usable(g) && ch < avail.Length0 && lun < avail.Length1 && start % End(g) == 0
      modifies avail
      ensures erased == Column(ch, lun, start, End(g))
      ensures |begins| == End(g) && Times()(ch, lun) == Served(old(Times())(ch, lun), begins, ERASE_LATENCY)
      ensures forall c, l :: c != ch || l != lun ==> Times()(c, l) == old(Times())(c, l)
    {
      hide End, Times, ZonesPerLun, ZonePages, ZoneSectors;
      var end := End(g);
      erased, begins := [], [];
      var blk := start;
      while blk == start || blk % end != 0
        invariant start <= blk <= start + end && erased == Column(ch, lun, start, blk - start)
        invariant |begins| == blk - start && Times()(ch, lun) == Served(old(Times())(ch, lun), begins, ERASE_LATENCY)
        invariant forall c, l :: c != ch || l != lun ==> Times()(c, l) == old(Times())(c, l)
        decreases start + end - blk
      {
        NextMultiple(start, end, blk);
        var lat;
        ghost var begin;
        var clock: nat := *;
        lat, begin := AdvanceStatus(Ppa(ch, lun, blk, 0), ERASE_LATENCY, 0, clock);
        ServedNext(old(Times())(ch, lun), begins, begin, ERASE_LATENCY);
        erased, begins := erased + [Block(ch, lun, blk)], begins + [begin];
        blk := blk + 1;
      }
      NextMultiple(start, end, blk);
    }

    method EraseColumns(first: Ppa, stop: nat) returns (ghost erased: seq<Block>, ghost clock: seq<seq<nat>>)
      requires Usable(g) && first.ch <= stop <= avail.Length0 && first.lun < avail.Length1 && first.blk % End(g) == 0
      modifies avail
      ensures erased == Columns(first.ch, first.lun, first.blk, End(g), stop - first.ch)
      ensures ColumnsErased(first, stop, End(g), clock, old(Times()), Times())
    {
      hide End, Times, ColumnsErased;
      ghost var times := Times();
      erased, clock := [], [];
      var ch := first.ch;
      ColumnsStart(first, End(g), times);
      while ch < stop
        invariant first.ch <= ch <= stop
        invariant erased == Columns(first.ch, first.lun, first.blk, End(g), ch - first.ch)
        invariant ColumnsErased(first, ch, End(g), clock, times, Times())
      {
        ghost var now := Times();
        ghost var column, begins := EraseColumn(ch, first.lun, first.blk);
        ColumnsNext(first, ch, End(g), clock, begins, times, now, Times());
        erased, clock := erased + column, clock + [begins];
        ch := ch + 1;
      }
    }

    method EraseZone(z: nat) returns (ghost erased: seq<Block>, ghost clock: seq<seq<nat>>)
      requires Valid() && z < zones.Length && zones[z].wpp == Locate(g, z, 0)
      modifies avail
      ensures erased == ZoneBlocks(g, z) && ZoneErased(g, z, clock, old(Times()), Times())
    {
      hide *;
      ghost var times := Times();
      ZoneFacts(z);
      AvailSizes();
      UsableSized(g);
      ZoneStart(g, z);
      var first := zones[z].wpp;
      erased, clock := EraseColumns(first, GroupEnd(g, zones[z].fcg));
      ColumnsAll(g, z, first, GroupEnd(g, Group(g, z)), clock, times, Times());
    }

    lemma AvailSizes()
      requires Valid()
      ensures avail.Length0 == g.nchs && avail.Length1 == g.lunsPerCh
    {}

    // Erases a zone if it is FULL; other zones are left alone. Each erase reads
    // the clock; `clock` is what it read.
    method Reset(slba: nat) returns (ghost erased: seq<Block>, ghost clock: seq<seq<nat>>)
      requires Valid() && ZoneIndex(g, slba) < zones.Length
      modifies this`written, zones, avail
      ensures Valid()
      ensures var z := ZoneIndex(g, slba);
              if old(zones[ZoneIndex(g, slba)].full) then
                && InStep(z) && !zones[z].full && written == old(written)[z := 0]
                && (forall y :: 0 <= y < zones.Length && y != z ==> zones[y] == old(zones[y]))
                && erased == ZoneBlocks(g, z) && ZoneErased(g, z, clock, old(Times()), Times())
              else
                && erased == [] && written == old(written) && Times() == old(Times())
                && forall y :: 0 <= y < zones.Length ==> zones[y] == old(zones[y])
    {
      hide Locate, BlockSize, End, LunOf, BlockStart, ZonesPerLun, ZonePages, ZoneSectors, Chips, Group, ZoneIndex,
           Times, ZoneErased;
      var z := ZoneIndex(g, slba);
      erased, clock := [], [];
      if !zones[z].full {
        return;
      }
      ResetPointer(z);
      assert ZoneOk(z);
      erased, clock := EraseZone(z);
    }
  }

  // The reader is at a logical page: the zone and the page within it.
  ghost predicate At(g: Geometry, lpn: nat, z: nat, ppa: Ppa)
    requires Usable(g)
  {
    z == lpn / ZonePages(g) && ppa == PhysOf(g, lpn)
  }

  function InZone(g: Geometry, lpn: nat): nat
    requires Usable(g)
  {
    lpn % ZonePages(g)
  }

  lemma AtPage(g: Geometry, lpn: nat, z: nat, ppa: Ppa)
    requires Usable(g)
    ensures At(g, lpn, z, ppa) <==> z == lpn / ZonePages(g) && ppa == Locate(g, z, InZone(g, lpn))
    ensures At(g, lpn, z, ppa) ==> ppa == PhysOf(g, lpn)
  {}

  lemma NextLpn(lpn: nat, last: nat, p: nat)
    requires p > 0 && lpn <= last
    ensures lpn / p <= last / p
    ensures lpn % p + 1 == p ==> (lpn + 1) / p == lpn / p + 1 && (lpn + 1) % p == 0
    ensures lpn % p + 1 == p && lpn < last ==> lpn / p < last / p
    ensures lpn % p + 1 != p ==> (lpn + 1) / p == lpn / p && (lpn + 1) % p == lpn % p + 1
  {
    Tick(lpn, p, 0);
    DivMonotone(lpn, last, p);
    if lpn < last { DivMonotone(lpn + 1, last, p); }
  }

  // The step from one logical page to the next, also into the next zone.
  lemma AtNext(g: Geometry, lpn: nat, last: nat, z: nat, ppa: Ppa, p: nat)
    requires Usable(g) && p == ZonePages(g) && At(g, lpn, z, ppa) && lpn <= last
    ensures z <= last / p
    ensures InZone(g, lpn) + 1 != p ==> At(g, lpn + 1, z, Locate(g, z, InZone(g, lpn) + 1))
    ensures InZone(g, lpn) + 1 == p ==> At(g, lpn + 1, z + 1, Locate(g, z + 1, 0))
    ensures InZone(g, lpn) + 1 == p && lpn < last ==> z < last / p
  {
    AtMeans(g, lpn, z, ppa, p);
    NextLpn(lpn, last, p);
    if InZone(g, lpn) + 1 != p {
      AtIs(g, lpn + 1, z, InZone(g, lpn) + 1, p);
    } else {
      AtIs(g, lpn + 1, z + 1, 0, p);
    }
    hide *;
  }

  lemma AtMeans(g: Geometry, lpn: nat, z: nat, ppa: Ppa, p: nat)
    requires Usable(g) && p == ZonePages(g) && At(g, lpn, z, ppa)
    ensures z == lpn / p && InZone(g, lpn) == lpn % p
  {}

  lemma AtIs(g: Geometry, lpn: nat, z: nat, w: nat, p: nat)
    requires Usable(g) && p == ZonePages(g) && lpn / p == z && lpn % p == w
    ensures At(g, lpn, z, Locate(g, z, w))
  {}

  // The zones a request within the device touches.
  lemma ReadRange(g: Geometry, slba: nat, nlb: nat)
    requires Usable(g) && nlb > 0 && slba + nlb <= Zones(g) * ZoneSectors(g)
    ensures ZoneIndex(g, slba) == slba / g.secsPerPg / ZonePages(g)
    ensures ZoneIndex(g, slba + nlb - 1) == (slba + nlb - 1) / g.secsPerPg / ZonePages(g) < Zones(g)
  {
    SectorZone(g, slba);
    SectorZone(g, slba + nlb - 1);
    DivBelow(slba + nlb - 1, Zones(g), ZoneSectors(g));
  }

  lemma DivMonotone(a: nat, b: nat, d: nat)
    requires a <= b && d > 0
    ensures a / d <= b / d
  {
    DivAtLeast(b, a / d, d);
  }

  lemma NextMultiple(start: nat, end: nat, blk: nat)
    requires end > 0 && start % end == 0 && start <= blk <= start + end
    ensures blk % end == 0 <==> blk == start || blk == start + end
  {
    if blk < start + end {
      DivUnique(blk, end, start / end, blk - start);
    } else {
      assert (start / end + 1) * end == start / end * end + end;
      DivMulBack(start / end + 1, end);
    }
  }

  // The first page of a zone, and the channels of its group.
  lemma ZoneStart(g: Geometry, z: nat)
    requires Usable(g) && z < Zones(g)
    ensures var p := Locate(g, z, 0);
            && p == Ppa(Chips(g) * Group(g, z), LunOf(g, z), BlockStart(g, z), 0)
            && p.blk % End(g) == 0 && p.lun < g.lunsPerCh && p.ch <= GroupEnd(g, Group(g, z)) <= g.nchs
            && Columns(p.ch, p.lun, p.blk, End(g), GroupEnd(g, Group(g, z)) - p.ch) == ZoneBlocks(g, z)
  {
    assert GroupEnd(g, Group(g, z)) == Chips(g) * Group(g, z) + Chips(g);
    FirstPage(g, z);
    Derived(g);
    ZoneParts(g, z);
    BlockStartIs(g, z);
    Commute(End(g), z / g.fcgs % Rows(g));
    DivMulBack(z / g.fcgs % Rows(g), End(g));
    MulMonotone(Group(g, z), g.fcgs, Chips(g));
    Commute(Chips(g), Group(g, z));
    Commute(Chips(g), g.fcgs);
  }

  // The LUN of a page exists, even past the end of its zone.
  lemma LunInRange(g: Geometry, id: nat, n: nat)
    requires Usable(g) && id < Zones(g)
    ensures Locate(g, id, n).ch < g.nchs && Locate(g, id, n).lun < g.lunsPerCh
  {
    Derived(g);
    ZoneParts(g, id);
    SlotBelow(Group(g, id), g.fcgs, n % Chips(g), Chips(g));
  }

  // Where a zone starts, in sectors and on the flash.
  lemma FirstPage(g: Geometry, id: nat)
    requires Usable(g)
    ensures id * g.zoneCap / g.secsz == id * ZoneSectors(g)
    ensures Locate(g, id, 0) == Ppa(Chips(g) * Group(g, id), LunOf(g, id), BlockStart(g, id), 0)
  {
    PagesDerived(g);
    var s := g.secsPerPg * ZonePages(g);
    WholeSectors(g);
    assert id * (s * g.secsz) == id * s * g.secsz;
    DivMulBack(id * s, g.secsz);
    Commute(Chips(g), Group(g, id));
  }

  lemma WholeSectors(g: Geometry)
    requires Usable(g)
    ensures g.zoneCap == ZoneSectors(g) * g.secsz
  {
    var m := g.secsPerPg * g.pgsPerBlk * Chips(g) * End(g);
    assert g.zoneCap == m * g.secsz;
    DivMulBack(m, g.secsz);
  }
}
