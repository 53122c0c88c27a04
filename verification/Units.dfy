// The queues of free zones and the LUNs of the flash: when a queue stands for
// the LUNs its zones lie on.
module Units {
  import opened Arithmetic
  import opened Geometries
  import opened QueueCaches

  // The two zones lie on the same LUNs.
  ghost predicate SameUnit(g: Geometry, y: nat, z: nat)
    requires Positive(g) && ZonesPerLun(g) > 0
  {
    Group(g, y) == Group(g, z) && LunOf(g, y) == LunOf(g, z)
  }

  ghost predicate Meet(g: Geometry, y: nat, z: nat, n: nat, m: nat)
    requires Regular(g) && ZonesPerLun(g) > 0
  {
    Locate(g, y, n).ch == Locate(g, z, m).ch && Locate(g, y, n).lun == Locate(g, z, m).lun
  }

  // Zones of different units share no LUN, zones of one unit share all.
  lemma UnitsApart(g: Geometry, y: nat, z: nat, n: nat, m: nat)
    requires Regular(g) && ZonesPerLun(g) > 0
    ensures Meet(g, y, z, n, m) ==> SameUnit(g, y, z)
    ensures SameUnit(g, y, z) ==> (Meet(g, y, z, n, m) <==> n % Chips(g) == m % Chips(g))
  {
    LocateIs(g, y, n);
    LocateIs(g, z, m);
    hide LunOf, Group, End, Chips, BlockSize, BlockStart, Locate;
    DivUnique(Locate(g, y, n).ch, Chips(g), Group(g, y), n % Chips(g));
    DivUnique(Locate(g, z, m).ch, Chips(g), Group(g, z), m % Chips(g));
  }

  // With two groups and as many zones to a queue as a plane has rows of zones,
  // the queue is the unit.
  lemma QueueIsUnit(g: Geometry, z: nat)
    requires Regular(g) && g.fcgs == 2
    ensures Rows(g) > 0 && ZonesPerLun(g) > 0
    ensures QueueOf(z, Rows(g)) == 2 * LunOf(g, z) + Group(g, z)
  {
    Derived(g);
    DivTwice(z, 2, Rows(g));
    hide Regular, End, BlockSize, Chips, Zones;
    Commute(2, Rows(g));
  }

  ghost predicate QueuesFollowUnits(g: Geometry)
    requires Regular(g) && Rows(g) > 0 && ZonesPerLun(g) > 0
  {
    forall y, z :: 0 <= y < Zones(g) && 0 <= z < Zones(g) ==> Follows(g, y, z)
  }

  ghost predicate Follows(g: Geometry, y: nat, z: nat)
    requires Regular(g) && Rows(g) > 0 && ZonesPerLun(g) > 0
  {
    QueueOf(y, Rows(g)) == QueueOf(z, Rows(g)) <==> SameUnit(g, y, z)
  }

  // The manager takes the rows of a plane for the zones of a queue. Two zones
  // then share a queue exactly when they share their LUNs, on a device of two
  // groups, or with one row of zones, and on no other.
  lemma QueuesAreUnits(g: Geometry)
    requires Regular(g)
    ensures Rows(g) > 0 && ZonesPerLun(g) > 0
    ensures QueuesFollowUnits(g) <==> g.fcgs == 2 || Rows(g) == 1
  {
    Derived(g);
    var f, r, l := g.fcgs, Rows(g), g.lunsPerCh;
    ManyZones(r, f, l);
    hide Regular, End, BlockSize, Chips, Zones, ZonesPerLun, Rows;
    if f == 2 {
      forall y, z | 0 <= y < Zones(g) && 0 <= z < Zones(g) ensures Follows(g, y, z) {
        QueueIsUnit(g, y);
        QueueIsUnit(g, z);
        hide QueueOf;
      }
    } else if r == 1 {
      forall y, z | 0 <= y < Zones(g) && 0 <= z < Zones(g) ensures Follows(g, y, z) { OneRow(g, y, z); }
    } else if f == 1 {
      SmallZones(r);
      assert !Follows(g, 0, 1);
    } else {
      SmallZones(r);
      BelowGroups(r, f);
      assert !Follows(g, 0, 2);
    }
  }

  lemma ManyZones(r: nat, f: nat, l: nat)
    requires r > 0 && f > 0 && l > 0
    ensures r * f * l >= r * f >= r && r * f >= f
  {
    MulMonotone(1, f, r);
    Commute(r, f);
    MulMonotone(1, r, f);
    MulMonotone(1, l, r * f);
    Commute(r * f, l);
  }

  lemma SmallZones(r: nat)
    requires r > 1
    ensures QueueOf(0, r) == 0 && QueueOf(1, r) == 1 && QueueOf(2, r) == 0
  {}

  lemma BelowGroups(r: nat, f: nat)
    requires r > 1 && f > 2
    ensures r * f > 2 && 2 / (r * f) == 0 && 0 / (r * f) == 0 && 2 % f == 2 && 0 % f == 0
  {
    MulMonotone(2, r, f);
    var p := r * f;
    DivUnique(2, p, 0, 2);
    DivUnique(0, p, 0, 0);
    DivUnique(2, f, 0, 2);
    DivUnique(0, f, 0, 0);
  }

  lemma OneRow(g: Geometry, y: nat, z: nat)
    requires Regular(g) && Rows(g) == 1 && ZonesPerLun(g) == Rows(g) * g.fcgs > 0
    ensures Follows(g, y, z)
  {
    hide Regular, End, BlockSize, Chips, Zones, ZonesPerLun, Rows;
    QuotientRemainder(y, g.fcgs);
    QuotientRemainder(z, g.fcgs);
    assert y / 2 / 1 == y / 2 && z / 2 / 1 == z / 2;
  }

  // The j-th zone a new manager opens comes from queue j, round and round: as
  // many open zones as there are queues lie in different ones.
  lemma OpenQueues(open: seq<nat>, n: nat, div: nat, j: nat)
    requires n > 0 && div > 0 && j < |open| && j / n < div
    requires open[j] == 2 * (j % n / 2 * div + j / n) + j % n % 2
    ensures QueueOf(open[j], div) == j % n
  {
    QueueZones(j % n, j / n, 0, div);
  }

  // ---------- The device of the source ----------

  const DEVICE := Geometry(512, 32, 1024, 512, 8, 8, 1, 1024 * 1024 * 512)
  const OPEN_ZONES := 16
  const SLOTS := 8

  // It is regular, and large enough for every assumption about devices.
  lemma DeviceIs()
    ensures Regular(DEVICE) && Rows(DEVICE) == 128 && ZonesPerLun(DEVICE) == 128 && Zones(DEVICE) == 1024
    ensures Chips(DEVICE) == 8 && End(DEVICE) == 4 && DEVICE.secsPerPg * DEVICE.secsz == 16 * 1024
    ensures ZonePages(DEVICE) == SLOTS * 4096 && SLOTS * 4096 * 16 * 1024 == DEVICE.zoneCap
    ensures 20 * OPEN_ZONES <= 19 * Zones(DEVICE) && 20 * SLOTS <= Zones(DEVICE)
    ensures forall z :: 0 <= z < Zones(DEVICE) ==> QueueOf(z, Rows(DEVICE)) < Zones(DEVICE) / Rows(DEVICE) == 8
  {}

  // It has one group, so its queues do not follow its LUNs: zones 0 and 1 share
  // all their LUNs and no queue.
  lemma DeviceQueues()
    ensures Regular(DEVICE) && Rows(DEVICE) > 0 && ZonesPerLun(DEVICE) > 0 && !QueuesFollowUnits(DEVICE)
    ensures SameUnit(DEVICE, 0, 1) && QueueOf(0, Rows(DEVICE)) != QueueOf(1, Rows(DEVICE))
  {
    DeviceIs();
    QueuesAreUnits(DEVICE);
  }

  // The zones a new manager opens lie on every other LUN only.
  lemma DeviceOpen(open: seq<nat>, j: nat)
    requires |open| == OPEN_ZONES && j < OPEN_ZONES
    requires open[j] == 2 * (j % 8 / 2 * 128 + j / 8) + j % 8 % 2
    ensures ZonesPerLun(DEVICE) > 0 && LunOf(DEVICE, open[j]) == 2 * (j % 8 / 2) && LunOf(DEVICE, open[j]) % 2 == 0
  {
    DeviceIs();
    DivUnique(open[j], 128, 2 * (j % 8 / 2), 2 * (j / 8) + j % 2);
  }
}
