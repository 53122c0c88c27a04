// Where the pages of a zone lie on the flash.
module Geometries {
  import opened Arithmetic

  // Sizes of the device, with one plane per LUN; zoneCap is in bytes.
  datatype Geometry = Geometry(
    secsz: nat, secsPerPg: nat, pgsPerBlk: nat, blksPerPl: nat, lunsPerCh: nat, nchs: nat,
    fcgs: nat, zoneCap: nat)

  // A physical page: channel, LUN of the channel, block, page of the block.
  datatype Ppa = Ppa(ch: nat, lun: nat, blk: nat, pg: nat)

  predicate Positive(g: Geometry) {
    g.secsz > 0 && g.secsPerPg > 0 && g.pgsPerBlk > 0 && g.blksPerPl > 0 && g.lunsPerCh > 0 && g.nchs > 0
    && g.fcgs > 0 && g.zoneCap > 0
  }

  // Channels of a group.
  function Chips(g: Geometry): nat
    requires Positive(g)
  {
    g.nchs / g.fcgs
  }

  function BlockSize(g: Geometry): (r: nat)
    requires Positive(g)
    ensures r > 0
  {
    MulMonotone(1, g.secsz, g.secsPerPg);
    MulMonotone(1, g.secsz * g.secsPerPg, g.pgsPerBlk);
    g.secsz * g.secsPerPg * g.pgsPerBlk
  }

  predicate Sized(g: Geometry) { Positive(g) && Chips(g) > 0 }

  // Blocks a zone has in each channel of its group.
  function End(g: Geometry): nat
    requires Sized(g)
  {
    g.zoneCap / BlockSize(g) / Chips(g)
  }

  // The groups divide the channels, a zone is a whole number of block rows of
  // its group, and a plane is a whole number of zones.
  predicate Regular(g: Geometry) {
    && Sized(g) && g.nchs % g.fcgs == 0
    && End(g) > 0 && g.zoneCap == BlockSize(g) * Chips(g) * End(g)
    && g.blksPerPl % End(g) == 0
  }

  function FlashSize(g: Geometry): nat
    requires Positive(g)
  {
    BlockSize(g) * g.blksPerPl * g.lunsPerCh * g.nchs
  }

  // The device is the whole flash.
  function Zones(g: Geometry): nat
    requires Positive(g)
  {
    FlashSize(g) / g.zoneCap
  }

  // Zones that share a LUN number.
  function ZonesPerLun(g: Geometry): nat
    requires Positive(g)
  {
    g.blksPerPl * BlockSize(g) * g.nchs / g.zoneCap
  }

  function ZoneSectors(g: Geometry): nat
    requires Positive(g)
  {
    g.zoneCap / g.secsz
  }

  function ZonePages(g: Geometry): nat
    requires Positive(g) && g.secsPerPg * g.secsz > 0
  {
    g.zoneCap / (g.secsPerPg * g.secsz)
  }

  // Rows of zones in a plane.
  function Rows(g: Geometry): nat
    requires Regular(g)
  {
    g.blksPerPl / End(g)
  }

  function Group(g: Geometry, id: nat): nat
    requires Positive(g)
  {
    id % g.fcgs
  }

  function LunOf(g: Geometry, id: nat): nat
    requires Positive(g) && ZonesPerLun(g) > 0
  {
    id / ZonesPerLun(g)
  }

  function BlockStart(g: Geometry, id: nat): nat
    requires Sized(g)
  {
    End(g) * (id / g.fcgs) % g.blksPerPl
  }

  // ---------- What a regular geometry comes to ----------

  lemma Reorder(e: nat, r: nat, b: nat, f: nat, c: nat)
    ensures e * r * b * (f * c) == b * c * e * (r * f)
  {
    assert e * r * b * (f * c) == b * c * e * r * f;
    assert b * c * e * (r * f) == b * c * e * r * f;
  }

  lemma Tiles(cap: nat, b: nat, c: nat, e: nat, r: nat, f: nat, l: nat)
    requires cap > 0 && cap == b * c * e
    ensures e * r * b * (f * c) / cap == r * f
    ensures b * (e * r) * l * (f * c) / cap == r * f * l
  {
    Reorder(e, r, b, f, c);
    DivUnique(e * r * b * (f * c), cap, r * f, 0);
    assert b * (e * r) * l * (f * c) == e * r * b * (f * c) * l;
    assert r * f * cap * l == r * f * l * cap;
    DivUnique(b * (e * r) * l * (f * c), cap, r * f * l, 0);
  }

  lemma FactorPositive(e: nat, r: nat)
    requires e * r > 0
    ensures r > 0
  {}

  lemma Derived(g: Geometry)
    requires Regular(g)
    ensures g.nchs == g.fcgs * Chips(g) && g.blksPerPl == End(g) * Rows(g) && Rows(g) > 0
    ensures Rows(g) * g.fcgs > 0 && ZonesPerLun(g) == Rows(g) * g.fcgs
    ensures Zones(g) == Rows(g) * g.fcgs * g.lunsPerCh
  {
    var e, r, b, f, c := End(g), Rows(g), BlockSize(g), g.fcgs, Chips(g);
    hide BlockSize, End;
    assert g.nchs == f * c && g.blksPerPl == e * r;
    FactorPositive(e, r);
    MulMonotone(1, r, f);
    Tiles(g.zoneCap, b, c, e, r, f, g.lunsPerCh);
  }

  lemma PagesDerived(g: Geometry)
    requires Regular(g)
    ensures g.secsPerPg * g.secsz > 0
    ensures ZonePages(g) == Chips(g) * End(g) * g.pgsPerBlk && ZonePages(g) > 0
    ensures ZoneSectors(g) == g.secsPerPg * ZonePages(g)
  {
    var e, c, s, p, k := End(g), Chips(g), g.secsz, g.secsPerPg, g.pgsPerBlk;
    var n := c * e * k;
    assert p * s > 0 by { MulMonotone(1, p, s); }
    assert g.zoneCap == s * p * k * c * e;
    assert s * p * k * c * e == n * (p * s);
    DivUnique(g.zoneCap, p * s, n, 0);
    assert n * (p * s) == (p * n) * s;
    DivUnique(g.zoneCap, s, p * n, 0);
    assert n > 0 by { MulMonotone(1, c, e); MulMonotone(1, c * e, k); }
  }

  // A zone starts at a multiple of its rows of blocks.
  lemma BlockStartIs(g: Geometry, id: nat)
    requires Regular(g)
    ensures Rows(g) > 0 && BlockStart(g, id) == End(g) * (id / g.fcgs % Rows(g))
  {
    Derived(g);
    ModScale(End(g), id / g.fcgs, Rows(g));
  }

  // ---------- Locating a page ----------

  // Page n of a zone with e blocks in each of the c channels of its group.
  function PageIn(c: nat, e: nat, group: nat, lun: nat, start: nat, n: nat): Ppa
    requires c > 0 && e > 0
  {
    Ppa(Radix(group, c, n % c), lun, n / c % e + start, n / c / e)
  }

  function Locate(g: Geometry, id: nat, n: nat): Ppa
    requires Sized(g) && End(g) > 0 && ZonesPerLun(g) > 0
  {
    PageIn(Chips(g), End(g), Group(g, id), LunOf(g, id), BlockStart(g, id), n)
  }

  predicate OnFlash(g: Geometry, p: Ppa) {
    p.ch < g.nchs && p.lun < g.lunsPerCh && p.blk < g.blksPerPl && p.pg < g.pgsPerBlk
  }

  // The zone a physical page belongs to.
  function ZoneAt(g: Geometry, p: Ppa): nat
    requires Regular(g)
  {
    Radix(Radix(p.lun, Rows(g), p.blk / End(g)), g.fcgs, p.ch / Chips(g))
  }

  // Its number in that zone.
  function NumberAt(g: Geometry, p: Ppa): nat
    requires Regular(g)
  {
    Radix(Radix(p.pg, End(g), p.blk % End(g)), Chips(g), p.ch % Chips(g))
  }

  // The group, row and LUN of a zone.
  lemma ZoneParts(g: Geometry, id: nat)
    requires Regular(g) && id < Zones(g)
    ensures Positive(g) && ZonesPerLun(g) > 0 && Rows(g) > 0
    ensures var row := id / g.fcgs % Rows(g);
            && LunOf(g, id) < g.lunsPerCh && row < Rows(g) && Group(g, id) < g.fcgs
            && id == (LunOf(g, id) * Rows(g) + row) * g.fcgs + Group(g, id)
  {
    RegularSized(g);
    Derived(g);
    GroupIs(g, id);
    hide *;
    SplitBack(id, g.fcgs, Rows(g), g.lunsPerCh);
  }

  lemma GroupIs(g: Geometry, id: nat)
    requires Positive(g) && ZonesPerLun(g) > 0
    ensures Group(g, id) == id % g.fcgs && LunOf(g, id) == id / ZonesPerLun(g)
  {
    hide ZonesPerLun;
  }

  lemma SplitBack(id: nat, f: nat, r: nat, l: nat)
    requires f > 0 && r > 0 && r * f > 0 && id < r * f * l
    ensures id / (r * f) < l && id == (id / (r * f) * r + id / f % r) * f + id % f
  {
    DivTwice(id, f, r);
    Commute(f, r);
    Commute(r * f, l);
    DivBelow(id, l, r * f);
    QuotientRemainder(id, f);
    QuotientRemainder(id / f, r);
  }

  // The row, block and channel of a page number.
  lemma PageParts(g: Geometry, n: nat)
    requires Regular(g)
    ensures g.secsPerPg * g.secsz > 0
    ensures n < ZonePages(g) <==> n / Chips(g) / End(g) < g.pgsPerBlk
    ensures n == (n / Chips(g) / End(g) * End(g) + n / Chips(g) % End(g)) * Chips(g) + n % Chips(g)
  {
    PagesDerived(g);
    var c, e, k := Chips(g), End(g), g.pgsPerBlk;
    DivTwice(n, c, e);
    Commute(c * e, k);
    if n < k * (c * e) {
      DivBelow(n, k, c * e);
    } else {
      DivAtLeast(n, k, c * e);
    }
  }

  // From the physical page its zone and number can be read back: no two pages
  // of the device share one.
  lemma LocateBack(g: Geometry, id: nat, n: nat)
    requires Regular(g) && id < Zones(g) && g.secsPerPg * g.secsz > 0 && n < ZonePages(g)
    ensures ZonesPerLun(g) > 0 && OnFlash(g, Locate(g, id, n))
    ensures ZoneAt(g, Locate(g, id, n)) == id && NumberAt(g, Locate(g, id, n)) == n
  {
    Derived(g);
    ZoneParts(g, id);
    PageParts(g, n);
    BlockStartIs(g, id);
    var p, row := Locate(g, id, n), id / g.fcgs % Rows(g);
    var b := n / Chips(g) % End(g);
    Commute(End(g), row);
    DivUnique(p.ch, Chips(g), Group(g, id), n % Chips(g));
    DivUnique(p.blk, End(g), row, b);
    SlotBelow(Group(g, id), g.fcgs, n % Chips(g), Chips(g));
    SlotBelow(row, Rows(g), b, End(g));
    Commute(End(g), Rows(g));
  }

  // Every physical page is some page of some zone.
  lemma LocateOnto(g: Geometry, p: Ppa)
    requires Regular(g) && OnFlash(g, p)
    ensures g.secsPerPg * g.secsz > 0 && ZoneAt(g, p) < Zones(g) && NumberAt(g, p) < ZonePages(g)
    ensures Sized(g) && End(g) > 0 && ZonesPerLun(g) > 0 && Locate(g, ZoneAt(g, p), NumberAt(g, p)) == p
  {
    hide *;
    RegularSized(g);
    ZoneOnto(g, p);
    NumberOnto(g, p);
    BlockStartIs(g, ZoneAt(g, p));
    LocateIs(g, ZoneAt(g, p), NumberAt(g, p));
    QuotientRemainder(p.ch, Chips(g));
    QuotientRemainder(p.blk, End(g));
    Commute(End(g), p.blk / End(g));
  }

  lemma RegularSized(g: Geometry)
    requires Regular(g)
    ensures Positive(g) && Sized(g) && End(g) > 0 && Chips(g) > 0 && g.fcgs > 0
  {}

  lemma LocateIs(g: Geometry, id: nat, n: nat)
    requires Sized(g) && End(g) > 0 && Chips(g) > 0 && ZonesPerLun(g) > 0
    ensures Locate(g, id, n) == Ppa(Group(g, id) * Chips(g) + n % Chips(g), LunOf(g, id),
                                    n / Chips(g) % End(g) + BlockStart(g, id), n / Chips(g) / End(g))
  {
    hide Chips, End, BlockSize, ZonesPerLun, Group, LunOf, BlockStart;
  }

  lemma ZoneOnto(g: Geometry, p: Ppa)
    requires Regular(g) && OnFlash(g, p)
    ensures ZonesPerLun(g) > 0 && Rows(g) > 0
    ensures var id := ZoneAt(g, p);
            && id < Zones(g) && Group(g, id) == p.ch / Chips(g)
            && id / g.fcgs % Rows(g) == p.blk / End(g) && LunOf(g, id) == p.lun
  {
    Derived(g);
    Commute(End(g), Rows(g));
    DivBelow(p.blk, Rows(g), End(g));
    DivBelow(p.ch, g.fcgs, Chips(g));
    hide Regular, Zones, ZonesPerLun, End, Chips, BlockSize, Rows;
    Split(p.lun, Rows(g), p.blk / End(g), g.fcgs, p.ch / Chips(g), g.lunsPerCh);
  }

  lemma Split(a: nat, r: nat, b: nat, f: nat, c: nat, l: nat)
    requires b < r && c < f && a < l
    ensures r * f > 0
    ensures var id := Radix(Radix(a, r, b), f, c);
            id % f == c && id / f % r == b && id / (r * f) == a && id < r * f * l
  {
    var id := Radix(Radix(a, r, b), f, c);
    DivUnique(id, f, Radix(a, r, b), c);
    DivUnique(Radix(a, r, b), r, a, b);
    MulMonotone(1, r, f);
    DivTwice(id, f, r);
    Commute(f, r);
    SlotBelow(a, l, b, r);
    SlotBelow(Radix(a, r, b), l * r, c, f);
    assert l * r * f == r * f * l;
  }

  lemma NumberOnto(g: Geometry, p: Ppa)
    requires Regular(g) && OnFlash(g, p)
    ensures g.secsPerPg * g.secsz > 0
    ensures var n := NumberAt(g, p);
            && n < ZonePages(g) && n % Chips(g) == p.ch % Chips(g)
            && n / Chips(g) % End(g) == p.blk % End(g) && n / Chips(g) / End(g) == p.pg
  {
    PagesDerived(g);
    var n, q := NumberAt(g, p), Radix(p.pg, End(g), p.blk % End(g));
    DivUnique(n, Chips(g), q, p.ch % Chips(g));
    DivUnique(q, End(g), p.pg, p.blk % End(g));
    PageParts(g, n);
  }

  // ---------- From one page to the next ----------

  lemma Tick(n: nat, c: nat, k: nat)
    requires c > 0
    ensures if n % c + 1 < c
      then (n + 1) / c == n / c && (n + 1) % c == n % c + 1
      else (n + 1) / c == n / c + 1 && (n + 1) % c == 0
    ensures (k * c + n % c + 1) % c == 0 <==> n % c + 1 == c
  {
    var q, r := n / c, n % c;
    assert n == q * c + r;
    if r + 1 < c {
      DivUnique(n + 1, c, q, r + 1);
      DivUnique(k * c + r + 1, c, k, r + 1);
    } else {
      assert (q + 1) * c == q * c + c && (k + 1) * c == k * c + c;
      DivUnique(n + 1, c, q + 1, 0);
      DivUnique(k * c + r + 1, c, k + 1, 0);
    }
  }

  // Channel by channel, then block by block, then page by page.
  lemma NextPage(g: Geometry, id: nat, n: nat)
    requires Regular(g) && ZonesPerLun(g) > 0 && g.secsPerPg * g.secsz > 0
    ensures var p, next := Locate(g, id, n), Locate(g, id, n + 1);
            if (p.ch + 1) % Chips(g) != 0 then
              next == p.(ch := p.ch + 1) && n + 1 != ZonePages(g)
            else if (p.blk + 1) % End(g) != 0 then
              next == Ppa(Chips(g) * Group(g, id), p.lun, p.blk + 1, p.pg) && n + 1 != ZonePages(g)
            else
              && next == Ppa(Chips(g) * Group(g, id), p.lun, BlockStart(g, id), p.pg + 1)
              && (p.pg + 1 == g.pgsPerBlk <==> n + 1 == ZonePages(g))
  {
    BlockStartIs(g, id);
    PagesDerived(g);
    NextParts(Chips(g), End(g), g.pgsPerBlk, Group(g, id), id / g.fcgs % Rows(g), n);
    hide Regular, ZonesPerLun, End, Chips, BlockSize, Rows, BlockStart, Group, LunOf, ZonePages;
    Commute(End(g), id / g.fcgs % Rows(g));
    Commute(Chips(g), Group(g, id));
  }

  lemma NextParts(c: nat, e: nat, k: nat, group: nat, row: nat, n: nat)
    requires c > 0 && e > 0
    ensures var ch, blk := n % c + group * c, n / c % e + row * e;
            if (ch + 1) % c != 0 then
              (n + 1) % c == n % c + 1 && (n + 1) / c == n / c && n + 1 != c * e * k
            else if (blk + 1) % e != 0 then
              && (n + 1) % c == 0 && (n + 1) / c % e == n / c % e + 1 && (n + 1) / c / e == n / c / e
              && n + 1 != c * e * k
            else
              && (n + 1) % c == 0 && (n + 1) / c % e == 0 && (n + 1) / c / e == n / c / e + 1
              && (n / c / e + 1 == k <==> n + 1 == c * e * k)
  {
    Tick(n, c, group);
    Tick(n / c, e, row);
    PageCount(c, e, k);
    if n + 1 != c * e * k {
      if (n + 1) % c == 0 && (n + 1) / c % e == 0 && (n + 1) / c / e == k { Whole(n + 1, c, e, k); }
    }
  }

  lemma PageCount(c: nat, e: nat, k: nat)
    requires c > 0 && e > 0
    ensures c * e * k % c == 0 && c * e * k / c % e == 0 && c * e * k / c / e == k
  {
    assert c * e * k == (k * e) * c;
    DivMulBack(k * e, c);
    DivMulBack(k, e);
  }

  // A number with no channel and no block part is a whole number of pages.
  lemma Whole(m: nat, c: nat, e: nat, k: nat)
    requires c > 0 && e > 0 && m % c == 0 && m / c % e == 0 && m / c / e == k
    ensures m == c * e * k
  {
    assert m == (k * e) * c;
  }
}
