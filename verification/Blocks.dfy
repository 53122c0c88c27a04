// The blocks of a zone, in the order a reset erases them.
module Blocks {
  import opened Arithmetic
  import opened Geometries

  datatype Block = Block(ch: nat, lun: nat, blk: nat)

  // k blocks of one channel, from block `start` on.
  function Column(ch: nat, lun: nat, start: nat, k: nat): (r: seq<Block>)
    ensures |r| == k && forall i :: 0 <= i < k ==> r[i] == Block(ch, lun, start + i)
  {
    if k == 0 then [] else Column(ch, lun, start, k - 1) + [Block(ch, lun, start + k - 1)]
  }

  // k blocks of each of m channels, from channel `ch` on.
  function Columns(ch: nat, lun: nat, start: nat, k: nat, m: nat): seq<Block> {
    if m == 0 then [] else Columns(ch, lun, start, k, m - 1) + Column(ch + m - 1, lun, start, k)
  }

  ghost predicate Once(s: seq<Block>) {
    forall i, j :: 0 <= i < j < |s| ==> s[i] != s[j]
  }

  lemma {:induction false} ColumnsOnce(ch: nat, lun: nat, start: nat, k: nat, m: nat)
    ensures Once(Columns(ch, lun, start, k, m))
    ensures forall b :: b in Columns(ch, lun, start, k, m) <==>
              b.lun == lun && ch <= b.ch < ch + m && start <= b.blk < start + k
  {
    if m > 0 {
      ColumnsOnce(ch, lun, start, k, m - 1);
      var a, c := Columns(ch, lun, start, k, m - 1), Column(ch + m - 1, lun, start, k);
      forall b ensures b in c <==> b.lun == lun && b.ch == ch + m - 1 && start <= b.blk < start + k {
        if b.lun == lun && b.ch == ch + m - 1 && start <= b.blk < start + k { assert c[b.blk - start] == b; }
      }
      forall i, j | 0 <= i < j < |a + c| ensures (a + c)[i] != (a + c)[j] {
        if i < |a| <= j { assert a[i] in a && c[j - |a|] in c; }
      }
    }
  }

  function ZoneBlocks(g: Geometry, z: nat): seq<Block>
    requires Regular(g) && ZonesPerLun(g) > 0
  {
    Columns(Chips(g) * Group(g, z), LunOf(g, z), BlockStart(g, z), End(g), Chips(g))
  }

  // A reset erases the blocks that hold a page of its zone, each once, and no
  // block that holds a page of another zone.
  lemma ZoneBlocksExact(g: Geometry, z: nat, p: Ppa)
    requires Regular(g) && z < Zones(g) && OnFlash(g, p)
    ensures ZonesPerLun(g) > 0 && Once(ZoneBlocks(g, z))
    ensures Block(p.ch, p.lun, p.blk) in ZoneBlocks(g, z) <==> ZoneAt(g, p) == z
  {
    Derived(g);
    ZoneParts(g, z);
    ZoneOnto(g, p);
    BlockStartIs(g, z);
    ColumnsOnce(Chips(g) * Group(g, z), LunOf(g, z), BlockStart(g, z), End(g), Chips(g));
    InRange(p.ch, Chips(g), Group(g, z));
    InRange(p.blk, End(g), z / g.fcgs % Rows(g));
  }

  lemma InRange(a: nat, d: nat, q: nat)
    requires d > 0
    ensures a / d == q <==> d * q <= a < d * q + d
  {
    Commute(d, q);
    if d * q <= a < d * q + d { DivUnique(a, d, q, a - d * q); }
  }
}
