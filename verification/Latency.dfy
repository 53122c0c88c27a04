// How long a LUN is busy, and how many pages of a run it gets.
module Latency {
  import opened Arithmetic
  import opened Geometries

  // When a LUN is available again after k commands that arrive at `start`.
  function Busy(avail: nat, start: nat, k: nat, lat: nat): nat {
    if k == 0 then avail else Max(avail, start) + k * lat
  }

  lemma BusyNext(avail: nat, start: nat, k: nat, lat: nat)
    ensures Busy(avail, start, k + 1, lat) == Max(Busy(avail, start, k, lat), start) + lat
  {
    assert (k + 1) * lat == k * lat + lat;
  }

  lemma BusyMore(avail: nat, start: nat, k: nat, m: nat, lat: nat)
    requires k <= m
    ensures Busy(avail, start, k, lat) <= Busy(avail, start, m, lat)
  {
    MulMonotone(k, m, lat);
  }

  // Pages of a run on one LUN.
  function CountOn(pages: seq<Ppa>, ch: nat, lun: nat): nat {
    if pages == [] then 0
    else
      var last := pages[|pages| - 1];
      CountOn(pages[..|pages| - 1], ch, lun) + if last.ch == ch && last.lun == lun then 1 else 0
  }

  lemma CountAppend(pages: seq<Ppa>, p: Ppa, ch: nat, lun: nat)
    ensures CountOn(pages + [p], ch, lun) == CountOn(pages, ch, lun) + if p.ch == ch && p.lun == lun then 1 else 0
  {
    assert (pages + [p])[..|pages|] == pages;
  }

  // A run of n pages of one zone, from page w.
  function Run(g: Geometry, id: nat, w: nat, n: nat): (r: seq<Ppa>)
    requires Regular(g) && ZonesPerLun(g) > 0
    ensures |r| == n && forall i :: 0 <= i < n ==> r[i] == Locate(g, id, w + i)
  {
    if n == 0 then [] else Run(g, id, w, n - 1) + [Locate(g, id, w + n - 1)]
  }

  // Pages below t that fall on channel c of m.
  function UpTo(t: nat, m: nat, c: nat): nat
    requires m > 0
  {
    t / m + if t % m > c then 1 else 0
  }

  lemma UpToNext(t: nat, m: nat, c: nat)
    requires c < m
    ensures UpTo(t + 1, m, c) == UpTo(t, m, c) + if t % m == c then 1 else 0
  {
    Tick(t, m, 0);
  }

  lemma RunNext(g: Geometry, id: nat, w: nat, n: nat)
    requires Regular(g) && ZonesPerLun(g) > 0
    ensures Run(g, id, w, 0) == [] && Run(g, id, w, n + 1) == Run(g, id, w, n) + [Locate(g, id, w + n)]
  {}

  lemma ChannelOf(g: Geometry, id: nat, n: nat, c: nat)
    requires Regular(g) && ZonesPerLun(g) > 0
    ensures var p := Locate(g, id, n);
            && p.lun == LunOf(g, id) && p.ch / Chips(g) == Group(g, id)
            && (p.ch == Group(g, id) * Chips(g) + c <==> n % Chips(g) == c)
  {
    DivUnique(Locate(g, id, n).ch, Chips(g), Group(g, id), n % Chips(g));
  }

  // Channel c of the zone's group is channel ch of the device.
  predicate IsChannel(g: Geometry, id: nat, c: nat, ch: nat)
    requires Regular(g)
  {
    c < Chips(g) && ch == Group(g, id) * Chips(g) + c
  }

  lemma RunStep(g: Geometry, id: nat, w: nat, n: nat, c: nat, ch: nat)
    requires Regular(g) && ZonesPerLun(g) > 0 && IsChannel(g, id, c, ch) && n > 0
    ensures CountOn(Run(g, id, w, n), ch, LunOf(g, id))
         == CountOn(Run(g, id, w, n - 1), ch, LunOf(g, id)) + if (w + n - 1) % Chips(g) == c then 1 else 0
  {
    ChannelOf(g, id, w + n - 1, c);
    CountAppend(Run(g, id, w, n - 1), Locate(g, id, w + n - 1), ch, LunOf(g, id));
  }

  // The pages channel c of the zone's group gets out of a run.
  lemma {:induction false} RunShare(g: Geometry, id: nat, w: nat, n: nat, c: nat, ch: nat)
    requires Regular(g) && ZonesPerLun(g) > 0 && IsChannel(g, id, c, ch)
    ensures CountOn(Run(g, id, w, n), ch, LunOf(g, id)) == UpTo(w + n, Chips(g), c) - UpTo(w, Chips(g), c)
  {
    hide IsChannel, UpTo, Locate, LunOf, ZonesPerLun, CountOn;
    if n == 0 {
      NoPages(ch, LunOf(g, id));
    } else {
      RunShare(g, id, w, n - 1, c, ch);
      RunStep(g, id, w, n, c, ch);
      ChannelBound(g, id, c, ch);
      UpToNext(w + n - 1, Chips(g), c);
    }
  }

  lemma NoPages(ch: nat, lun: nat)
    ensures CountOn([], ch, lun) == 0
  {}

  lemma ChannelBound(g: Geometry, id: nat, c: nat, ch: nat)
    requires Regular(g) && IsChannel(g, id, c, ch)
    ensures c < Chips(g)
  {}

  lemma {:induction false} RunElsewhere(g: Geometry, id: nat, w: nat, n: nat, ch: nat, lun: nat)
    requires Regular(g) && ZonesPerLun(g) > 0 && (lun != LunOf(g, id) || ch / Chips(g) != Group(g, id))
    ensures CountOn(Run(g, id, w, n), ch, lun) == 0
  {
    if n > 0 {
      RunElsewhere(g, id, w, n - 1, ch, lun);
      var p := Locate(g, id, w + n - 1);
      CountAppend(Run(g, id, w, n - 1), p, ch, lun);
      ChannelOf(g, id, w + n - 1, 0);
    }
  }

  function Ceil(n: nat, m: nat): nat
    requires m > 0
  {
    (n + m - 1) / m
  }

  lemma CeilIs(w: nat, n: nat, m: nat)
    requires m > 0
    ensures w / m + Ceil(n, m) == (w + n) / m + if (w + n) % m > w % m then 1 else 0
  {
    var q, r, q', r' := w / m, w % m, (w + n) / m, (w + n) % m;
    DivAtLeast(w + n, q, m);
    var k := q' - q;
    assert k * m == q' * m - q * m;
    if r' > r {
      assert (k + 1) * m == k * m + m;
      DivUnique(n + m - 1, m, k + 1, r' - r - 1);
    } else {
      DivUnique(n + m - 1, m, k, m - 1 - (r - r'));
    }
  }

  // No channel gets more than its share rounded up, and the one the run
  // starts on gets that much.
  lemma ShareIsCeil(w: nat, n: nat, m: nat, c: nat)
    requires c < m
    ensures UpTo(w + n, m, c) <= UpTo(w, m, c) + Ceil(n, m)
    ensures c == w % m ==> UpTo(w + n, m, c) == UpTo(w, m, c) + Ceil(n, m)
  {
    CeilIs(w, n, m);
  }

  // When the LUN of a page has done all its pages of a run.
  ghost function DoneAt(pages: seq<Ppa>, avail: (nat, nat) -> nat, start: nat, lat: nat, p: Ppa): nat {
    Busy(avail(p.ch, p.lun), start, CountOn(pages, p.ch, p.lun), lat)
  }

  ghost predicate NoLater(pages: seq<Ppa>, avail: (nat, nat) -> nat, start: nat, lat: nat, end: nat) {
    forall i :: 0 <= i < |pages| ==> DoneAt(pages, avail, start, lat, pages[i]) <= end
  }

  ghost predicate Reached(pages: seq<Ppa>, avail: (nat, nat) -> nat, start: nat, lat: nat, end: nat) {
    exists i :: 0 <= i < |pages| && DoneAt(pages, avail, start, lat, pages[i]) == end
  }

  // The latency of a run is that of the page that is done last.
  ghost predicate Slowest(pages: seq<Ppa>, avail: (nat, nat) -> nat, start: nat, lat: nat, maxlat: nat) {
    && NoLater(pages, avail, start, lat, start + maxlat)
    && if pages == [] then maxlat == 0 else Reached(pages, avail, start, lat, start + maxlat)
  }

  lemma DoneNext(pages: seq<Ppa>, p: Ppa, avail: (nat, nat) -> nat, start: nat, lat: nat, q: Ppa)
    ensures DoneAt(pages + [p], avail, start, lat, q) ==
              if q.ch == p.ch && q.lun == p.lun then
                Busy(avail(p.ch, p.lun), start, CountOn(pages, p.ch, p.lun) + 1, lat)
              else DoneAt(pages, avail, start, lat, q)
  {
    CountAppend(pages, p, q.ch, q.lun);
    hide CountOn, Busy;
  }

  lemma SlowestNext(pages: seq<Ppa>, p: Ppa, avail: (nat, nat) -> nat, start: nat, lat: nat, maxlat: nat, cur: nat)
    requires Slowest(pages, avail, start, lat, maxlat)
    requires Busy(avail(p.ch, p.lun), start, CountOn(pages, p.ch, p.lun) + 1, lat) == start + cur
    ensures Slowest(pages + [p], avail, start, lat, Max(cur, maxlat))
  {
    hide Busy, CountOn, DoneAt;
    var next, k := pages + [p], CountOn(pages, p.ch, p.lun);
    BusyMore(avail(p.ch, p.lun), start, k, k + 1, lat);
    forall i | 0 <= i < |next| ensures DoneAt(next, avail, start, lat, next[i]) <= start + Max(cur, maxlat) {
      DoneNext(pages, p, avail, start, lat, next[i]);
    }
    DoneNext(pages, p, avail, start, lat, next[|pages|]);
    if pages != [] && cur < maxlat {
      assert Reached(pages, avail, start, lat, start + maxlat);
      var i :| 0 <= i < |pages| && DoneAt(pages, avail, start, lat, pages[i]) == start + maxlat;
      DoneNext(pages, p, avail, start, lat, pages[i]);
      DoneIs(pages, avail, start, lat, p);
      SameDone(pages, avail, start, lat, pages[i], p);
      assert next[i] == pages[i];
    }
  }

  lemma DoneIs(pages: seq<Ppa>, avail: (nat, nat) -> nat, start: nat, lat: nat, p: Ppa)
    ensures DoneAt(pages, avail, start, lat, p) == Busy(avail(p.ch, p.lun), start, CountOn(pages, p.ch, p.lun), lat)
  {}

  lemma SameDone(pages: seq<Ppa>, avail: (nat, nat) -> nat, start: nat, lat: nat, p: Ppa, q: Ppa)
    ensures p.ch == q.ch && p.lun == q.lun
            ==> DoneAt(pages, avail, start, lat, p) == DoneAt(pages, avail, start, lat, q)
  {}

  // Each LUN was given its pages of a run, from `start` on.
  ghost predicate Timed(before: (nat, nat) -> nat, after: (nat, nat) -> nat, start: nat, pages: seq<Ppa>, lat: nat) {
    forall c, l :: after(c, l) == Busy(before(c, l), start, CountOn(pages, c, l), lat)
  }

  lemma TimedStart(before: (nat, nat) -> nat, start: nat, lat: nat)
    ensures Timed(before, before, start, [], lat) && Slowest([], before, start, lat, 0)
  {}

  lemma TimedNext(before: (nat, nat) -> nat, now: (nat, nat) -> nat, after: (nat, nat) -> nat,
                  start: nat, pages: seq<Ppa>, p: Ppa, lat: nat)
    requires Timed(before, now, start, pages, lat)
    requires forall c, l :: c != p.ch || l != p.lun ==> after(c, l) == now(c, l)
    requires after(p.ch, p.lun) == Max(now(p.ch, p.lun), start) + lat
    ensures Timed(before, after, start, pages + [p], lat)
    ensures after(p.ch, p.lun) == Busy(before(p.ch, p.lun), start, CountOn(pages, p.ch, p.lun) + 1, lat)
  {
    BusyNext(before(p.ch, p.lun), start, CountOn(pages, p.ch, p.lun), lat);
    forall c, l ensures after(c, l) == Busy(before(c, l), start, CountOn(pages + [p], c, l), lat) {
      CountAppend(pages, p, c, l);
    }
  }

  ghost predicate Idle(g: Geometry, id: nat, avail: (nat, nat) -> nat, start: nat)
    requires Regular(g) && ZonesPerLun(g) > 0
  {
    forall ch: nat :: ch / Chips(g) == Group(g, id) ==> avail(ch, LunOf(g, id)) <= start
  }

  // When the LUNs of a zone are idle, n of its pages take the time of the
  // largest share.
  lemma IdleShare(g: Geometry, id: nat, w: nat, n: nat, i: nat)
    requires Regular(g) && ZonesPerLun(g) > 0 && i < n
    ensures var p, k := Locate(g, id, w + i), Ceil(n, Chips(g));
            && p.lun == LunOf(g, id) && p.ch / Chips(g) == Group(g, id)
            && 0 < CountOn(Run(g, id, w, n), p.ch, p.lun) <= k
            && (i == 0 ==> CountOn(Run(g, id, w, n), p.ch, p.lun) == k)
  {
    var c, p := (w + i) % Chips(g), Locate(g, id, w + i);
    ChannelOf(g, id, w + i, c);
    RunShare(g, id, w, n, c, p.ch);
    ShareIsCeil(w, n, Chips(g), c);
    Counted(Run(g, id, w, n), i);
  }

  lemma {:induction false} Counted(pages: seq<Ppa>, i: nat)
    requires i < |pages|
    ensures CountOn(pages, pages[i].ch, pages[i].lun) > 0
  {
    if i < |pages| - 1 { Counted(pages[..|pages| - 1], i); }
  }

  lemma IdleRun(g: Geometry, id: nat, w: nat, n: nat, avail: (nat, nat) -> nat, start: nat, lat: nat, maxlat: nat)
    requires Regular(g) && ZonesPerLun(g) > 0 && n > 0
    requires Idle(g, id, avail, start)
    requires Slowest(Run(g, id, w, n), avail, start, lat, maxlat)
    ensures maxlat == Ceil(n, Chips(g)) * lat
  {
    var m, run := Chips(g), Run(g, id, w, n);
    forall i | 0 <= i < n
      ensures Busy(avail(run[i].ch, run[i].lun), start, CountOn(run, run[i].ch, run[i].lun), lat)
              <= start + Ceil(n, m) * lat
      ensures i == 0 ==>
                Busy(avail(run[i].ch, run[i].lun), start, CountOn(run, run[i].ch, run[i].lun), lat)
                == start + Ceil(n, m) * lat
    {
      IdleShare(g, id, w, n, i);
      hide Regular, Locate, UpTo, Group, LunOf, End, BlockSize, Chips, ZonesPerLun, CountOn, Ceil, Run;
      MulMonotone(CountOn(run, run[i].ch, run[i].lun), Ceil(n, m), lat);
    }
    hide *;
    assert run[0] == Locate(g, id, w);
  }
}
