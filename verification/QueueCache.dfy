// The queues of free zones: one queue for every parallel unit, served in turn.
module QueueCaches {
  import opened Arithmetic
  import opened Counting

  // The queue a zone belongs to.
  function QueueOf(zone: nat, div: nat): nat
    requires div > 0
  {
    (zone / 2 / div) * 2 + zone % 2
  }

  // Two zones share a queue if and only if they have the same parity and lie
  // in the same block of 2 * div zones.
  lemma SameQueue(y: nat, z: nat, div: nat)
    requires div > 0
    ensures QueueOf(y, div) == QueueOf(z, div) <==> y % 2 == z % 2 && y / (2 * div) == z / (2 * div)
    ensures QueueOf(z, div) % 2 == z % 2
  {
    DivTwice(y, 2, div);
    DivTwice(z, 2, div);
  }

  // The i-th zone of a queue.
  function ZoneOf(q: nat, i: nat, div: nat): nat { 2 * (q / 2 * div + i) + q % 2 }

  // A queue has div zones.
  lemma QueueZones(q: nat, i: nat, z: nat, div: nat)
    requires div > 0
    ensures i < div ==> QueueOf(ZoneOf(q, i, div), div) == q
    ensures z / 2 % div < div && z == ZoneOf(QueueOf(z, div), z / 2 % div, div)
  {
    if i < div {
      assert ZoneOf(q, i, div) / 2 == q / 2 * div + i;
      DivUnique(q / 2 * div + i, div, q / 2, i);
    }
    assert z / 2 == z / 2 / div * div + z / 2 % div;
  }

  ghost predicate Increasing(s: seq<nat>) { forall i, j :: 0 <= i < j < |s| ==> s[i] < s[j] }

  lemma LastOf(s: seq<nat>)
    requires Increasing(s) && s != []
    ensures var m := |s| - 1;
            Increasing(s[..m]) && s[m] in s && forall x :: x in s ==> x <= s[m] && (x in s[..m] <==> x != s[m])
  {
    assert s == s[..|s| - 1] + [s[|s| - 1]];
  }

  lemma HasFirst(s: seq<nat>)
    ensures s != [] ==> s[0] in s
  {}

  // Two increasing lists of the same numbers are equal.
  lemma {:induction false} SameIncreasing(a: seq<nat>, b: seq<nat>)
    requires Increasing(a) && Increasing(b) && forall x :: x in a <==> x in b
    ensures a == b
  {
    if a != [] && b != [] {
      LastOf(a);
      LastOf(b);
      var m, n := |a| - 1, |b| - 1;
      assert a[m] == b[n];
      hide Increasing;
      SameIncreasing(a[..m], b[..n]);
      assert a == a[..m] + [a[m]] && b == b[..n] + [b[n]];
    } else {
      HasFirst(a);
      HasFirst(b);
    }
  }

  // The zones of a queue, in order.
  function ZonesOf(q: nat, div: nat): (r: seq<nat>)
    ensures |r| == div && forall i :: 0 <= i < div ==> r[i] == ZoneOf(q, i, div)
  {
    seq(div, i requires 0 <= i < div => ZoneOf(q, i, div))
  }

  lemma OddTooFew(num: nat, div: nat)
    requires div > 1 && num % 2 == 1
    ensures 2 * (num / 2 * div) + 1 < num * div && QueueOf(2 * (num / 2 * div) + 1, div) >= num
  {
    OddQueues(num / 2, div);
    assert num == 2 * (num / 2) + 1;
  }

  lemma EvenTooFew(num: nat, div: nat)
    requires div > 0 && num % 2 == 0
    ensures QueueOf(num * div, div) == num
  {
    assert num * div == 2 * (num / 2 * div);
    DivMulBack(num / 2, div);
  }

  // When every zone has a queue, the queues have room for exactly the zones.
  lemma WholeQueues(num: nat, div: nat, total: nat)
    requires div > 0 && num == total / div && forall z :: 0 <= z < total ==> QueueOf(z, div) < num
    ensures total == num * div && (num % 2 == 0 || div == 1)
  {
    var r := total % div;
    assert total == num * div + r;
    hide QueueOf;
    if num % 2 == 1 && div > 1 {
      OddTooFew(num, div);
    }
    if num % 2 == 0 {
      EvenTooFew(num, div);
    }
  }

  lemma AppendIncreasing(queues: seq<seq<nat>>, q: nat, i: nat)
    requires q < |queues| && Increasing(queues[q]) && forall z: nat :: Queued(queues, z) ==> z < i
    ensures Increasing(queues[q] + [i])
  {
    forall j | 0 <= j < |queues[q]| ensures queues[q][j] < i {
      assert queues[q][j] in queues[q];
      assert Queued(queues, queues[q][j]);
    }
  }

  lemma ZoneBelow(q: nat, i: nat, num: nat, div: nat)
    requires q < num && i < div && (num % 2 == 0 || div == 1)
    ensures ZoneOf(q, i, div) < num * div
  {
    if num % 2 == 0 {
      SlotBelow(q / 2, num / 2, i, div);
      assert num * div == 2 * (num / 2 * div);
    } else {
      assert q / 2 * div == q / 2 && num * div == num;
    }
  }

  // A queue that has its zones in order has all of them.
  lemma QueueIs(queues: seq<seq<nat>>, q: nat, num: nat, div: nat)
    requires div > 0 && q < |queues| == num && (num % 2 == 0 || div == 1)
    requires InOwnQueue(queues, div) && Increasing(queues[q])
    requires forall z: nat :: Queued(queues, z) <==> z < num * div
    ensures queues[q] == ZonesOf(q, div)
  {
    var r := ZonesOf(q, div);
    forall x ensures x in queues[q] <==> x in r {
      if x in queues[q] {
        QueueZones(q, 0, x, div);
        var j :| 0 <= j < |queues[q]| && queues[q][j] == x;
        assert QueueOf(queues[q][j], div) == q;
        assert r[x / 2 % div] == x;
      }
      if x in r {
        var i :| 0 <= i < div && r[i] == x;
        QueueZones(q, i, x, div);
        ZoneBelow(q, i, num, div);
        assert Queued(queues, x);
        var p :| 0 <= p < |queues| && x in queues[p];
        var j :| 0 <= j < |queues[p]| && queues[p][j] == x;
        assert QueueOf(queues[p][j], div) == p;
      }
    }
    forall i, j | 0 <= i < j < div ensures r[i] < r[j] {}
    SameIncreasing(queues[q], r);
  }

  function Total(queues: seq<seq<nat>>): nat {
    if queues == [] then 0 else |queues[0]| + Total(queues[1..])
  }

  lemma {:induction false} TotalUpdate(queues: seq<seq<nat>>, q: nat, v: seq<nat>)
    requires q < |queues|
    ensures Total(queues[q := v]) == Total(queues) - |queues[q]| + |v|
  {
    if q > 0 {
      assert queues[q := v][1..] == queues[1..][q - 1 := v];
      TotalUpdate(queues[1..], q - 1, v);
    } else {
      assert queues[q := v][1..] == queues[1..];
    }
  }

  lemma {:induction false} SomeNonEmpty(queues: seq<seq<nat>>) returns (q: nat)
    requires Total(queues) > 0
    ensures q < |queues| && queues[q] != []
  {
    if queues[0] != [] {
      q := 0;
    } else {
      q := SomeNonEmpty(queues[1..]);
      q := q + 1;
    }
  }

  lemma {:induction false} AllEmpty(queues: seq<seq<nat>>)
    requires forall q :: 0 <= q < |queues| ==> queues[q] == []
    ensures Total(queues) == 0
  {
    if queues != [] { AllEmpty(queues[1..]); }
  }

  // The position d steps further round the ring.
  function Ring(ptr: nat, d: nat, n: nat): nat
    requires ptr < n && d < n
  {
    if ptr + d < n then ptr + d else ptr + d - n
  }

  // The first non-empty queue from ptr on is d steps away.
  ghost predicate FirstNonEmpty(queues: seq<seq<nat>>, ptr: nat, d: nat)
    requires ptr < |queues| && d < |queues|
  {
    && queues[Ring(ptr, d, |queues|)] != []
    && forall e :: 0 <= e < d ==> queues[Ring(ptr, e, |queues|)] == []
  }

  // Every zone is in its own queue, once.
  ghost predicate InOwnQueue(queues: seq<seq<nat>>, div: nat)
    requires div > 0
  {
    && (forall q, i :: 0 <= q < |queues| && 0 <= i < |queues[q]| ==> QueueOf(queues[q][i], div) == q)
    && (forall q, i, j :: 0 <= q < |queues| && 0 <= i < j < |queues[q]| ==> queues[q][i] != queues[q][j])
  }

  ghost predicate Queued(queues: seq<seq<nat>>, zone: nat) {
    exists q :: 0 <= q < |queues| && zone in queues[q]
  }

  function ZonesIn(queues: seq<seq<nat>>): (r: set<nat>)
    ensures forall z :: z in r <==> Queued(queues, z)
  {
    if queues == [] then {}
    else
      var rest := ZonesIn(queues[1..]);
      var r := Members(queues[0]) + rest;
      assert forall z :: Queued(queues, z) <==> z in queues[0] || Queued(queues[1..], z) by {
        forall z ensures Queued(queues, z) <==> z in queues[0] || Queued(queues[1..], z) {
          if Queued(queues, z) {
            var q :| 0 <= q < |queues| && z in queues[q];
            if q > 0 { assert z in queues[1..][q - 1]; }
          }
          if Queued(queues[1..], z) {
            var q :| 0 <= q < |queues[1..]| && z in queues[1..][q];
            assert z in queues[q + 1];
          }
        }
      }
      r
  }

  ghost predicate Popped(before: seq<seq<nat>>, q: nat, zone: nat, after: seq<seq<nat>>, ptr: nat) {
    && q < |before| && before[q] != []
    && zone == before[q][0] && after == before[q := before[q][1..]]
    && ptr == (q + 1) % |before|
  }

  // One zone is taken: the front of the first queue that is not empty.
  ghost predicate Drawn(before: seq<seq<nat>>, was: nat, zone: nat, after: seq<seq<nat>>, ptr: nat) {
    was < |before| &&
    exists d :: 0 <= d < |before| && FirstNonEmpty(before, was, d)
      && Popped(before, Ring(was, d, |before|), zone, after, ptr)
  }

  // Zones are taken one after the other.
  ghost predicate DrawnAll(before: seq<seq<nat>>, was: nat, zones: seq<nat>, after: seq<seq<nat>>, ptr: nat)
    decreases |zones|
  {
    if zones == [] then after == before && ptr == was
    else
      var n := |zones| - 1;
      exists mid, p :: DrawnAll(before, was, zones[..n], mid, p) && Drawn(mid, p, zones[n], after, ptr)
  }

  lemma DrawnAllNext(before: seq<seq<nat>>, was: nat, zones: seq<nat>, mid: seq<seq<nat>>, p: nat, zone: nat,
                     after: seq<seq<nat>>, ptr: nat)
    requires DrawnAll(before, was, zones, mid, p) && Drawn(mid, p, zone, after, ptr)
    ensures DrawnAll(before, was, zones + [zone], after, ptr)
  {
    assert (zones + [zone])[..|zones|] == zones;
  }

  // One zone is put back into its queue.
  ghost predicate PutBack(before: seq<seq<nat>>, div: nat, zone: nat, after: seq<seq<nat>>) {
    && div > 0 && QueueOf(zone, div) < |before|
    && after == before[QueueOf(zone, div) := before[QueueOf(zone, div)] + [zone]]
  }

  lemma NoneDrawn(before: seq<seq<nat>>, was: nat)
    ensures DrawnAll(before, was, [], before, was)
  {}

  // How many of the first j turns of n queues are those of queue q.
  function Turns(j: nat, n: nat, q: nat): nat
    requires q < n
  {
    (j + n - 1 - q) / n
  }

  lemma TurnsAt(a: nat, b: nat, n: nat, q: nat)
    requires b < n && q < n
    ensures Turns(a * n + b, n, q) == a + if q < b then 1 else 0
  {
    assert (a + 1) * n == a * n + n;
    if q < b {
      DivUnique(a * n + b + n - 1 - q, n, a + 1, b - 1 - q);
    } else {
      DivUnique(a * n + b + n - 1 - q, n, a, b + n - 1 - q);
    }
  }

  lemma TurnsStep(a: nat, b: nat, n: nat, q: nat)
    requires b < n && q < n
    ensures Turns(a * n + b + 1, n, q) == Turns(a * n + b, n, q) + if b == q then 1 else 0
  {
    TurnsAt(a, b, n, q);
    if b + 1 < n {
      TurnsAt(a, b + 1, n, q);
    } else {
      TurnsAt(a + 1, 0, n, q);
      assert (a + 1) * n == a * n + n;
    }
    hide Turns;
  }

  lemma TurnsNext(j: nat, n: nat, q: nat)
    requires q < n
    ensures Turns(0, n, q) == 0 && Turns(j, n, j % n) == j / n
    ensures Turns(j + 1, n, q) == Turns(j, n, q) + if j % n == q then 1 else 0
  {
    hide Turns;
    var a, b := j / n, j % n;
    QuotientRemainder(j, n);
    TurnsAt(0, 0, n, q);
    TurnsAt(a, b, n, b);
    TurnsStep(a, b, n, q);
  }

  // After j zones were taken in turn, the first from queue 0.
  ghost predicate Round(base: seq<seq<nat>>, queues: seq<seq<nat>>, ptr: nat, j: nat) {
    && base != [] && |queues| == |base| && ptr == j % |base|
    && forall q :: 0 <= q < |base| ==> Turns(j, |base|, q) <= |base[q]| && queues[q] == base[q][Turns(j, |base|, q)..]
  }

  // The zone taken at turn j, when the queues are served in turn.
  ghost predicate FromRound(base: seq<seq<nat>>, j: nat, zone: nat)
    requires base != []
  {
    j / |base| < |base[j % |base|]| && zone == base[j % |base|][j / |base|]
  }

  ghost predicate InRounds(base: seq<seq<nat>>, zones: seq<nat>) {
    base != [] && forall j :: 0 <= j < |zones| ==> FromRound(base, j, zones[j])
  }

  lemma InRoundsNext(base: seq<seq<nat>>, zones: seq<nat>, zone: nat)
    requires InRounds(base, zones) && FromRound(base, |zones|, zone)
    ensures InRounds(base, zones + [zone])
  {
    hide FromRound;
  }

  // As long as no queue can be empty.
  lemma RoomInRound(base: seq<seq<nat>>, m: nat, n: nat, j: nat)
    requires base != [] && n <= m * |base| && j < n && forall q :: 0 <= q < |base| ==> |base[q]| == m
    ensures j / |base| < |base[j % |base|]|
  {
    DivBelow(j, m, |base|);
  }

  lemma NoRounds(base: seq<seq<nat>>)
    requires base != []
    ensures InRounds(base, [])
  {}

  lemma RoundStart(base: seq<seq<nat>>)
    requires base != []
    ensures Round(base, base, 0, 0)
  {
    forall q | 0 <= q < |base| ensures Turns(0, |base|, q) == 0 { TurnsNext(0, |base|, q); }
  }

  // While no queue is empty, the queues are served in turn.
  lemma RoundNext(base: seq<seq<nat>>, queues: seq<seq<nat>>, ptr: nat, j: nat, zone: nat, after: seq<seq<nat>>,
                  next: nat)
    requires Round(base, queues, ptr, j) && Drawn(queues, ptr, zone, after, next) && j / |base| < |base[j % |base|]|
    ensures FromRound(base, j, zone) && Round(base, after, next, j + 1)
  {
    var n := |base|;
    TurnsNext(j, n, ptr);
    ModNext(j, n);
    assert queues[ptr] != [];
    assert Ring(ptr, 0, n) == ptr;
    var d :| 0 <= d < n && FirstNonEmpty(queues, ptr, d) && Popped(queues, Ring(ptr, d, n), zone, after, next);
    assert d == 0;
    forall q | 0 <= q < n ensures Turns(j + 1, n, q) <= |base[q]| && after[q] == base[q][Turns(j + 1, n, q)..] {
      TurnsNext(j, n, q);
      hide Turns;
    }
    hide Turns;
  }

  // The zones of queues that have all their zones in order, taken in turn.
  lemma RoundZones(base: seq<seq<nat>>, div: nat, zones: seq<nat>)
    requires InRounds(base, zones) && forall q :: 0 <= q < |base| ==> base[q] == ZonesOf(q, div)
    ensures base != []
    ensures forall j :: 0 <= j < |zones| ==>
              zones[j] == 2 * (j % |base| / 2 * div + j / |base|) + j % |base| % 2
  {
    var n := |base|;
    forall j | 0 <= j < |zones| ensures zones[j] == 2 * (j % n / 2 * div + j / n) + j % n % 2 {
      assert FromRound(base, j, zones[j]);
      assert zones[j] == ZonesOf(j % n, div)[j / n] == ZoneOf(j % n, j / n, div);
    }
  }

  ghost predicate Separate(queues: seq<seq<nat>>) {
    && (forall q, i, j :: 0 <= q < |queues| && 0 <= i < j < |queues[q]| ==> queues[q][i] != queues[q][j])
    && (forall p, q, z :: 0 <= p < q < |queues| && z in queues[p] ==> z !in queues[q])
  }

  lemma SeparateTail(queues: seq<seq<nat>>)
    requires Separate(queues) && queues != []
    ensures Separate(queues[1..])
    ensures Members(queues[0]) !! ZonesIn(queues[1..])
  {
    forall z | z in ZonesIn(queues[1..]) ensures z !in queues[0] {
      var q :| 0 <= q < |queues[1..]| && z in queues[1..][q];
      assert z in queues[q + 1];
    }
  }

  // `size` counts the zones that are queued.
  lemma {:induction false} TotalCounts(queues: seq<seq<nat>>)
    requires Separate(queues)
    ensures Total(queues) == |ZonesIn(queues)|
  {
    if queues != [] {
      SeparateTail(queues);
      TotalCounts(queues[1..]);
      DistinctCount(queues[0]);
      assert ZonesIn(queues) == Members(queues[0]) + ZonesIn(queues[1..]);
    }
  }

  lemma OwnIsSeparate(queues: seq<seq<nat>>, div: nat)
    requires div > 0 && InOwnQueue(queues, div)
    ensures Separate(queues)
  {
    forall p, q, z | 0 <= p < q < |queues| && z in queues[p] ensures z !in queues[q] {
      var i :| 0 <= i < |queues[p]| && queues[p][i] == z;
      assert QueueOf(z, div) == p;
      assert forall j :: 0 <= j < |queues[q]| ==> QueueOf(queues[q][j], div) == q;
    }
  }

  class QueueCache {
    var queues: seq<seq<nat>>
    var ptr: nat
    const div: nat
    var size: nat

    ghost predicate Valid()
      reads this
    {
      && div > 0 && ptr < |queues|
      && size == Total(queues)
      && InOwnQueue(queues, div)
    }

    function Zones(): set<nat>
      reads this
    {
      ZonesIn(queues)
    }

    // The source fills its queues without a range check.
    constructor (num: nat, div: nat, total: nat)
      requires div > 0 && num > 0
      requires forall z :: 0 <= z < total ==> QueueOf(z, div) < num
      ensures Valid() && |queues| == num && this.div == div && ptr == 0
      ensures forall z: nat :: z in Zones() <==> z < total
      ensures size == total
      // Each queue has its zones in order.
      ensures num == total / div ==> total == num * div && forall q :: 0 <= q < num ==> queues[q] == ZonesOf(q, div)
    {
      this.div := div;
      queues := seq(num, _ => []);
      ptr := 0;
      size := total;
      new;
      AllEmpty(queues);
      var i := 0;
      while i < total
        invariant 0 <= i <= total && |queues| == num && size == total && ptr == 0
        invariant Total(queues) == i
        invariant InOwnQueue(queues, div) && forall q :: 0 <= q < num ==> Increasing(queues[q])
        invariant forall z: nat :: Queued(queues, z) <==> z < i
      {
        var index := QueueOf(i, div);
        AppendOwn(queues, div, i);
        TotalUpdate(queues, index, queues[index] + [i]);
        AppendIncreasing(queues, index, i);
        queues := queues[index := queues[index] + [i]];
        i := i + 1;
      }
      if num == total / div {
        WholeQueues(num, div, total);
        forall q | 0 <= q < num ensures queues[q] == ZonesOf(q, div) { QueueIs(queues, q, num, div); }
      }
    }

    lemma SizeCounts()
      requires Valid()
      ensures size == |Zones()|
    {
      OwnIsSeparate(queues, div);
      TotalCounts(queues);
    }

    function Empty(): bool
      reads this
    {
      size == 0
    }

    lemma Parts()
      requires Valid()
      ensures div > 0 && ptr < |queues| && (Empty() <==> size == 0)
    {}

    // Moves on to the first non-empty queue.
    method Advance() returns (ghost d: nat)
      requires Valid() && !Empty()
      modifies this`ptr
      ensures ptr < |queues| && d < |queues| && ptr == Ring(old(ptr), d, |queues|)
      ensures FirstNonEmpty(queues, old(ptr), d)
    {
      ghost var j := SomeNonEmpty(queues);
      ghost var n := |queues|;
      ghost var far := if ptr <= j then j - ptr else j + n - ptr;
      assert Ring(ptr, far, n) == j;
      d := 0;
      while queues[ptr] == []
        invariant ptr < n && 0 <= d <= far < n
        invariant ptr == Ring(old(ptr), d, n)
        invariant forall e :: 0 <= e < d ==> queues[Ring(old(ptr), e, n)] == []
        decreases far - d
      {
        assert d != far;
        Successor(ptr, n);
        ptr := (ptr + 1) % |queues|;
        d := d + 1;
      }
    }

    // Takes the front of the first non-empty queue and moves on to the next.
    method Get() returns (zone: nat)
      requires Valid() && !Empty()
      modifies this
      ensures Valid() && |queues| == old(|queues|)
      ensures zone in old(Zones()) && Zones() == old(Zones()) - {zone}
      ensures size == old(size) - 1
      ensures Drawn(old(queues), old(ptr), zone, queues, ptr)
    {
      ghost var d := Advance();
      ghost var q := ptr;
      zone := queues[ptr][0];
      RemoveFront(queues, div, ptr);
      TotalUpdate(queues, ptr, queues[ptr][1..]);
      queues := queues[ptr := queues[ptr][1..]];
      ptr := (ptr + 1) % |queues|;
      size := size - 1;
      assert zone in old(queues)[q];
      assert Popped(old(queues), Ring(old(ptr), d, old(|queues|)), zone, queues, ptr);
    }

    method Put(zone: nat)
      requires Valid() && QueueOf(zone, div) < |queues| && zone !in Zones()
      modifies this
      ensures Valid() && |queues| == old(|queues|) && ptr == old(ptr)
      ensures Zones() == old(Zones()) + {zone}
      ensures size == old(size) + 1
      ensures PutBack(old(queues), div, zone, queues)
    {
      var index := QueueOf(zone, div);
      AppendOwn(queues, div, zone);
      TotalUpdate(queues, index, queues[index] + [zone]);
      queues := queues[index := queues[index] + [zone]];
      size := size + 1;
    }
  }

  lemma AppendOwn(queues: seq<seq<nat>>, div: nat, zone: nat)
    requires div > 0 && InOwnQueue(queues, div) && QueueOf(zone, div) < |queues| && !Queued(queues, zone)
    ensures var index := QueueOf(zone, div);
            var after := queues[index := queues[index] + [zone]];
            InOwnQueue(after, div) && forall z :: Queued(after, z) <==> Queued(queues, z) || z == zone
  {
    var index := QueueOf(zone, div);
    var after := queues[index := queues[index] + [zone]];
    forall z ensures Queued(after, z) <==> Queued(queues, z) || z == zone {
      if Queued(queues, z) {
        var q :| 0 <= q < |queues| && z in queues[q];
        assert z in after[q];
      }
      assert zone in after[index];
    }
    assert forall i :: 0 <= i < |queues[index]| ==> queues[index][i] in queues[index];
  }

  lemma RemoveFront(queues: seq<seq<nat>>, div: nat, q: nat)
    requires div > 0 && InOwnQueue(queues, div) && q < |queues| && queues[q] != []
    ensures var after := queues[q := queues[q][1..]];
            InOwnQueue(after, div) && forall z :: Queued(after, z) <==> Queued(queues, z) && z != queues[q][0]
  {
    var after := queues[q := queues[q][1..]];
    forall z ensures Queued(after, z) <==> Queued(queues, z) && z != queues[q][0] {
      if Queued(after, z) {
        var p :| 0 <= p < |after| && z in after[p];
        assert z in queues[p];
        var i :| 0 <= i < |queues[p]| && queues[p][i] == z;
        if p == q {
          var m :| 0 <= m < |after[q]| && after[q][m] == z;
          assert queues[q][m + 1] == z;
        } else {
          assert QueueOf(queues[p][i], div) == p && QueueOf(queues[q][0], div) == q;
        }
      }
      if Queued(queues, z) && z != queues[q][0] {
        var p :| 0 <= p < |queues| && z in queues[p];
        if p == q {
          var m :| 0 <= m < |queues[q]| && queues[q][m] == z;
          assert after[q][m - 1] == z;
        }
        assert z in after[p];
      }
    }
  }

  lemma EvenQueues(m: nat, div: nat, z: nat)
    requires div > 0 && z < 2 * m * div
    ensures QueueOf(z, div) < 2 * m
  {
    assert 2 * m * div == 2 * (m * div);
    DivBelow(z / 2, m, div);
  }

  // With an odd number of queues of two zones or more, one zone has none.
  lemma OddQueues(m: nat, div: nat)
    requires div >= 2
    ensures 2 * (m * div) + 1 < (2 * m + 1) * div
    ensures QueueOf(2 * (m * div) + 1, div) == 2 * m + 1
  {
    assert (2 * m + 1) * div == 2 * (m * div) + div;
    DivMulBack(m, div);
  }

  // The manager makes as many queues as there are groups of `div` zones. Every
  // zone then has a queue exactly when the number of queues is even, or each
  // group is a single zone.
  lemma QueuesSuffice(num: nat, div: nat)
    requires div > 0
    ensures (forall z :: 0 <= z < num * div ==> QueueOf(z, div) < num) <==> (num % 2 == 0 || div == 1)
  {
    var m := num / 2;
    if num % 2 == 0 {
      forall z | 0 <= z < num * div ensures QueueOf(z, div) < num { EvenQueues(m, div, z); }
    } else if div == 1 {
      forall z | 0 <= z < num * div ensures QueueOf(z, div) < num { assert z / 2 / 1 == z / 2; }
    } else {
      OddQueues(m, div);
      assert num == 2 * m + 1;
    }
  }

  // Three groups of two zones: zone 5 belongs to a fourth queue.
  lemma OddQueuesExample()
    ensures !(forall z :: 0 <= z < 3 * 2 ==> QueueOf(z, 2) < 3)
  {
    assert QueueOf(5, 2) == 3;
  }
}
