// Which pages a lookup reads: the missed pages of its range, as intervals.
module PageReads {
  import opened Options
  import opened Arithmetic
  import opened Merge
  import opened PageCaches
  import opened Pairs
  import opened Tables

  const PAGE_SIZE := 16 * 1024

  // The list after the n pages from `left` on were looked up in turn.
  function After(s: seq<nat>, cap: nat, left: nat, n: nat): seq<nat>
    requires cap > 0
  {
    if n == 0 then s else Inserted(After(s, cap, left, n - 1), cap, left + n - 1)
  }

  // A page that is not in the cache when its turn comes.
  ghost predicate Missed(s: seq<nat>, cap: nat, left: nat, p: nat)
    requires cap > 0
  {
    p >= left && p !in After(s, cap, left, p - left)
  }

  // With a larger cache no more pages are missed.
  lemma {:induction false} AfterPrefix(s: seq<nat>, m: nat, t: seq<nat>, k: nat, left: nat, n: nat)
    requires 0 < m <= k && ListOk(s, m) && ListOk(t, k) && s <= t
    ensures After(s, m, left, n) <= After(t, k, left, n)
    ensures ListOk(After(s, m, left, n), m) && ListOk(After(t, k, left, n), k)
  {
    hide Inserted, ListOk;
    if n > 0 {
      AfterPrefix(s, m, t, k, left, n - 1);
      var a, b := After(s, m, left, n - 1), After(t, k, left, n - 1);
      StepPrefix(a, m, b, k, Use(left + n - 1));
      StepListOk(a, m, Use(left + n - 1));
      StepListOk(b, k, Use(left + n - 1));
    }
  }

  lemma FewerMisses(m: nat, k: nat, accesses: seq<Access>, left: nat, p: nat)
    requires 0 < m <= k && Missed(Run([], k, accesses), k, left, p)
    ensures Missed(Run([], m, accesses), m, left, p)
  {
    LargerHoldsMore(m, k, accesses);
    hide PageCaches.Run, ListOk, After, Inserted;
    AfterPrefix(Run([], m, accesses), m, Run([], k, accesses), k, left, p - left);
  }

  // ---------- Intervals ----------

  datatype Interval = Interval(first: nat, last: nat)

  // In order, with at least one page between one and the next.
  ghost predicate Apart(s: seq<Interval>) {
    && (forall i :: 0 <= i < |s| ==> s[i].first <= s[i].last)
    && (forall i, j :: 0 <= i < j < |s| ==> s[i].last + 1 < s[j].first)
  }

  predicate In(x: Interval, p: nat) { x.first <= p <= x.last }

  ghost predicate Covers(s: seq<Interval>, p: nat) {
    exists i :: 0 <= i < |s| && In(s[i], p)
  }

  lemma CoversTail(s: seq<Interval>, p: nat)
    requires s != []
    ensures Covers(s, p) <==> In(s[0], p) || Covers(s[1..], p)
  {
    if Covers(s, p) {
      var i :| 0 <= i < |s| && In(s[i], p);
      if i > 0 { assert In(s[1..][i - 1], p); }
    }
    if Covers(s[1..], p) {
      var i :| 0 <= i < |s[1..]| && In(s[1..][i], p);
      assert In(s[i + 1], p);
    }
  }

  lemma CoversAppend(s: seq<Interval>, x: Interval, p: nat)
    ensures Covers(s + [x], p) <==> Covers(s, p) || In(x, p)
  {
    var t := s + [x];
    if Covers(s, p) {
      var i :| 0 <= i < |s| && In(s[i], p);
      assert In(t[i], p);
    }
    if In(x, p) { assert In(t[|s|], p); }
    if Covers(t, p) {
      var i :| 0 <= i < |t| && In(t[i], p);
      if i < |s| { assert In(s[i], p); }
    }
  }

  // Such intervals are the maximal runs of the pages they cover: there is
  // only one way to cover them.
  lemma {:induction false} MaximalRuns(a: seq<Interval>, b: seq<Interval>)
    requires Apart(a) && Apart(b) && forall p :: Covers(a, p) <==> Covers(b, p)
    ensures a == b
  {
    if a == [] {
      if b != [] { CoversHead(b, b[0].first); }
    } else {
      CoversHead(a, a[0].first);
      HeadsAgree(a, b);
      HeadsAgree(b, a);
      forall p ensures Covers(a[1..], p) <==> Covers(b[1..], p) {
        CoversTail(a, p);
        CoversTail(b, p);
        AfterHead(a, p);
        AfterHead(b, p);
      }
      MaximalRuns(a[1..], b[1..]);
      assert a == [a[0]] + a[1..] && b == [b[0]] + b[1..];
    }
  }

  lemma AfterHead(s: seq<Interval>, p: nat)
    requires Apart(s) && s != []
    ensures Covers(s[1..], p) ==> !In(s[0], p)
  {}

  lemma CoversHead(s: seq<Interval>, p: nat)
    requires s != []
    ensures In(s[0], p) ==> Covers(s, p)
  {}

  lemma HeadsAgree(a: seq<Interval>, b: seq<Interval>)
    requires Apart(a) && Apart(b) && a != [] && b != [] && forall p :: Covers(a, p) ==> Covers(b, p)
    ensures b[0].first <= a[0].first
    ensures b[0].first == a[0].first ==> a[0].last <= b[0].last
  {
    CoversHead(a, a[0].first);
    var p := b[0].last + 1;
    assert !Covers(b, p);
    CoversHead(a, p);
  }

  // ---------- Looking up the pages of a range ----------

  // The intervals of the pages missed before `page`; the last one is still
  // open if it may grow.
  ghost predicate Gathered(s: seq<nat>, cap: nat, left: nat, page: nat, runs: seq<Interval>, open: bool)
    requires cap > 0
  {
    && Apart(runs) && (open ==> runs != [] && runs[|runs| - 1].last + 1 == page)
    && (!open && runs != [] ==> runs[|runs| - 1].last + 1 < page)
    && forall p: nat :: Covers(runs, p) <==> p < page && Missed(s, cap, left, p)
  }

  lemma GatherNew(s: seq<nat>, cap: nat, left: nat, page: nat, runs: seq<Interval>)
    requires cap > 0 && Gathered(s, cap, left, page, runs, false) && Missed(s, cap, left, page)
    ensures Gathered(s, cap, left, page + 1, runs + [Interval(page, page)], true)
  {
    var next := runs + [Interval(page, page)];
    forall p: nat ensures Covers(next, p) <==> Covers(runs, p) || p == page {
      CoversAppend(runs, Interval(page, page), p);
    }
    assert |runs| > 0 ==> forall i :: 0 <= i < |runs| ==> runs[i].last <= runs[|runs| - 1].last;
  }

  lemma GatherMore(s: seq<nat>, cap: nat, left: nat, page: nat, runs: seq<Interval>, first: nat, last: nat)
    requires cap > 0 && Gathered(s, cap, left, page, runs + [Interval(first, last)], true) && Missed(s, cap, left, page)
    ensures last + 1 == page && Gathered(s, cap, left, page + 1, runs + [Interval(first, page)], true)
  {
    var was, now := runs + [Interval(first, last)], runs + [Interval(first, page)];
    assert was[|runs|] == Interval(first, last);
    assert forall i :: 0 <= i < |runs| ==> was[i] == runs[i] == now[i];
    forall p: nat ensures Covers(now, p) <==> Covers(was, p) || p == page {
      CoversAppend(runs, Interval(first, last), p);
      CoversAppend(runs, Interval(first, page), p);
    }
  }

  lemma GatherHit(s: seq<nat>, cap: nat, left: nat, page: nat, runs: seq<Interval>, open: bool)
    requires cap > 0 && Gathered(s, cap, left, page, runs, open) && !Missed(s, cap, left, page)
    ensures Gathered(s, cap, left, page + 1, runs, false)
  {}

  lemma GatherStart(s: seq<nat>, cap: nat, left: nat, page: nat)
    requires cap > 0 && forall p: nat :: p < page ==> !Missed(s, cap, left, p)
    ensures Gathered(s, cap, left, page, [], false)
  {}

  lemma GatherEnd(s: seq<nat>, cap: nat, left: nat, page: nat, runs: seq<Interval>, open: bool)
    requires cap > 0 && Gathered(s, cap, left, page, runs, open)
    ensures Apart(runs) && forall p: nat :: Covers(runs, p) <==> p < page && Missed(s, cap, left, p)
  {}

  // Looks up pages left to right in turn, inserts those missed, and gathers
  // them in intervals.
  method MissedIntervals(cache: LRUCache, left: nat, right: nat) returns (intervals: seq<Interval>)
    requires cache.Valid() && left <= right
    modifies cache
    ensures cache.Valid() && cache.cache == After(old(cache.cache), cache.cap, left, right - left + 1)
    ensures Apart(intervals)
    ensures forall p: nat :: Covers(intervals, p) <==> p <= right && Missed(old(cache.cache), cache.cap, left, p)
  {
    hide Gathered, Inserted, Apart, Covers;
    ghost var s := cache.cache;
    intervals := [];
    var page, found := left, true;
    while page <= right && found
      invariant left <= page <= right + 1 && cache.Valid()
      invariant cache.cache == After(s, cache.cap, left, page - left)
      invariant forall p: nat :: p < page ==> !Missed(s, cache.cap, left, p)
      decreases right + 1 - page, found
    {
      found := cache.Get(page);
      if found {
        page := page + 1;
      }
    }
    GatherStart(s, cache.cap, left, page);
    // The interval being gathered, if one is open.
    var open, first: nat, last: nat := false, 0, 0;
    while page <= right
      invariant left <= page <= right + 1 && cache.Valid()
      invariant cache.cache == After(s, cache.cap, left, page - left)
      invariant open ==> Gathered(s, cache.cap, left, page, intervals + [Interval(first, last)], true)
      invariant !open ==> Gathered(s, cache.cap, left, page, intervals, false)
    {
      var hit := cache.Get(page);
      assert hit <==> !Missed(s, cache.cap, left, page);
      if !hit {
        if !open {
          GatherNew(s, cache.cap, left, page, intervals);
          open, first := true, page;
        } else {
          GatherMore(s, cache.cap, left, page, intervals, first, last);
        }
        last := page;
        cache.Put(page);
      } else if open {
        GatherHit(s, cache.cap, left, page, intervals + [Interval(first, last)], true);
        intervals := intervals + [Interval(first, last)];
        open := false;
      } else {
        GatherHit(s, cache.cap, left, page, intervals, false);
      }
      page := page + 1;
    }
    ghost var open' := open;
    if open {
      intervals := intervals + [Interval(first, last)];
    }
    GatherEnd(s, cache.cap, left, page, intervals, open');
  }

  // ---------- Byte ranges and pages ----------

  // A slot starts at a multiple of the table size, and a table is a whole
  // number of pages.
  ghost predicate Slotted(s: nat, page: nat, size: nat) {
    page > 0 && size > 0 && size % page == 0 && s % size == 0
  }

  lemma SlotPages(s: nat, page: nat, size: nat)
    requires Slotted(s, page, size)
    ensures s % page == 0 && (s + size) % page == 0 && (s + size) % size == 0
  {
    Multiple(s / size, size / page, page);
    Multiple(s / size + 1, size / page, page);
    assert s == s / size * size && size == size / page * page;
    assert (s / size + 1) * size == s / size * size + size;
    DivMulBack(s / size + 1, size);
  }

  lemma Multiple(m: nat, n: nat, page: nat)
    requires page > 0
    ensures m * (n * page) % page == 0
  {
    assert m * (n * page) == m * n * page;
    DivMulBack(m * n, page);
  }

  // The pages a lookup of a value goes through, first and last.
  function LeftPage(s: nat, offset: nat, page: nat): nat
    requires page > 0
  {
    (s + offset) / page
  }

  function RightPage(s: nat, offset: nat, length: nat, page: nat): nat
    requires page > 0
  {
    (s + offset + length) / page
  }

  lemma PageBounds(b: nat, p: nat, page: nat)
    requires page > 0
    ensures b / page < p <==> b < p * page
  {
    if b < p * page { DivBelow(b, p, page); }
    if b >= p * page { DivAtLeast(b, p, page); }
  }

  // Every byte of the value is on one of those pages.
  lemma ValueCovered(s: nat, offset: nat, length: nat, page: nat, b: nat)
    requires page > 0 && s + offset <= b < s + offset + length
    ensures LeftPage(s, offset, page) <= b / page <= RightPage(s, offset, length, page)
  {
    PageBounds(s + offset, b / page + 1, page);
    assert (b / page + 1) * page == b / page * page + page;
    PageBounds(b, (s + offset + length) / page + 1, page);
    var q := (s + offset + length) / page;
    assert (q + 1) * page == q * page + page;
    PageBounds(b, b / page + 1, page);
    PageBounds(s + offset, (s + offset) / page, page);
  }

  // A byte of the value is on the page.
  ghost predicate HasByte(s: nat, offset: nat, length: nat, page: nat, p: nat) {
    exists b: nat :: OfValue(s, offset, length, b) && p * page <= b < (p + 1) * page
  }

  ghost predicate OfValue(s: nat, offset: nat, length: nat, b: nat) { s + offset <= b < s + offset + length }

  // The pages of a lookup are exactly those with a byte of the value, and the
  // one that starts where the value ends, if one does. The first page holds the
  // value's first byte.
  lemma LookupPages(s: nat, offset: nat, length: nat, page: nat, p: nat)
    requires page > 0 && length > 0
    ensures LeftPage(s, offset, page) <= p <= RightPage(s, offset, length, page)
            <==> HasByte(s, offset, length, page, p) || p * page == s + offset + length
    ensures LeftPage(s, offset, page) * page <= s + offset < (LeftPage(s, offset, page) + 1) * page
  {
    var first, end := s + offset, s + offset + length;
    assert (p + 1) * page == p * page + page;
    PageBounds(first, p + 1, page);
    PageBounds(end, p, page);
    QuotientRemainder(first, page);
    assert (first / page + 1) * page == first / page * page + page;
    if first < (p + 1) * page && p * page < end {
      var b := Max(first, p * page);
      assert OfValue(s, offset, length, b) && p * page <= b < (p + 1) * page;
    }
  }

  // The last page is there for nothing exactly when the value ends at a page
  // boundary; it is then a page of the next slot exactly when the value ends
  // with the table.
  lemma LastPageExact(s: nat, offset: nat, length: nat, page: nat, size: nat)
    requires Slotted(s, page, size) && length > 0 && offset + length <= size
    ensures (s + offset + length - 1) / page < RightPage(s, offset, length, page) <==> (s + offset + length) % page == 0
    ensures RightPage(s, offset, length, page) >= (s + size) / page <==> offset + length == size
  {
    SlotPages(s, page, size);
    var x, q := s + offset + length, (s + offset + length) / page;
    PageBounds(x - 1, q, page);
    assert x == q * page + x % page;
    PageBounds(x, (s + size) / page, page);
    assert s + size == (s + size) / page * page;
  }

  // On a device of n slots the pages of a lookup stay on the device if and
  // only if the slot is not the last one or the value ends before its table.
  lemma StaysOnDevice(slot: nat, n: nat, offset: nat, length: nat, page: nat, size: nat)
    requires page > 0 && size > 0 && size % page == 0 && slot < n && length > 0 && offset + length <= size
    ensures RightPage(slot * size, offset, length, page) < n * size / page <==> slot + 1 < n || offset + length < size
  {
    var s := slot * size;
    DivMulBack(slot, size);
    DivMulBack(n, size);
    LastPageExact(s, offset, length, page, size);
    assert (slot + 1) * size == s + size;
    if slot + 1 < n {
      MulMonotone(slot + 2, n, size);
      assert (slot + 2) * size == s + size + size;
      SlotPages(n * size, page, size);
      RightBelow(s, offset, length, page, size, n * size);
    }
  }

  // A page of the next slot is before the end of that slot.
  lemma RightBelow(s: nat, offset: nat, length: nat, page: nat, size: nat, end: nat)
    requires Slotted(s, page, size) && offset + length <= size && s + size + size <= end && end % page == 0
    ensures RightPage(s, offset, length, page) < end / page
  {
    assert end == end / page * page;
    PageBounds(s + offset + length, end / page, page);
  }

  // The lookup of a value: the pages missed among those with a byte of the
  // value, and the one that starts where it ends.
  method LookUp(cache: LRUCache, s: nat, offset: nat, length: nat, page: nat) returns (intervals: seq<Interval>)
    requires cache.Valid() && page > 0 && length > 0
    modifies cache
    ensures cache.Valid() && Apart(intervals)
    ensures forall p: nat :: Covers(intervals, p) <==>
              && (HasByte(s, offset, length, page, p) || p * page == s + offset + length)
              && Missed(old(cache.cache), cache.cap, (s + offset) / page, p)
  {
    hide *;
    CapPositive(cache);
    LeftRight(s, offset, length, page);
    intervals := MissedIntervals(cache, (s + offset) / page, (s + offset + length) / page);
    forall p: nat
      ensures Missed(old(cache.cache), cache.cap, (s + offset) / page, p) ==> (s + offset) / page <= p
      ensures LeftPage(s, offset, page) <= p <= RightPage(s, offset, length, page)
              <==> HasByte(s, offset, length, page, p) || p * page == s + offset + length
    {
      LookupPages(s, offset, length, page, p);
      MissedFrom(old(cache.cache), cache.cap, (s + offset) / page, p);
    }
  }

  lemma CapPositive(cache: LRUCache)
    requires cache.Valid()
    ensures cache.cap > 0
  {}

  lemma LeftRight(s: nat, offset: nat, length: nat, page: nat)
    requires page > 0
    ensures LeftPage(s, offset, page) == (s + offset) / page
    ensures RightPage(s, offset, length, page) == (s + offset + length) / page
    ensures (s + offset) / page <= (s + offset + length) / page
  {
    PageBounds(s + offset, (s + offset + length) / page + 1, page);
    QuotientRemainder(s + offset + length, page);
    assert ((s + offset + length) / page + 1) * page == (s + offset + length) / page * page + page;
  }

  lemma MissedFrom(s: seq<nat>, cap: nat, left: nat, p: nat)
    requires cap > 0
    ensures Missed(s, cap, left, p) ==> left <= p
  {}

  // A value that fills its table to the last byte.
  function LongestValue(): (v: string)
    ensures |v| == TABLE_SIZE - INITIAL_SIZE - 13
  {
    seq(TABLE_SIZE - INITIAL_SIZE - 13, _ => 'a')
  }

  // A compaction can write such a table, and the lookup of its value goes
  // through the first page of the next slot.
  method LastPageExample(h: Hash, key: nat, slot: nat) returns (t: Table, ans: string, read: (nat, nat))
    ensures WellFormed(h, t) && t.keyValue == [Pair(key, LongestValue())]
    ensures AllFit(t.keyValue) && Bytes(t.keyValue) == TABLE_SIZE
    ensures ans == LongestValue() && ReadsValue(t, key, read) && read.0 + read.1 == TABLE_SIZE
    ensures RightPage(slot * TABLE_SIZE, read.0, read.1, PAGE_SIZE) == (slot + 1) * TABLE_SIZE / PAGE_SIZE
  {
    hide LongestValue, WellFormed, MakeTable, Bytes, Find;
    var pairs := [Pair(key, LongestValue())];
    t := FromMerge(h, 1, 1, 0, pairs);
    MakeTableShape(h, 1, 1, 0, key, key, pairs);
    OnePairOnly(pairs[0]);
    PackedRead(h, 1, 1, 0, key, key, pairs, 0);
    var found;
    ans, found := GetValue(h, t, key);
    read := found.value;
    assert (slot + 1) * TABLE_SIZE == slot * TABLE_SIZE + TABLE_SIZE;
  }

  lemma MakeTableShape(h: Hash, level: nat, order: nat, timeStamp: nat, minKey: nat, maxKey: nat, pairs: seq<Pair>)
    ensures var t := MakeTable(h, Length, level, order, timeStamp, minKey, maxKey, pairs);
            t.keyValue == pairs && |t.offset| == |pairs|
  {}

  lemma OnePairOnly(p: Pair)
    ensures Bytes([p]) == INITIAL_SIZE + |p.val| + 13 && Find([p], p.key) == Some(p.val)
  {
    assert [p][..0] == [];
  }

  // ---------- Whole-table reads ----------

  function AlignedLeft(s: nat, offset: nat, page: nat): nat
    requires page > 0
  {
    (s + offset) / page * page
  }

  function AlignedRight(s: nat, offset: nat, length: nat, page: nat, size: nat): nat
    requires page > 0 && size > 0
  {
    var x := s + offset + length;
    if x % size == 0 then x else (x / page + 1) * page
  }

  lemma AlignedLeftOk(s: nat, offset: nat, page: nat)
    requires page > 0 && s % page == 0
    ensures AlignedLeft(s, offset, page) % page == 0 && s <= AlignedLeft(s, offset, page) <= s + offset
  {
    DivMulBack((s + offset) / page, page);
    assert s == s / page * page;
    DivAtLeast(s + offset, s / page, page);
    MulMonotone(s / page, (s + offset) / page, page);
  }

  // The next page boundary after x is not past a boundary after x.
  lemma NextBoundary(x: nat, end: nat, page: nat)
    requires page > 0 && end % page == 0 && x < end
    ensures (x / page + 1) * page % page == 0 && x < (x / page + 1) * page <= end
    ensures (x / page + 1) * page <= x + page
  {
    DivMulBack(x / page + 1, page);
    assert (x / page + 1) * page == x / page * page + page;
    DivBelow(x, end / page, page);
    MulMonotone(x / page + 1, end / page, page);
  }

  // The bytes a table read asks for: whole pages, the value among them, all
  // inside the table.
  lemma AlignedRange(s: nat, offset: nat, length: nat, page: nat, size: nat)
    requires Slotted(s, page, size) && length > 0 && offset + length <= size
    ensures var left, right := AlignedLeft(s, offset, page), AlignedRight(s, offset, length, page, size);
            && left % page == 0 && right % page == 0
            && s <= left <= s + offset && s + offset + length <= right <= s + size
            // No page too many in front, and behind only the one that starts
            // where the value ends, if it ends before the table does.
            && s + offset < left + page
            && (offset + length == size ==> right == s + size)
            && (offset + length < size ==> s + offset + length < right <= s + offset + length + page)
  {
    SlotPages(s, page, size);
    AlignedLeftOk(s, offset, page);
    QuotientRemainder(s + offset, page);
    QuotientRemainder(s + offset + length, page);
    var x := s + offset + length;
    if x < s + size {
      BetweenMultiples(s, x, size);
      NextBoundary(x, s + size, page);
    }
  }

  lemma BetweenMultiples(s: nat, x: nat, size: nat)
    requires size > 0 && s % size == 0 && s < x < s + size
    ensures x % size != 0
  {
    DivUnique(x, size, s / size, x - s);
  }

  // ---------- Deleting a table's pages ----------

  // The list without n pages from `left` on.
  function Dropped(s: seq<nat>, left: nat, n: nat): seq<nat> {
    if n == 0 then s else Without(Dropped(s, left, n - 1), left + n - 1)
  }

  lemma DroppedNext(s: seq<nat>, left: nat, n: nat)
    ensures Dropped(s, left, 0) == s && Dropped(s, left, n + 1) == Without(Dropped(s, left, n), left + n)
  {}

  // Deletes the pages of a table from the cache, and the page after them.
  method DropPages(cache: LRUCache, s: nat, page: nat, size: nat)
    requires cache.Valid() && Slotted(s, page, size)
    modifies cache
    ensures cache.Valid()
    ensures cache.cache == Dropped(old(cache.cache), s / page, (s + size) / page + 1 - s / page)
    ensures forall p :: p in cache.cache <==> p in old(cache.cache) && !(s / page <= p <= (s + size) / page)
    ensures forall b :: s <= b < s + size ==> b / page !in cache.cache
  {
    hide *;
    SlottedPositive(s, page, size);
    TablePages(s, page, size);
    var left, right := s / page, (s + size) / page;
    var p := left;
    DroppedNext(cache.cache, left, 0);
    while p <= right
      invariant left <= p <= right + 1 && cache.Valid() && cache.cache == Dropped(old(cache.cache), left, p - left)
      invariant forall q :: q in cache.cache <==> q in old(cache.cache) && !(left <= q < p && q <= right)
    {
      DroppedNext(old(cache.cache), left, p - left);
      cache.Del(p);
      p := p + 1;
    }
  }

  lemma SlottedPositive(s: nat, page: nat, size: nat)
    requires Slotted(s, page, size)
    ensures page > 0 && size > 0
  {}

  lemma TablePages(s: nat, page: nat, size: nat)
    requires page > 0
    ensures forall b: nat :: s <= b < s + size ==> s / page <= b / page <= (s + size) / page
  {
    forall b: nat | s <= b < s + size ensures s / page <= b / page <= (s + size) / page {
      ValueCovered(s, 0, size, page, b);
    }
  }
}
