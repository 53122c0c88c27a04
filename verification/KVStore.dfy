// The store as it runs: a skip list, levels of tables and the zone manager.
// Every operation does what the specification of the store says.
module KVStores {
  import opened Options
  import opened Cascades
  import opened Compaction
  import opened History
  import opened Leaks
  import opened Levels
  import opened Merge
  import opened Pairs
  import Protocol
  import opened QueueCaches
  import opened Relocation
  import opened SkipLists
  import Stores
  import opened Tables
  import opened ZoneManager
  import opened ZoneState

  // ---------- Tables and the zone manager's numbers ----------


  ghost predicate OrdersDiffer(l: seq<Table>) {
    forall a, b :: 0 <= a < b < |l| ==> l[a].order != l[b].order
  }

  ghost predicate TableFine(h: Hash, t: Table, level: nat, count: nat, keys: set<Id>) {
    WellFormed(h, t) && t.level == level && 1 <= t.order <= count && IdOf(t) in keys
  }

  // A level is an ordered set of tables with orders of their own, all known
  // to the zone manager.
  ghost predicate LevelFine(h: Hash, l: seq<Table>, level: nat, count: nat, keys: set<Id>) {
    && SortedLevel(l) && Solid(l) && OrdersDiffer(l)
    && forall t :: t in l ==> TableFine(h, t, level, count, keys)
  }

  ghost predicate HasOrder(l: seq<Table>, order: nat) {
    exists a :: 0 <= a < |l| && l[a].order == order
  }

  // The zone manager knows no number that is still to be given out.
  ghost predicate KeyFine(t: Tiers, id: Id)
    requires |t.levels| == |t.count| && t.levels != []
  {
    && id.level < |t.levels| && 1 <= id.num <= t.count[id.level]
    && (id.level == 0 ==> HasOrder(t.levels[0], id.num))
  }

  ghost predicate Coherent(h: Hash, t: Tiers, keys: set<Id>) {
    && t.Sound()
    && (forall i :: 0 <= i < |t.levels| ==> LevelFine(h, t.levels[i], i, t.count[i], keys))
    && (forall id :: id in keys ==> KeyFine(t, id))
  }

  lemma LevelOf(h: Hash, t: Tiers, keys: set<Id>, i: nat)
    requires Coherent(h, t, keys) && i < |t.levels|
    ensures |t.levels| == |t.count| && t.Sound() && LevelFine(h, t.levels[i], i, t.count[i], keys)
  {}

  lemma NextIsNew(h: Hash, t: Tiers, keys: set<Id>, i: nat)
    requires Coherent(h, t, keys) && i < |t.levels|
    ensures |t.levels| == |t.count| && Id(i, t.count[i] + 1) !in keys
  {
    var id := Id(i, t.count[i] + 1);
    assert id in keys ==> KeyFine(t, id);
  }

  // ---------- One more table ----------

  lemma {:induction false} EmplaceOrders(l: seq<Table>, t: Table)
    requires OrdersDiffer(l) && forall x :: x in l ==> x.order < t.order
    ensures OrdersDiffer(Emplace(l, t))
  {
    if l != [] && Before(l[0], t) && !Before(t, l[0]) {
      EmplaceOrders(l[1..], t);
      var r := Emplace(l[1..], t);
      assert forall i :: 0 <= i < |r| ==> r[i] in r;
      assert forall x :: x in l[1..] ==> x.order != l[0].order;
      assert l[0] in l;
    } else {
      assert forall i :: 0 <= i < |l| ==> l[i] in l;
    }
  }

  // A table written to level i under the next number.
  function With(t: Tiers, i: nat, table: Table): Tiers
    requires i < |t.levels| == |t.count|
  {
    Tiers(t.levels[i := Emplace(t.levels[i], table)], t.count[i := t.count[i] + 1])
  }

  lemma LevelGrows(h: Hash, l: seq<Table>, level: nat, count: nat, keys: set<Id>, table: Table)
    requires LevelFine(h, l, level, count, keys) && table.keyValue != [] && AllFit(table.keyValue)
    requires WellFormed(h, table) && table.level == level && table.order == count + 1
    ensures LevelFine(h, Emplace(l, table), level, count + 1, keys + {IdOf(table)})
  {
    assert forall x :: x in l ==> TableFine(h, x, level, count, keys);
    EmplaceSorted(l, table);
    EmplaceOrders(l, table);
    hide WellFormed, SortedLevel, OrdersDiffer, AllFit;
    forall x | x in Emplace(l, table) ensures TableFine(h, x, level, count + 1, keys + {IdOf(table)}) {}
  }

  lemma LevelKeeps(h: Hash, l: seq<Table>, level: nat, count: nat, keys: set<Id>, more: set<Id>)
    requires LevelFine(h, l, level, count, keys) && keys <= more
    ensures LevelFine(h, l, level, count, more)
  {
    hide WellFormed, SortedLevel, OrdersDiffer, Solid;
    forall x | x in l ensures TableFine(h, x, level, count, more) { assert TableFine(h, x, level, count, keys); }
  }

  lemma WithCoherent(h: Hash, t: Tiers, keys: set<Id>, i: nat, table: Table)
    requires Coherent(h, t, keys) && i < |t.levels| == |t.count| && WellFormed(h, table)
    requires table.keyValue != [] && AllFit(table.keyValue) && table.level == i && table.order == t.count[i] + 1
    requires i == 0 ==> forall x :: x in t.levels[0] ==> Before(x, table)
    ensures Coherent(h, With(t, i, table), keys + {IdOf(table)})
  {
    var r, more := With(t, i, table), keys + {IdOf(table)};
    hide WellFormed, AllFit;
    forall j | 0 <= j < |r.levels| ensures LevelFine(h, r.levels[j], j, r.count[j], more) && Solid(r.levels[j]) {
      LevelOf(h, t, keys, j);
      if j == i {
        LevelGrows(h, t.levels[i], i, t.count[i], keys, table);
      } else {
        LevelKeeps(h, t.levels[j], j, t.count[j], keys, more);
      }
    }
    hide LevelFine, Solid;
    forall id | id in more ensures KeyFine(r, id) {
      if id in keys { assert KeyFine(t, id); }
      if i == 0 {
        EmplaceLast(t.levels[0], table);
        if id.level == 0 && id in keys {
          var a :| 0 <= a < |t.levels[0]| && t.levels[0][a].order == id.num;
          assert r.levels[0][a].order == id.num;
        } else if id == IdOf(table) {
          assert r.levels[0][|t.levels[0]|].order == id.num;
        }
      }
    }
  }

  // ---------- One table less ----------

  lemma LevelShrinks(h: Hash, l: seq<Table>, l': seq<Table>, level: nat, count: nat, keys: set<Id>, id: Id)
    requires LevelFine(h, l, level, count, keys) && SortedLevel(l') && OrdersDiffer(l')
    requires forall x :: x in l' ==> x in l && IdOf(x) != id
    ensures LevelFine(h, l', level, count, keys - {id})
  {
    hide WellFormed, SortedLevel, OrdersDiffer;
    forall x | x in l' ensures TableFine(h, x, level, count, keys - {id}) {
      assert TableFine(h, x, level, count, keys);
    }
  }

  lemma OthersKeep(h: Hash, t: Tiers, keys: set<Id>, id: Id, j: nat)
    requires Coherent(h, t, keys) && j < |t.levels| && id.level != j
    ensures |t.levels| == |t.count| && LevelFine(h, t.levels[j], j, t.count[j], keys - {id}) && Solid(t.levels[j])
  {
    LevelOf(h, t, keys, j);
    var l := t.levels[j];
    assert forall x :: x in l ==> TableFine(h, x, j, t.count[j], keys);
    hide SortedLevel, OrdersDiffer, WellFormed;
    forall x | x in l ensures TableFine(h, x, j, t.count[j], keys - {id}) {}
  }

  lemma {:induction false} EraseOrders(l: seq<Table>, gone: seq<Table>)
    requires OrdersDiffer(l)
    ensures OrdersDiffer(Erase(l, gone))
  {
    if l != [] {
      EraseOrders(l[1..], gone);
      var r := Erase(l[1..], gone);
      assert forall x :: x in l[1..] ==> x.order != l[0].order;
      assert forall i :: 0 <= i < |r| ==> r[i] in l[1..];
    }
  }

  lemma {:induction false} EraseTwice(l: seq<Table>, a: seq<Table>, b: seq<Table>)
    ensures Erase(Erase(l, a), b) == Erase(l, a + b)
  {
    if l != [] {
      EraseTwice(l[1..], a, b);
      assert EquivalentToOne(l[0], a + b) <==> EquivalentToOne(l[0], a) || EquivalentToOne(l[0], b) by {
        if EquivalentToOne(l[0], a) {
          var i :| 0 <= i < |a| && Equivalent(l[0], a[i]);
          assert Equivalent(l[0], (a + b)[i]);
        }
        if EquivalentToOne(l[0], b) {
          var i :| 0 <= i < |b| && Equivalent(l[0], b[i]);
          assert Equivalent(l[0], (a + b)[|a| + i]);
        }
      }
    }
  }

  lemma {:induction false} EraseNone(l: seq<Table>)
    ensures Erase(l, []) == l
  {
    if l != [] { EraseNone(l[1..]); }
  }

  // The first table of level i is gone.
  function WithoutFirst(t: Tiers, i: nat): Tiers
    requires i < |t.levels| && t.levels[i] != []
  {
    Tiers(t.levels[i := t.levels[i][1..]], t.count)
  }

  lemma WithoutFirstCoherent(h: Hash, t: Tiers, keys: set<Id>, i: nat)
    requires Coherent(h, t, keys) && i < |t.levels| && t.levels[i] != []
    ensures Coherent(h, WithoutFirst(t, i), keys - {IdOf(t.levels[i][0])})
  {
    var l, id, r, less := t.levels[i], IdOf(t.levels[i][0]), WithoutFirst(t, i), keys - {IdOf(t.levels[i][0])};
    LevelOf(h, t, keys, i);
    assert l[0] in l && TableFine(h, l[0], i, t.count[i], keys);
    assert forall x :: x in l[1..] ==> x.order != l[0].order;
    LevelShrinks(h, l, l[1..], i, t.count[i], keys, id);
    forall j | 0 <= j < |r.levels| ensures LevelFine(h, r.levels[j], j, r.count[j], less) && Solid(r.levels[j]) {
      if j != i { OthersKeep(h, t, keys, id, j); }
    }
    hide LevelFine, Solid, TableFine;
    forall x | x in less ensures KeyFine(r, x) {
      assert KeyFine(t, x);
      if x.level == 0 && i == 0 {
        var a :| 0 <= a < |l| && l[a].order == x.num;
        assert a > 0 ==> r.levels[0][a - 1].order == x.num;
      }
    }
  }

  // A table of a level below the first is erased.
  function WithoutOne(t: Tiers, i: nat, x: Table): Tiers
    requires i < |t.levels|
  {
    Tiers(t.levels[i := Erase(t.levels[i], [x])], t.count)
  }

  lemma WithoutOneCoherent(h: Hash, t: Tiers, keys: set<Id>, i: nat, x: Table)
    requires Coherent(h, t, keys) && 0 < i < |t.levels| && x in t.levels[i]
    ensures Coherent(h, WithoutOne(t, i, x), keys - {IdOf(x)})
  {
    var l, id, r, less := t.levels[i], IdOf(x), WithoutOne(t, i, x), keys - {IdOf(x)};
    LevelOf(h, t, keys, i);
    assert TableFine(h, x, i, t.count[i], keys);
    EraseSorted(l, [x]);
    EraseOrders(l, [x]);
    forall y | y in Erase(l, [x]) ensures y in l && IdOf(y) != id {
      assert Equivalent(x, [x][0]);
      assert y != x;
      var a :| 0 <= a < |l| && l[a] == y;
      var b :| 0 <= b < |l| && l[b] == x;
    }
    LevelShrinks(h, l, Erase(l, [x]), i, t.count[i], keys, id);
    forall j | 0 <= j < |r.levels| ensures LevelFine(h, r.levels[j], j, r.count[j], less) && Solid(r.levels[j]) {
      if j != i { OthersKeep(h, t, keys, id, j); }
    }
    hide LevelFine, Solid, TableFine;
    forall y | y in less ensures KeyFine(r, y) {
      assert KeyFine(t, y);
    }
  }

  // A new level.
  lemma ExtendCoherent(h: Hash, t: Tiers, keys: set<Id>, level: nat)
    requires Coherent(h, t, keys) && level <= |t.levels|
    ensures Coherent(h, t.Extend(level), keys)
  {
    var r := t.Extend(level);
    forall j | 0 <= j < |r.levels| ensures LevelFine(h, r.levels[j], j, r.count[j], keys) && Solid(r.levels[j]) {
      if j < |t.levels| { LevelOf(h, t, keys, j); }
    }
    hide LevelFine, Solid;
    forall id | id in keys ensures KeyFine(r, id) { assert KeyFine(t, id); }
  }

  // ---------- Numbers left behind ----------

  // A number is in the levels when the level it names has it.
  lemma IdsAt(h: Hash, t: Tiers, keys: set<Id>)
    requires Coherent(h, t, keys)
    ensures Ids(t) <= keys
    ensures forall id :: id in Ids(t) <==> id.level < |t.levels| && id in IdsOf(t.levels[id.level])
  {
    hide WellFormed, SortedLevel, OrdersDiffer, Solid;
    forall i, x | 0 <= i < |t.levels| && x in t.levels[i] ensures IdOf(x).level == i && IdOf(x) in keys {
      assert TableFine(h, x, i, t.count[i], keys);
    }
  }

  // When one level changes, only its numbers do.
  lemma IdsChange(h: Hash, t: Tiers, keys: set<Id>, t': Tiers, keys': set<Id>, i: nat, more: set<Id>, less: set<Id>)
    requires Coherent(h, t, keys) && Coherent(h, t', keys') && i < |t.levels| == |t'.levels|
    requires forall j :: 0 <= j < |t.levels| && j != i ==> t'.levels[j] == t.levels[j]
    requires (forall id :: id in more + less ==> id.level == i) && less <= IdsOf(t.levels[i])
    requires IdsOf(t'.levels[i]) == IdsOf(t.levels[i]) - less + more
    ensures Ids(t') == Ids(t) - less + more && Ids(t) <= keys
  {
    IdsAt(h, t, keys);
    IdsAt(h, t', keys');
    hide Coherent, Ids, IdsOf;
    assert forall id :: id in Ids(t') <==> id in Ids(t) - less + more;
  }

  lemma EmplaceIds(l: seq<Table>, t: Table)
    requires SortedLevel(l)
    ensures IdsOf(Emplace(l, t)) == IdsOf(l) + if EquivalentToOne(t, l) then {} else {IdOf(t)}
  {
    EmplaceMembers(l, t);
    hide Emplace, EquivalentToOne;
  }

  lemma WithLeak(h: Hash, t: Tiers, keys: set<Id>, i: nat, table: Table)
    requires Coherent(h, t, keys) && i < |t.levels| == |t.count| && table.level == i && table.order == t.count[i] + 1
    requires Coherent(h, With(t, i, table), keys + {IdOf(table)})
    ensures keys + {IdOf(table)} - Ids(With(t, i, table)) == keys - Ids(t) + LeakOf(t.levels[i], table)
  {
    LevelOf(h, t, keys, i);
    EmplaceIds(t.levels[i], table);
    NextIsNew(h, t, keys, i);
    hide Coherent, Emplace, EquivalentToOne, SortedLevel, OrdersDiffer, TableFine;
    IdsChange(h, t, keys, With(t, i, table), keys + {IdOf(table)}, i,
              if EquivalentToOne(table, t.levels[i]) then {} else {IdOf(table)}, {});
  }

  lemma WithoutFirstLeak(h: Hash, t: Tiers, keys: set<Id>, i: nat)
    requires Coherent(h, t, keys) && i < |t.levels| && t.levels[i] != []
    requires Coherent(h, WithoutFirst(t, i), keys - {IdOf(t.levels[i][0])})
    ensures keys - {IdOf(t.levels[i][0])} - Ids(WithoutFirst(t, i)) == keys - Ids(t)
  {
    var l := t.levels[i];
    LevelOf(h, t, keys, i);
    FirstFine(h, t, keys, i);
    RestIds(l);
    hide Coherent, OrdersDiffer, TableFine;
    IdsChange(h, t, keys, WithoutFirst(t, i), keys - {IdOf(l[0])}, i, {}, {IdOf(l[0])});
  }

  lemma RestIds(l: seq<Table>)
    requires l != [] && OrdersDiffer(l)
    ensures IdOf(l[0]) in IdsOf(l) && IdsOf(l[1..]) == IdsOf(l) - {IdOf(l[0])}
  {
    assert l == [l[0]] + l[1..];
    assert forall x :: x in l[1..] ==> x.order != l[0].order;
  }

  lemma WithoutOneLeak(h: Hash, t: Tiers, keys: set<Id>, i: nat, x: Table)
    requires Coherent(h, t, keys) && i < |t.levels| && x in t.levels[i]
    requires Coherent(h, WithoutOne(t, i, x), keys - {IdOf(x)})
    ensures keys - {IdOf(x)} - Ids(WithoutOne(t, i, x)) == keys - Ids(t)
  {
    LevelOf(h, t, keys, i);
    assert TableFine(h, x, i, t.count[i], keys);
    ErasedIds(t.levels[i], x);
    hide Coherent, OrdersDiffer, SortedLevel, TableFine, Erase;
    IdsChange(h, t, keys, WithoutOne(t, i, x), keys - {IdOf(x)}, i, {}, {IdOf(x)});
  }

  lemma ErasedIds(l: seq<Table>, x: Table)
    requires x in l && OrdersDiffer(l) && SortedLevel(l)
    ensures IdOf(x) in IdsOf(l) && IdsOf(Erase(l, [x])) == IdsOf(l) - {IdOf(x)}
  {
    assert Equivalent(x, [x][0]);
    forall y | y in l && y != x ensures IdOf(y) != IdOf(x) && !EquivalentToOne(y, [x]) {
      var a :| 0 <= a < |l| && l[a] == x;
      var b :| 0 <= b < |l| && l[b] == y;
      SortedDistinct(l, x, y);
    }
    hide Erase, EquivalentToOne, SortedLevel, OrdersDiffer;
  }

  lemma SameIds(t: Tiers, t': Tiers)
    requires t'.levels == t.levels || t'.levels == t.levels + [[]]
    ensures Ids(t') == Ids(t)
  {
    assert forall j :: 0 <= j < |t.levels| ==> t'.levels[j] == t.levels[j];
  }

  lemma LeakOfLast(l: seq<Table>, t: Table)
    requires forall x :: x in l ==> Before(x, t)
    ensures LeakOf(l, t) == {}
  {}

  lemma FilledLeak(h: Hash, t: Tiers, level: nat, T: nat, chunks: seq<seq<Pair>>, c: seq<Pair>)
    requires level < |t.levels| == |t.count| && NonEmpty(chunks + [c])
    ensures NonEmpty(chunks) && c != [] && level < |Filled(h, t, level, T, chunks).levels|
    ensures LeakAll(t.levels[level], NewTables(h, level, t.count[level], T, chunks + [c]))
         == LeakAll(t.levels[level], NewTables(h, level, t.count[level], T, chunks))
            + LeakOf(Filled(h, t, level, T, chunks).levels[level],
                     MakeTable(h, Length, level, t.count[level] + |chunks| + 1, T, c[0].key, c[|c| - 1].key, c))
  {
    hide *;
    var count := t.count[level];
    NewTablesNext(h, level, count, T, chunks, c);
    FilledLevel(h, t, level, T, chunks);
    var made := MakeTable(h, Length, level, count + |chunks| + 1, T, c[0].key, c[|c| - 1].key, c);
    LeakNext(t.levels[level], NewTables(h, level, count, T, chunks), made);
  }

  lemma FilledLevel(h: Hash, t: Tiers, level: nat, T: nat, chunks: seq<seq<Pair>>)
    requires level < |t.levels| == |t.count| && NonEmpty(chunks)
    ensures level < |Filled(h, t, level, T, chunks).levels|
    ensures Filled(h, t, level, T, chunks).levels[level]
         == EmplaceAll(t.levels[level], NewTables(h, level, t.count[level], T, chunks))
  {
    hide EmplaceAll, NewTables;
  }

  lemma NoLeakYet(h: Hash, l: seq<Table>, level: nat, count: nat, T: nat)
    ensures LeakAll(l, NewTables(h, level, count, T, [])) == {}
  {}

  lemma MergeLeakIs(h: Hash, x: Tiers, level: nat, n: nat)
    requires 1 <= level < |x.levels| == |x.count| && 0 < n <= |x.levels[level - 1]|
    requires Solid(x.levels[level]) && Solid(x.levels[level - 1][..n])
    ensures var picked, low := x.levels[level - 1][..n], x.levels[level];
            MergeLeak(h, x, level, n) ==
              LeakAll(low, NewTables(h, level, x.count[level], picked[n - 1].timeStamp,
                                     Chunks(picked, low, level == |x.levels| - 1)))
  {
    var picked, low := x.levels[level - 1][..n], x.levels[level];
    AddedSize(h, picked, low, level, x.count[level], level == |x.levels| - 1);
    hide LeakAll, Added, NewTables, Chunks, Solid;
  }

  // ---------- Choosing what to merge ----------

  lemma {:induction false} SelectAppend(l: seq<Table>, t: Table, lo: nat, hi: nat)
    ensures Select(l + [t], lo, hi) == Select(l, lo, hi) + if Overlaps(t, lo, hi) then [t] else []
  {
    if l != [] {
      assert (l + [t])[1..] == l[1..] + [t];
      SelectAppend(l[1..], t, lo, hi);
    }
  }

  lemma TakeNext<T>(s: seq<T>, i: nat)
    requires i < |s|
    ensures s[..i + 1] == s[..i] + [s[i]]
  {}

  lemma PickStart(up: seq<Table>, low: seq<Table>)
    ensures up[..0] == [] && EnqueueAll([]) == [] && HullMin([]) == INT64_MAX && HullMax([]) == 0
    ensures forall lo, hi :: Select(low[..0], lo, hi) == []
  {
    assert low[..0] == [];
  }

  lemma PickEnd(picked: seq<Table>, low: seq<Table>)
    ensures Sources(picked, low) == EnqueueAll(picked + Select(low, HullMin(picked), HullMax(picked)))
  {}

  lemma OverlapsIs(t: Table, lo: nat, hi: nat)
    ensures Overlaps(t, lo, hi) <==> t.maxKey >= lo && t.minKey <= hi
  {}

  // The first n tables of the upper level, and those of the lower level that
  // their key range meets, in the order of a priority queue.
  method PickSources(up: seq<Table>, n: nat, low: seq<Table>) returns (queue: seq<Table>, merged: seq<Table>,
                     timeStamp: nat)
    requires 0 < n <= |up|
    ensures queue == Sources(up[..n], low) && timeStamp == up[..n][n - 1].timeStamp
    ensures merged == Select(low, HullMin(up[..n]), HullMax(up[..n]))
  {
    hide *;
    PickStart(up, low);
    var tempMin, tempMax := INT64_MAX, 0;
    queue, merged, timeStamp := [], [], 0;
    var i := 0;
    while i < n
      invariant 0 <= i <= n && queue == EnqueueAll(up[..i])
      invariant tempMin == HullMin(up[..i]) && tempMax == HullMax(up[..i])
      invariant i > 0 ==> timeStamp == up[i - 1].timeStamp
    {
      TakeNext(up, i);
      EnqueueNext(up[..i], up[i]);
      HullNext(up[..i], up[i]);
      queue := Enqueue(queue, up[i]);
      timeStamp := up[i].timeStamp;
      if up[i].maxKey > tempMax {
        tempMax := up[i].maxKey;
      }
      if up[i].minKey < tempMin {
        tempMin := up[i].minKey;
      }
      i := i + 1;
    }
    ghost var picked := up[..n];
    assert picked + merged == picked;
    var j := 0;
    while j < |low|
      invariant 0 <= j <= |low| && merged == Select(low[..j], tempMin, tempMax)
      invariant queue == EnqueueAll(picked + merged)
    {
      TakeNext(low, j);
      SelectAppend(low[..j], low[j], tempMin, tempMax);
      OverlapsIs(low[j], tempMin, tempMax);
      if low[j].maxKey >= tempMin && low[j].minKey <= tempMax {
        EnqueueNext(picked + merged, low[j]);
        assert picked + (merged + [low[j]]) == picked + merged + [low[j]];
        queue := Enqueue(queue, low[j]);
        merged := merged + [low[j]];
      }
      j := j + 1;
    }
    assert low[..j] == low;
    PickEnd(picked, low);
  }

  lemma SoundOf(h: Hash, t: Tiers, keys: set<Id>)
    requires Coherent(h, t, keys)
    ensures t.Sound() && |t.levels| == |t.count|
  {}

  lemma FirstFine(h: Hash, t: Tiers, keys: set<Id>, i: nat)
    requires Coherent(h, t, keys) && i < |t.levels| && t.levels[i] != []
    ensures IdOf(t.levels[i][0]) in keys && IdOf(t.levels[i][0]).level == i
  {
    LevelOf(h, t, keys, i);
    assert t.levels[i][0] in t.levels[i];
    assert TableFine(h, t.levels[i][0], i, t.count[i], keys);
  }

  lemma DueIs(t: Tiers, level: nat)
    requires 1 <= level <= |t.levels|
    ensures Due(t, level)
            <==> if level == 1 then |t.levels[0]| > LEVEL0 else |t.levels[level - 1]| > UpperNum(level - 1)
  {
    hide UpperNum;
  }

  lemma ExtendIs(t: Tiers, level: nat)
    ensures t.Extend(level) == if |t.levels| <= level then Tiers(t.levels + [[]], t.count + [0]) else t
  {}

  lemma CompactNumIs(t: Tiers, level: nat)
    requires 1 <= level <= |t.levels| && Due(t, level)
    ensures CompactNum(t, level) == if level == 1 then LEVEL0 + 1 else |t.levels[level - 1]| - UpperNum(level - 1)
  {
    hide UpperNum;
  }

  // ---------- One compaction in steps ----------

  // Level `level` once the tables of some chunks were written to it.
  function Filled(h: Hash, t: Tiers, level: nat, T: nat, chunks: seq<seq<Pair>>): Tiers
    requires level < |t.levels| == |t.count| && NonEmpty(chunks)
  {
    Tiers(t.levels[level := EmplaceAll(t.levels[level], NewTables(h, level, t.count[level], T, chunks))],
          t.count[level := t.count[level] + |chunks|])
  }

  lemma FilledNext(h: Hash, t: Tiers, level: nat, T: nat, chunks: seq<seq<Pair>>, c: seq<Pair>)
    requires level < |t.levels| == |t.count| && NonEmpty(chunks + [c])
    ensures NonEmpty(chunks) && c != []
    ensures |Filled(h, t, level, T, chunks).levels| == |t.levels| == |Filled(h, t, level, T, chunks).count|
    ensures Filled(h, t, level, T, chunks).count[level] == t.count[level] + |chunks|
    ensures Filled(h, t, level, T, chunks + [c])
         == With(Filled(h, t, level, T, chunks), level,
                 MakeTable(h, Length, level, t.count[level] + |chunks| + 1, T, c[0].key, c[|c| - 1].key, c))
  {
    hide *;
    NewTablesNext(h, level, t.count[level], T, chunks, c);
    var made := MakeTable(h, Length, level, t.count[level] + |chunks| + 1, T, c[0].key, c[|c| - 1].key, c);
    EmplaceAllNext(t.levels[level], NewTables(h, level, t.count[level], T, chunks), made);
    FilledIs(h, t, level, T, chunks);
    FilledIs(h, t, level, T, chunks + [c]);
    WithIs(t, Filled(h, t, level, T, chunks), level,
           EmplaceAll(t.levels[level], NewTables(h, level, t.count[level], T, chunks)),
           t.count[level] + |chunks|, made);
  }

  lemma WithIs(t: Tiers, f: Tiers, level: nat, l: seq<Table>, c: nat, made: Table)
    requires level < |t.levels| == |t.count| && f == Tiers(t.levels[level := l], t.count[level := c])
    ensures |f.levels| == |f.count| == |t.levels|
    ensures With(f, level, made) == Tiers(t.levels[level := Emplace(l, made)], t.count[level := c + 1])
  {
    hide Emplace;
  }

  lemma FilledNone(h: Hash, t: Tiers, level: nat, T: nat)
    requires level < |t.levels| == |t.count|
    ensures Filled(h, t, level, T, []) == t
  {
    assert t.levels[level := t.levels[level]] == t.levels && t.count[level := t.count[level]] == t.count;
  }

  ghost predicate GoodChunks(chunks: seq<seq<Pair>>) {
    forall i :: 0 <= i < |chunks| ==> chunks[i] != [] && Ascending(chunks[i]) && AllFit(chunks[i])
  }

  lemma ChunkAt(chunks: seq<seq<Pair>>, i: nat)
    requires GoodChunks(chunks) && i < |chunks|
    ensures chunks[i] != [] && Ascending(chunks[i]) && AllFit(chunks[i])
    ensures NonEmpty(chunks[..i]) && NonEmpty(chunks[..i + 1])
  {}

  lemma AllChunks(chunks: seq<seq<Pair>>)
    requires GoodChunks(chunks)
    ensures NonEmpty(chunks) && NonEmpty(chunks[..0])
  {}

  lemma ContentsNone()
    ensures Contents([]) == []
  {}

  // The numbers of tables, in their order.
  function IdList(ts: seq<Table>): (ids: seq<Id>)
    ensures |ids| == |ts| && forall i :: 0 <= i < |ts| ==> ids[i] == IdOf(ts[i])
  {
    seq(|ts|, i requires 0 <= i < |ts| => IdOf(ts[i]))
  }

  lemma IdsOfNext(ts: seq<Table>, j: nat)
    requires j < |ts|
    ensures IdsOf(ts[..0]) == {} && IdsOf(ts[..j + 1]) == IdsOf(ts[..j]) + {IdOf(ts[j])}
  {
    assert ts[..j + 1] == ts[..j] + [ts[j]];
  }

  lemma IdListIs(ts: seq<Table>)
    ensures IdList(ts[..0]) == [] && ts[..|ts|] == ts
  {}

  lemma IdListNext(ts: seq<Table>, j: nat)
    requires j < |ts|
    ensures IdList(ts[..j + 1]) == IdList(ts[..j]) + [IdOf(ts[j])]
  {}

  // The newest table of a level that has the key.
  ghost predicate NewestWith(l: seq<Table>, key: nat, t: Table) {
    exists j :: 0 <= j < |l| && l[j] == t && Holds(t, key) && forall i :: j < i < |l| ==> !Holds(l[i], key)
  }

  lemma NewestFound(l: seq<Table>, key: nat, j: nat)
    requires j < |l| && Find(l[j].keyValue, key) != None && LevelGet(l, key) == LevelGet(l[..j + 1], key)
    requires forall i :: j < i < |l| ==> Find(l[i].keyValue, key) == None
    ensures NewestWith(l, key, l[j])
  {}

  // The table that answers for a key: the newest one of the first level that
  // has the key.
  ghost predicate AnsweredBy(levels: seq<seq<Table>>, key: nat, t: Table) {
    exists i :: 0 <= i < |levels| && NewestWith(levels[i], key, t)
      && forall h :: 0 <= h < i ==> LevelGet(levels[h], key) == None
  }

  lemma AnsweredIs(levels: seq<seq<Table>>, key: nat, i: nat, t: Table)
    requires i < |levels| && NewestWith(levels[i], key, t)
    requires forall h :: 0 <= h < i ==> LevelGet(levels[h], key) == None
    ensures AnsweredBy(levels, key, t)
  {
    hide NewestWith;
  }

  // The commands of a lookup: those of the table that answers.
  function LookupCmds(a: State, from: Option<Table>): seq<Protocol.Cmd>
    requires from.Some? ==> IdOf(from.value) in a.mapping
  {
    if from == None then [] else FetchCmds(a, IdOf(from.value))
  }

  // The upper level without its first n tables, the lower one without some.
  function Emptied(t: Tiers, level: nat, n: nat): Tiers
    requires 0 < level < |t.levels| && n <= |t.levels[level - 1]|
  {
    Tiers(t.levels[level - 1 := t.levels[level - 1][n..]], t.count)
  }

  lemma EmptiedNext(t: Tiers, level: nat, n: nat)
    requires 0 < level < |t.levels| && n < |t.levels[level - 1]|
    ensures Emptied(t, level, 0) == t
    ensures |Emptied(t, level, n).levels| == |t.levels| && Emptied(t, level, n).levels[level - 1] != []
    ensures Emptied(t, level, n).levels[level - 1][0] == t.levels[level - 1][n]
    ensures Emptied(t, level, n + 1) == WithoutFirst(Emptied(t, level, n), level - 1)
  {
    assert t.levels[level - 1 := t.levels[level - 1][0..]] == t.levels;
  }

  function Thinned(t: Tiers, level: nat, gone: seq<Table>): Tiers
    requires level < |t.levels|
  {
    Tiers(t.levels[level := Erase(t.levels[level], gone)], t.count)
  }

  lemma ThinnedNext(t: Tiers, level: nat, gone: seq<Table>, x: Table)
    requires level < |t.levels|
    ensures Thinned(t, level, []) == t && |Thinned(t, level, gone).levels| == |t.levels|
    ensures Thinned(t, level, gone + [x]) == WithoutOne(Thinned(t, level, gone), level, x)
  {
    EraseNone(t.levels[level]);
    assert t.levels[level := t.levels[level]] == t.levels;
    EraseTwice(t.levels[level], gone, [x]);
  }

  lemma EmptiedNone(t: Tiers, level: nat)
    requires 0 < level < |t.levels|
    ensures Emptied(t, level, 0) == t
  {
    assert t.levels[level - 1 := t.levels[level - 1][0..]] == t.levels;
  }

  lemma WithoutFirstIs(t: Tiers, i: nat)
    requires i < |t.levels| && t.levels[i] != []
    ensures WithoutFirst(t, i) == Tiers(t.levels[i := t.levels[i][1..]], t.count)
  {}

  lemma ThinnedNone(t: Tiers, level: nat)
    requires level < |t.levels|
    ensures Thinned(t, level, []) == t
  {
    EraseNone(t.levels[level]);
    assert t.levels[level := t.levels[level]] == t.levels;
  }

  lemma ThinnedIsIn(t: Tiers, level: nat, gone: seq<Table>)
    requires level < |t.levels|
    ensures |Thinned(t, level, gone).levels| == |t.levels|
    ensures Thinned(t, level, gone).levels[level] == Erase(t.levels[level], gone)
    ensures Thinned(t, level, gone).count == t.count
  {}

  lemma WithoutOneIs(t: Tiers, i: nat, x: Table)
    requires i < |t.levels|
    ensures WithoutOne(t, i, x) == Tiers(t.levels[i := Erase(t.levels[i], [x])], t.count)
  {}

  lemma SortedAt(h: Hash, t: Tiers, keys: set<Id>, i: nat)
    requires Coherent(h, t, keys) && i < |t.levels|
    ensures SortedLevel(t.levels[i]) && OrdersDiffer(t.levels[i])
  {
    LevelOf(h, t, keys, i);
  }

  // A merged table stays in its level until its own turn to be erased.
  lemma StillThere(l: seq<Table>, merged: seq<Table>, j: nat)
    requires SortedLevel(l) && OrdersDiffer(merged) && j < |merged| && forall x :: x in merged ==> x in l
    ensures merged[j] in Erase(l, merged[..j])
  {
    assert merged[j] in l;
    forall i | 0 <= i < j ensures !Equivalent(merged[j], merged[..j][i]) {
      assert merged[i].order != merged[j].order && merged[i] in l;
      SortedDistinct(l, merged[j], merged[i]);
    }
  }

  lemma StepsReady(h: Hash, t: Tiers, level: nat)
    requires 1 <= level <= |t.levels| && t.Sound() && Due(t, level)
    ensures var x, n := t.Extend(level), CompactNum(t, level);
            && level < |x.levels| == |x.count| && x.levels[level - 1] == t.levels[level - 1]
            && 0 < n <= |t.levels[level - 1]|
            && Solid(x.levels[level]) && Solid(x.levels[level - 1][..n]) && x.Sound()
  {
    CompactUnfold(h, t, level);
    hide Merges, Compact;
    FirstSolid(t.levels[level - 1], CompactNum(t, level));
  }

  lemma FirstSolid(l: seq<Table>, n: nat)
    requires Solid(l) && n <= |l|
    ensures Solid(l[..n])
  {}

  lemma SetTwice<T>(s: seq<T>, i: nat, a: T, b: T, c: T)
    requires i + 1 < |s|
    ensures s[i + 1 := b][i := a][i + 1 := c] == s[i := a][i + 1 := c]
  {}

  // The compaction of the specification, in steps: level `level` is filled,
  // the upper level emptied, and the merged tables taken out.
  function InSteps(h: Hash, x: Tiers, level: nat, n: nat): Tiers
    requires 1 <= level < |x.levels| == |x.count| && 0 < n <= |x.levels[level - 1]|
    requires Solid(x.levels[level]) && Solid(x.levels[level - 1][..n])
  {
    var picked, low := x.levels[level - 1][..n], x.levels[level];
    var filled := Filled(h, x, level, picked[n - 1].timeStamp, Chunks(picked, low, level == |x.levels| - 1));
    Thinned(Emptied(filled, level, n), level, Select(low, HullMin(picked), HullMax(picked)))
  }

  lemma CompactIs(h: Hash, t: Tiers, x: Tiers, level: nat, n: nat)
    requires 1 <= level <= |t.levels| && t.Sound() && Due(t, level) && x == t.Extend(level) && n == CompactNum(t, level)
    requires level < |x.levels| == |x.count| && 0 < n <= |x.levels[level - 1]|
    requires Solid(x.levels[level]) && Solid(x.levels[level - 1][..n])
    ensures var up, low := x.levels[level - 1], x.levels[level];
            var added := Added(h, up[..n], low, level, x.count[level], level == |x.levels| - 1);
            Compact(h, t, level) == Tiers(x.levels[level - 1 := up[n..]][level := MergedLevel(low, up[..n], added)],
                                          x.count[level := x.count[level] + |added|])
  {
    hide Added, MergedLevel, Solid, Due, CompactNum, Tiers.Sound, Tiers.Extend;
  }

  lemma InStepsIs(h: Hash, x: Tiers, level: nat, n: nat)
    requires 1 <= level < |x.levels| == |x.count| && 0 < n <= |x.levels[level - 1]|
    requires Solid(x.levels[level]) && Solid(x.levels[level - 1][..n])
    ensures var up, low := x.levels[level - 1], x.levels[level];
            var added := Added(h, up[..n], low, level, x.count[level], level == |x.levels| - 1);
            InSteps(h, x, level, n) == Tiers(x.levels[level - 1 := up[n..]][level := MergedLevel(low, up[..n], added)],
                                             x.count[level := x.count[level] + |added|])
  {
    hide *;
    var up, low := x.levels[level - 1], x.levels[level];
    var picked, last := up[..n], level == |x.levels| - 1;
    var added := Added(h, picked, low, level, x.count[level], last);
    AddedSize(h, picked, low, level, x.count[level], last);
    FilledIs(h, x, level, picked[n - 1].timeStamp, Chunks(picked, low, last));
    InStepsUnfold(h, x, level, n);
    MergedLevelUnfold(low, picked, added);
    ThinnedIs(x, Filled(h, x, level, picked[n - 1].timeStamp, Chunks(picked, low, last)), level, n,
              EmplaceAll(low, added), x.count[level] + |added|, Select(low, HullMin(picked), HullMax(picked)));
  }

  lemma FilledIs(h: Hash, t: Tiers, level: nat, T: nat, chunks: seq<seq<Pair>>)
    requires level < |t.levels| == |t.count| && NonEmpty(chunks)
    ensures Filled(h, t, level, T, chunks) ==
              Tiers(t.levels[level := EmplaceAll(t.levels[level], NewTables(h, level, t.count[level], T, chunks))],
                    t.count[level := t.count[level] + |chunks|])
  {
    hide EmplaceAll, NewTables;
  }

  lemma InStepsUnfold(h: Hash, x: Tiers, level: nat, n: nat)
    requires 1 <= level < |x.levels| == |x.count| && 0 < n <= |x.levels[level - 1]|
    requires Solid(x.levels[level]) && Solid(x.levels[level - 1][..n])
    ensures var picked, low := x.levels[level - 1][..n], x.levels[level];
            var filled := Filled(h, x, level, picked[n - 1].timeStamp, Chunks(picked, low, level == |x.levels| - 1));
            && |filled.levels| == |x.levels| && n <= |filled.levels[level - 1]|
            && |Emptied(filled, level, n).levels| == |x.levels|
            && InSteps(h, x, level, n)
               == Thinned(Emptied(filled, level, n), level, Select(low, HullMin(picked), HullMax(picked)))
  {
    hide Chunks, EmplaceAll, NewTables, Erase, Select, HullMin, HullMax;
  }

  lemma MergedLevelUnfold(low: seq<Table>, picked: seq<Table>, added: seq<Table>)
    ensures MergedLevel(low, picked, added)
            == Erase(EmplaceAll(low, added), Select(low, HullMin(picked), HullMax(picked)))
  {}

  lemma ThinnedIs(x: Tiers, f: Tiers, level: nat, n: nat, filled: seq<Table>, c: nat, gone: seq<Table>)
    requires 1 <= level < |x.levels| == |x.count| && n <= |x.levels[level - 1]|
    requires f == Tiers(x.levels[level := filled], x.count[level := c])
    ensures |f.levels| == |x.levels| && n <= |f.levels[level - 1]| && |Emptied(f, level, n).levels| == |x.levels|
    ensures Thinned(Emptied(f, level, n), level, gone) ==
              Tiers(x.levels[level - 1 := x.levels[level - 1][n..]][level := Erase(filled, gone)], x.count[level := c])
  {
    hide Erase;
    SetTwice(x.levels, level - 1, x.levels[level - 1][n..], filled, Erase(filled, gone));
  }

  lemma StepsAreCompact(h: Hash, t: Tiers, level: nat)
    requires 1 <= level <= |t.levels| && t.Sound() && Due(t, level)
    ensures var x, n := t.Extend(level), CompactNum(t, level);
            && level < |x.levels| == |x.count| && 0 < n <= |x.levels[level - 1]|
            && Solid(x.levels[level]) && Solid(x.levels[level - 1][..n])
            && Compact(h, t, level) == InSteps(h, x, level, n)
  {
    hide *;
    StepsReady(h, t, level);
    CompactIs(h, t, t.Extend(level), level, CompactNum(t, level));
    InStepsIs(h, t.Extend(level), level, CompactNum(t, level));
  }

  // ---------- What the merge needs and gives ----------

  // The contents of fine tables can be merged.
  lemma SourcesFine(h: Hash, up: seq<Table>, n: nat, low: seq<Table>, i: nat, a: nat, b: nat, keys: set<Id>)
    requires LevelFine(h, up, i, a, keys) && LevelFine(h, low, i + 1, b, keys) && n <= |up|
    ensures var src := Contents(Sources(up[..n], low));
            AllAscending(src) && forall j :: 0 <= j < |src| ==> AllFit(src[j])
    ensures forall x :: x in Sources(up[..n], low) ==> IdOf(x) in keys
    ensures Solid(up[..n]) && Solid(low)
  {
    var queue := Sources(up[..n], low);
    forall x | x in queue ensures Ascending(x.keyValue) && AllFit(x.keyValue) && IdOf(x) in keys {
      if x in up[..n] { assert TableFine(h, x, i, a, keys); } else { assert TableFine(h, x, i + 1, b, keys); }
    }
    hide WellFormed, AllFit, Ascending, SortedLevel, OrdersDiffer, Sources, TableFine;
    forall j | 0 <= j < |queue| ensures Ascending(Contents(queue)[j]) && AllFit(Contents(queue)[j]) {
      assert queue[j] in queue;
    }
  }

  lemma ChunksGood(picked: seq<Table>, low: seq<Table>, lastLevel: bool)
    requires Solid(picked) && Solid(low) && AllAscending(Contents(Sources(picked, low)))
    ensures GoodChunks(Chunks(picked, low, lastLevel))
  {
    var chunks := Chunks(picked, low, lastLevel);
    ChunksCorrect(picked, low, lastLevel);
    MergeResultCorrect(Contents(Sources(picked, low)), lastLevel);
    hide Solid, Sources, Contents, Find, Newest, MergeResult, WellPacked, Pack;
    forall i | 0 <= i < |chunks| ensures chunks[i] != [] && Ascending(chunks[i]) && AllFit(chunks[i]) {
      ChunkAscending(chunks, i);
      forall p | p in chunks[i] ensures Fits(p) { FlattenMember(chunks, i, p); }
    }
  }

  lemma ChunksAre(picked: seq<Table>, low: seq<Table>, lastLevel: bool)
    requires Solid(picked) && Solid(low)
    ensures Chunks(picked, low, lastLevel) == Pack(MergeResult(Contents(Sources(picked, low)), lastLevel))
  {}

  lemma {:induction false} SelectOrders(l: seq<Table>, lo: nat, hi: nat)
    requires OrdersDiffer(l)
    ensures OrdersDiffer(Select(l, lo, hi))
  {
    if l != [] {
      SelectOrders(l[1..], lo, hi);
      var r := Select(l[1..], lo, hi);
      assert forall x :: x in l[1..] ==> x.order != l[0].order;
      assert forall i :: 0 <= i < |r| ==> r[i] in r;
    }
  }

  // The merged tables are in the queue and in their level.
  lemma MergedFacts(picked: seq<Table>, low: seq<Table>)
    requires OrdersDiffer(low)
    ensures var merged := Select(low, HullMin(picked), HullMax(picked));
            && OrdersDiffer(merged) && (forall x :: x in merged ==> x in low && x in Sources(picked, low))
            && forall x :: x in picked ==> x in Sources(picked, low)
  {
    SelectOrders(low, HullMin(picked), HullMax(picked));
    hide OrdersDiffer, HullMin, HullMax;
  }

  lemma FilledFacts(h: Hash, t: Tiers, level: nat, T: nat, chunks: seq<seq<Pair>>)
    requires 0 < level < |t.levels| == |t.count| && NonEmpty(chunks)
    ensures var f := Filled(h, t, level, T, chunks);
            && |f.levels| == |t.levels| == |f.count| && f.levels[level - 1] == t.levels[level - 1]
            && forall x :: x in t.levels[level] ==> x in f.levels[level]
  {
    hide EmplaceAll, NewTables;
  }

  lemma EmptiedFacts(t: Tiers, level: nat, n: nat)
    requires 0 < level < |t.levels| && n <= |t.levels[level - 1]|
    ensures Emptied(t, level, n).levels[level] == t.levels[level]
  {}

  lemma WithSizes(t: Tiers, i: nat, table: Table)
    requires i < |t.levels| == |t.count|
    ensures |With(t, i, table).levels| == |t.levels| == |With(t, i, table).count|
    ensures With(t, i, table) == Tiers(t.levels[i := Emplace(t.levels[i], table)], t.count[i := t.count[i] + 1])
  {}

  lemma MadeFields(h: Hash, level: nat, order: nat, T: nat, pairs: seq<Pair>)
    requires pairs != []
    ensures var t := MakeTable(h, Length, level, order, T, pairs[0].key, pairs[|pairs| - 1].key, pairs);
            t.level == level && t.order == order && t.keyValue == pairs && IdOf(t) == Id(level, order)
  {}

  lemma EmptyCoherent(h: Hash)
    ensures Coherent(h, Tiers([[]], [0]), {})
  {}

  lemma EmptyIs()
    ensures Stores.EMPTY_STORE == Stores.Store([], 28 + 1024 * 1024, 0x7FFF_FFFF_FFFF_FFFF, 0, 0, Tiers([[]], [0]))
  {}

  lemma Constant3()
    ensures LEVEL0 == 3
  {}

  lemma SettleIs(e: Stores.Env, s: Stores.Store)
    requires Stores.Basic(s) && s.mem != []
    ensures var t := Stores.FlushTiers(e, s);
            && t.Sound() && |t.levels| == |t.count| && |t.levels| > 0 && |t.levels[0]| == t.count[0]
            && (t.count[0] <= LEVEL0 ==> Stores.Settle(e.hash, t) == t)
            && (t.count[0] > LEVEL0 ==>
                  var c := Cascade(e.hash, t, 1);
                  |c.levels| == |c.count| && |c.levels| > 0 && c.levels[0] == []
                    && Stores.Settle(e.hash, t) == Tiers(c.levels, c.count[0 := 0]))
  {
    var t := Stores.FlushTiers(e, s);
    if t.count[0] > LEVEL0 {
      CascadeSound(e.hash, t, 1);
      Stores.CascadeEmptiesLevel0(e.hash, t);
    }
    hide Cascade, Stores.FlushTiers;
  }

  // Level 0 is empty: its numbers may start over.
  lemma ResetCoherent(h: Hash, t: Tiers, keys: set<Id>)
    requires Coherent(h, t, keys) && |t.levels| > 0 && t.levels[0] == []
    ensures |t.levels| == |t.count| && Coherent(h, Tiers(t.levels, t.count[0 := 0]), keys)
  {
    var r := Tiers(t.levels, t.count[0 := 0]);
    forall i | 0 <= i < |r.levels| ensures LevelFine(h, r.levels[i], i, r.count[i], keys) && Solid(r.levels[i]) {
      LevelOf(h, t, keys, i);
    }
    hide LevelFine, Solid;
    forall id | id in keys ensures KeyFine(r, id) { assert KeyFine(t, id); }
  }

  lemma StorableKey(k: nat, v: string)
    requires Stores.Storable(k, v)
    ensures k < HEAD_KEY
  {}

  lemma PutUnfold(e: Stores.Env, s: Stores.Store, k: nat, v: string)
    requires Stores.Basic(s) && Stores.Storable(k, v)
    ensures Stores.Basic(Stores.Put(e, s, k, v)) && (Stores.Flushes(s, k, v) ==> s.mem != [])
    ensures s.tiers.levels != []
    ensures s.mem != [] ==> |Stores.FlushTiers(e, s).levels| > 0
                            && |Stores.FlushTiers(e, s).levels[0]| == |s.tiers.levels[0]| + 1
    ensures ValueOr(Find(s.mem, k)) == match Find(s.mem, k) case Some(w) => w case None => ""
    ensures Stores.Flushes(s, k, v) <==> Stores.Grow(s.memory, ValueOr(Find(s.mem, k)), v) > TABLE_SIZE
    ensures Stores.Put(e, s, k, v) ==
              var val := ValueOr(Find(s.mem, k));
              if Stores.Flushes(s, k, v) && s.mem != [] then
                Stores.Store(Insert([], k, v), Stores.Grow(Stores.CLEARED_MEMORY, val, v),
                             if k < INT64_MAX then k else INT64_MAX, if k > INT64_MAX + 1 then k else INT64_MAX + 1,
                             s.clock + 1, Stores.Settle(e.hash, Stores.FlushTiers(e, s)))
              else
                s.(mem := Insert(s.mem, k, v), memory := Stores.Grow(s.memory, val, v),
                   minKey := if k < s.minKey then k else s.minKey, maxKey := if k > s.maxKey then k else s.maxKey)
  {
    hide Stores.Settle, Stores.FlushTiers, Insert, Find, Stores.Grow;
    if Stores.Flushes(s, k, v) { Stores.FlushNotEmpty(s, k, v); }
  }

  lemma Constants()
    ensures INT64_MAX == 0x7FFF_FFFF_FFFF_FFFF
    ensures INT64_MAX + 1 == 0x8000_0000_0000_0000 && Stores.CLEARED_MEMORY == 10272
  {}

  lemma TableOf(h: Hash, l: seq<Table>, level: nat, count: nat, keys: set<Id>, j: nat, key: nat)
    requires LevelFine(h, l, level, count, keys) && j < |l|
    ensures WellFormed(h, l[j]) && IdOf(l[j]) in keys
    ensures ValueOr(Find(l[j].keyValue, key)) == "" <==> Find(l[j].keyValue, key) == None
  {
    assert l[j] in l;
    assert TableFine(h, l[j], level, count, keys);
    var found, pairs := Find(l[j].keyValue, key), l[j].keyValue;
    if found.Some? {
      var i :| 0 <= i < |pairs| && pairs[i] == Pair(key, found.value);
      assert pairs[i] in pairs;
    }
    hide WellFormed, SortedLevel, OrdersDiffer;
  }

  lemma LevelGetStep(l: seq<Table>, j: nat, key: nat)
    requires j < |l|
    ensures Find(l[j].keyValue, key) == None ==> LevelGet(l[..j + 1], key) == LevelGet(l[..j], key)
    ensures Find(l[j].keyValue, key) != None ==> LevelGet(l[..j + 1], key) == Find(l[j].keyValue, key)
  {
    assert l[..j + 1][..j] == l[..j];
  }

  lemma LevelGetNone(l: seq<Table>, key: nat)
    ensures LevelGet(l[..0], key) == None && ValueOr(None) == ""
  {
    assert l[..0] == [];
  }

  lemma MemValue(s: Stores.Store, key: nat)
    requires Stores.Basic(s)
    ensures |s.tiers.levels| == |s.tiers.count|
    ensures var ans := match Find(s.mem, key) case Some(w) => w case None => "";
            (ans != "" <==> Find(s.mem, key) != None) &&
            if ans != "" then Stores.Get(s, key) == (if ans == DEL then "" else ans)
            else Stores.Get(s, key) == Compaction.View(LevelsGet(s.tiers.levels, key, 0))
  {
    var found := Find(s.mem, key);
    if found.Some? {
      var i :| 0 <= i < |s.mem| && s.mem[i] == Pair(key, found.value);
      assert s.mem[i] in s.mem && Fits(s.mem[i]);
    }
    hide Find, LevelsGet, AllFit, SortedLevel, Solid;
  }

  lemma LevelsGetStep(levels: seq<seq<Table>>, key: nat, i: nat)
    requires i < |levels|
    ensures var ans := ValueOr(LevelGet(levels[i], key));
            && (LevelGet(levels[i], key) != None
                ==> Compaction.View(LevelsGet(levels, key, i)) == if ans == DEL then "" else ans)
            && (LevelGet(levels[i], key) != None ==> LevelsGet(levels, key, i) != None)
            && (LevelGet(levels[i], key) == None ==> LevelsGet(levels, key, i) == LevelsGet(levels, key, i + 1))
  {
    hide LevelGet;
  }

  lemma LevelsGetEnd(levels: seq<seq<Table>>, key: nat)
    ensures LevelsGet(levels, key, |levels|) == None && Compaction.View(LevelsGet(levels, key, |levels|)) == ""
  {}

  lemma DelUnfold(e: Stores.Env, s: Stores.Store, key: nat)
    requires Stores.Basic(s) && key < HEAD_KEY
    ensures key < Stores.UINT64 - 1 && Stores.Storable(key, DEL) && Stores.Legal(Stores.DelOp(key))
    ensures Stores.Del(e, s, key) == if Stores.Get(s, key) != "" then (Stores.Put(e, s, key, DEL), true) else (s, false)
  {
    hide Stores.Put, Stores.Get;
  }

  lemma FlushLeakIs(e: Stores.Env, s: Stores.Store)
    requires Stores.Basic(s) && s.mem != []
    ensures var t := Stores.FlushTiers(e, s);
            && t.Sound() && |t.levels| > 0 && |t.count| > 0
            && FlushLeak(e, s) == if t.count[0] > LEVEL0 then CascadeLeak(e.hash, t, 1) else {}
  {
    hide CascadeLeak, Stores.FlushTiers;
  }

  lemma PutLeakIs(e: Stores.Env, s: Stores.Store, k: nat, v: string)
    requires Stores.Basic(s) && Stores.Storable(k, v)
    ensures PutLeak(e, s, k, v) == if Stores.Flushes(s, k, v) && s.mem != [] then FlushLeak(e, s) else {}
  {
    hide FlushLeak, Stores.Flushes;
  }

  lemma StepLeakIs(e: Stores.Env, s: Stores.Store, op: Stores.Op)
    requires Stores.Basic(s) && Stores.Legal(op)
    ensures match op
            case PutOp(k, v) => Stores.Storable(k, v) && StepLeak(e, s, op) == PutLeak(e, s, k, v)
            case GetOp(k) => StepLeak(e, s, op) == {}
            case DelOp(k) => Stores.Storable(k, DEL) &&
                             StepLeak(e, s, op) == if Stores.Get(s, k) != "" then PutLeak(e, s, k, DEL) else {}
  {
    hide PutLeak, Stores.Get;
  }

  lemma RunLeakNone(e: Stores.Env, s: Stores.Store, ops: seq<Stores.Op>)
    requires Stores.Basic(s)
    ensures RunLeak(e, s, ops[..0]) == {}
  {
    assert ops[..0] == [];
  }

  lemma RunNone(e: Stores.Env, s: Stores.Store, ops: seq<Stores.Op>)
    requires Stores.Basic(s)
    ensures Stores.Run(e, s, ops[..0]) == (s, []) && |ops[..0]| == 0
  {
    assert ops[..0] == [];
  }

  lemma StepUnfold(e: Stores.Env, s: Stores.Store, op: Stores.Op)
    requires Stores.Basic(s) && Stores.Legal(op)
    ensures match op
            case PutOp(k, v) => Stores.Storable(k, v)
              && Stores.Step(e, s, op) == (Stores.Put(e, s, k, v), Stores.Stored)
            case GetOp(k) => Stores.Step(e, s, op) == (s, Stores.Found(Stores.Get(s, k)))
            case DelOp(k) => k < HEAD_KEY && k < Stores.UINT64 - 1 &&
                             Stores.Step(e, s, op) == (Stores.Del(e, s, k).0, Stores.Deleted(Stores.Del(e, s, k).1))
  {}

  // A memtable that is not empty can be flushed.
  lemma FlushReady(e: Stores.Env, s: Stores.Store, keys: set<Id>)
    requires Stores.Basic(s) && s.mem != [] && Coherent(e.hash, s.tiers, keys)
    ensures s.tiers.count != [] && |s.tiers.levels| == |s.tiers.count|
    ensures Ascending(s.mem) && s.minKey <= s.mem[0].key && s.mem[|s.mem| - 1].key <= s.maxKey
    ensures var t := MakeTable(e.hash, e.movedLen, 0, s.tiers.count[0] + 1, s.clock, s.minKey, s.maxKey, s.mem);
            && Stores.FlushTiers(e, s) == With(s.tiers, 0, t)
            && With(s.tiers, 0, t)
               == Tiers(s.tiers.levels[0 := Emplace(s.tiers.levels[0], t)], s.tiers.count[0 := s.tiers.count[0] + 1])
            && Coherent(e.hash, With(s.tiers, 0, t), keys + {Id(0, s.tiers.count[0] + 1)})
  {
    var t := MakeTable(e.hash, e.movedLen, 0, s.tiers.count[0] + 1, s.clock, s.minKey, s.maxKey, s.mem);
    assert s.mem[0] in s.mem && s.mem[|s.mem| - 1] in s.mem;
    MakeTableWellFormed(e.hash, e.movedLen, 0, s.tiers.count[0] + 1, s.clock, s.minKey, s.maxKey, s.mem);
    assert forall x :: x in s.tiers.levels[0] ==> Before(x, t);
    WithCoherent(e.hash, s.tiers, keys, 0, t);
    hide WellFormed, Coherent, MakeTable, AllFit, Ascending, SortedLevel, Solid;
  }

  // Level 0 turns no table away.
  lemma FlushKeepsIds(e: Stores.Env, s: Stores.Store, keys: set<Id>)
    requires Stores.Basic(s) && s.mem != [] && Coherent(e.hash, s.tiers, keys)
    ensures s.tiers.count != []
    ensures keys + {Id(0, s.tiers.count[0] + 1)} - Ids(Stores.FlushTiers(e, s)) == keys - Ids(s.tiers)
  {
    FlushReady(e, s, keys);
    var t := MakeTable(e.hash, e.movedLen, 0, s.tiers.count[0] + 1, s.clock, s.minKey, s.maxKey, s.mem);
    AllEarlier(s, t);
    hide Coherent, Stores.Basic, Stores.FlushTiers, With, Ids, LeakOf;
    WithLeak(e.hash, s.tiers, keys, 0, t);
    LeakOfLast(s.tiers.levels[0], t);
  }

  lemma AllEarlier(s: Stores.Store, t: Table)
    requires Stores.Basic(s) && t.timeStamp == s.clock
    ensures forall x :: x in s.tiers.levels[0] ==> Before(x, t)
  {}

  class KVStore {
    const e: Stores.Env
    const memTable: SkipList
    const pool: MemoryManager
    var levels: seq<seq<Table>>
    var count: seq<nat>

    ghost function Now(): Tiers
      reads this`levels, this`count
    {
      Tiers(levels, count)
    }

    // The numbers the zone manager holds that no table of a level has.
    ghost function Leaked(): set<Id>
      reads this`levels, this`count, pool`mapping
    {
      pool.mapping.Keys - Ids(Now())
    }

    lemma LeakedIs()
      ensures Leaked() == pool.mapping.Keys - Ids(Now())
    {}

    // The zone manager holds every table of every level.
    ghost predicate Backed()
      reads this`levels, this`count, pool, pool.empty
    {
      pool.Valid() && pool.Spacious() && Coherent(e.hash, Now(), pool.mapping.Keys)
    }

    constructor (e: Stores.Env, tables: nat, zoneNum: nat, openNum: nat, div: nat)
      requires tables > 0 && 0 < openNum <= zoneNum && 20 * openNum <= 19 * zoneNum
      requires div > 0 && forall z :: 0 <= z < zoneNum ==> QueueOf(z, div) < zoneNum / div
      ensures this.e == e && Valid() && Model() == Stores.EMPTY_STORE
      ensures fresh(memTable) && fresh(memTable.repr) && fresh(pool) && fresh(pool.empty)
      ensures pool.tables == tables && pool.zoneNum == zoneNum && pool.openNum == openNum && Leaked() == {}
    {
      this.e := e;
      memTable := new SkipList();
      pool := new MemoryManager(tables, zoneNum, openNum, div);
      levels, count := [[]], [0];
      new;
      hide *;
      SpaciousIs();
      LeakedIs();
      EmptyCoherent(e.hash);
      EmptyBasic(e);
      ModelIs();
      NowIs();
      EmptyIs();
      BackedFrom();
      ValidFrom();
    }

    lemma SpaciousIs()
      requires 20 * pool.openNum <= 19 * pool.zoneNum
      ensures pool.Spacious()
    {}

    // ---------- Compaction ----------

    method WriteToFile(level: nat, timeStamp: nat, pairs: seq<Pair>) returns (exited: bool)
      requires Backed() && 0 < level < |levels| && |count| == |levels| && level <= pool.levels
      requires pairs != [] && Ascending(pairs) && AllFit(pairs)
      modifies this`levels, this`count, pool, pool.empty
      ensures exited ==> pool.Jammed()
      ensures !exited ==>
                && Backed() && pool.levels >= level && |levels| == |count| == old(|levels|)
                && Now() == With(old(Now()), level,
                                 MakeTable(e.hash, Length, level, old(count[level]) + 1, timeStamp, pairs[0].key,
                                           pairs[|pairs| - 1].key, pairs))
                && pool.pending <= old(pool.pending) + {Id(level, old(count[level]) + 1)}
                && old(pool.mapping.Keys) <= pool.mapping.Keys
                && Leaked() == old(Leaked())
                   + LeakOf(old(levels[level]),
                            MakeTable(e.hash, Length, level, old(count[level]) + 1, timeStamp, pairs[0].key,
                                      pairs[|pairs| - 1].key, pairs))
    {
      hide *;
      ghost var before, keys := Now(), pool.mapping.Keys;
      LeakedIs();
      BackedParts();
      NextIsNew(e.hash, before, keys, level);
      count := count[level := count[level] + 1];
      var t := FromMerge(e.hash, level, count[level], timeStamp, pairs);
      MadeFields(e.hash, level, count[level], timeStamp, pairs);
      WithCoherent(e.hash, before, keys, level, t);
      WithLeak(e.hash, before, keys, level, t);
      WithSizes(before, level, t);
      ghost var log, next;
      exited, log, next := pool.WriteTable(Id(level, count[level]));
      if exited {
        return;
      }
      levels := levels[level := Emplace(levels[level], t)];
      NowIs();
      LeakedIs();
      BackedFrom();
    }

    lemma BackedParts()
      requires Backed()
      ensures pool.Valid() && pool.Spacious() && Coherent(e.hash, Now(), pool.mapping.Keys)
      ensures Now() == Tiers(levels, count)
    {}

    lemma NowIs()
      ensures Now() == Tiers(levels, count)
    {}

    lemma BackedFrom()
      requires pool.Valid() && pool.Spacious() && Coherent(e.hash, Now(), pool.mapping.Keys)
      ensures Backed()
    {}

    // Reads the tables of the queue whole, in order.
    method ReadSources(queue: seq<Table>) returns (src: seq<seq<Pair>>)
      requires Backed() && forall x :: x in queue ==> IdOf(x) in pool.mapping
      modifies pool`pending, pool`trace
      ensures Backed() && src == Contents(queue)
      ensures forall x :: x in queue ==> IdOf(x) !in pool.pending
      // Each table is waited for and read, in order.
      ensures pool.View() == WaitedAll(old(pool.View()), IdList(queue))
      ensures forall id :: id in IdList(queue) ==> id in old(pool.View()).mapping
      ensures pool.trace == old(pool.trace) + FetchAll(old(pool.View()), IdList(queue))
    {
      hide *;
      BackedParts();
      ghost var a := pool.View();
      pool.FieldsOf();
      IdListIs(queue);
      NothingFetched(a);
      src := [];
      var j := 0;
      ContentsNone();
      assert queue[..0] == [];
      while j < |queue|
        modifies pool`pending, pool`trace
        invariant 0 <= j <= |queue| && pool.Valid() && src == Contents(queue[..j])
        invariant forall x :: x in queue[..j] ==> IdOf(x) !in pool.pending
        invariant pool.View() == WaitedAll(a, IdList(queue[..j]))
        invariant forall id :: id in IdList(queue[..j]) ==> id in a.mapping
        invariant pool.trace == old(pool.trace) + FetchAll(a, IdList(queue[..j]))
      {
        TakeNext(queue, j);
        IdListNext(queue, j);
        FetchAllNext(a, IdList(queue[..j]), IdOf(queue[j]));
        ContentsNext(queue[..j], queue[j]);
        PoolValid();
        pool.Fetch(IdOf(queue[j]));
        src := src + [queue[j].keyValue];
        j := j + 1;
      }
      assert queue[..j] == queue;
      BackedFrom();
    }

    lemma PoolValid()
      requires pool.Valid()
      ensures pool.Steady()
    {}

    // Writes the chunks to a level, one table each.
    method WriteTables(level: nat, timeStamp: nat, chunks: seq<seq<Pair>>, ghost busy: set<Id>) returns (exited: bool)
      requires Backed() && 0 < level < |levels| && |count| == |levels| && level <= pool.levels && GoodChunks(chunks)
      requires busy <= pool.mapping.Keys && busy !! pool.pending
      modifies this`levels, this`count, pool, pool.empty
      ensures NonEmpty(chunks)
      ensures exited ==> pool.Jammed()
      ensures !exited ==>
                Backed() && Now() == Filled(e.hash, old(Now()), level, timeStamp, chunks) && busy !! pool.pending
      ensures !exited ==>
                Leaked() == old(Leaked())
                  + LeakAll(old(levels[level]), NewTables(e.hash, level, old(count[level]), timeStamp, chunks))
    {
      hide *;
      ghost var before := Now();
      AllChunks(chunks);
      NowIs();
      FilledNone(e.hash, before, level, timeStamp);
      NoLeakYet(e.hash, levels[level], level, count[level], timeStamp);
      assert chunks[..0] == [];
      var i := 0;
      while i < |chunks|
        invariant 0 <= i <= |chunks| && Backed() && |levels| == |before.levels| == |count| && level <= pool.levels
        invariant NonEmpty(chunks[..i]) && Now() == Filled(e.hash, before, level, timeStamp, chunks[..i])
        invariant busy <= pool.mapping.Keys && busy !! pool.pending
        invariant Leaked() == old(Leaked())
                  + LeakAll(before.levels[level], NewTables(e.hash, level, before.count[level], timeStamp, chunks[..i]))
      {
        ChunkAt(chunks, i);
        TakeNext(chunks, i);
        FilledLeak(e.hash, before, level, timeStamp, chunks[..i], chunks[i]);
        FilledNext(e.hash, before, level, timeStamp, chunks[..i], chunks[i]);
        NowIs();
        BackedParts();
        NextIsNew(e.hash, Now(), pool.mapping.Keys, level);
        exited := WriteToFile(level, timeStamp, chunks[i]);
        if exited {
          return;
        }
        NowIs();
        i := i + 1;
      }
      assert chunks[..i] == chunks;
      exited := false;
    }

    // Deletes the first n tables of the upper level.
    method DropPicked(level: nat, n: nat)
      requires Backed() && 0 < level < |levels| && |count| == |levels| && n <= |levels[level - 1]|
      requires forall x :: x in levels[level - 1][..n] ==> IdOf(x) !in pool.pending
      modifies this`levels, pool
      ensures Backed() && Now() == Emptied(old(Now()), level, n) && |levels| == old(|levels|)
      ensures pool.pending == old(pool.pending) && Leaked() == old(Leaked())
      // A full zone that loses a table is marked for reset.
      ensures Marked(old(pool.View()), pool.View(), pool.reset) && old(pool.reset) <= pool.reset
      ensures pool.mapping.Keys == old(pool.mapping.Keys) - IdsOf(old(levels[level - 1])[..n])
    {
      hide *;
      ghost var before, a := Now(), pool.View();
      NowIs();
      EmptiedNone(before, level);
      MarkedNone(a, pool.reset);
      pool.FieldsOf();
      var j := 0;
      while j < n
        invariant 0 <= j <= n && Backed() && |levels| == |before.levels| && count == before.count
        invariant Now() == Emptied(before, level, j) && pool.pending == old(pool.pending) && Leaked() == old(Leaked())
        invariant Marked(a, pool.View(), pool.reset) && old(pool.reset) <= pool.reset
        invariant pool.mapping.Keys == old(pool.mapping.Keys) - IdsOf(before.levels[level - 1][..j])
      {
        LeakedIs();
        ghost var b, r := pool.View(), pool.reset;
        pool.FieldsOf();
        IdsOfNext(before.levels[level - 1], j);
        EmptiedNext(before, level, j);
        NowIs();
        BackedParts();
        WithoutFirstCoherent(e.hash, Now(), pool.mapping.Keys, level - 1);
        WithoutFirstLeak(e.hash, Now(), pool.mapping.Keys, level - 1);
        WithoutFirstIs(Now(), level - 1);
        assert before.levels[level - 1][..n][j] == levels[level - 1][0] == before.levels[level - 1][j];
        pool.DeleteTable(IdOf(levels[level - 1][0]));
        pool.FieldsOf();
        if IdOf(before.levels[level - 1][j]) in b.mapping {
          MarkedNext(a, b, r, pool.View(), IdOf(before.levels[level - 1][j]));
        }
        levels := levels[level - 1 := levels[level - 1][1..]];
        NowIs();
        LeakedIs();
        BackedFrom();
        j := j + 1;
      }
    }

    // Deletes the merged tables of the lower level.
    method DropMerged(level: nat, merged: seq<Table>)
      requires Backed() && 0 < level < |levels| && |count| == |levels| && OrdersDiffer(merged)
      requires forall x :: x in merged ==> x in levels[level] && IdOf(x) !in pool.pending
      modifies this`levels, pool
      ensures Backed() && Now() == Thinned(old(Now()), level, merged) && |levels| == old(|levels|)
      ensures Leaked() == old(Leaked())
      ensures Marked(old(pool.View()), pool.View(), pool.reset) && old(pool.reset) <= pool.reset
      ensures pool.mapping.Keys == old(pool.mapping.Keys) - IdsOf(merged)
    {
      hide *;
      ghost var before, a := Now(), pool.View();
      NowIs();
      MarkedNone(a, pool.reset);
      pool.FieldsOf();
      assert merged[..0] == [];
      ThinnedNone(before, level);
      BackedParts();
      SortedAt(e.hash, before, pool.mapping.Keys, level);
      var j := 0;
      while j < |merged|
        invariant 0 <= j <= |merged| && Backed() && |levels| == |before.levels| && count == before.count
        invariant Now() == Thinned(before, level, merged[..j]) && pool.pending == old(pool.pending)
        invariant Leaked() == old(Leaked())
        invariant Marked(a, pool.View(), pool.reset) && old(pool.reset) <= pool.reset
        invariant pool.mapping.Keys == old(pool.mapping.Keys) - IdsOf(merged[..j])
      {
        LeakedIs();
        ghost var b, r := pool.View(), pool.reset;
        pool.FieldsOf();
        IdsOfNext(merged, j);
        TakeNext(merged, j);
        StillThere(before.levels[level], merged, j);
        ThinnedNext(before, level, merged[..j], merged[j]);
        ThinnedIsIn(before, level, merged[..j]);
        NowIs();
        BackedParts();
        WithoutOneCoherent(e.hash, Now(), pool.mapping.Keys, level, merged[j]);
        WithoutOneLeak(e.hash, Now(), pool.mapping.Keys, level, merged[j]);
        WithoutOneIs(Now(), level, merged[j]);
        assert merged[j] in merged;
        pool.DeleteTable(IdOf(merged[j]));
        pool.FieldsOf();
        if IdOf(merged[j]) in b.mapping {
          MarkedNext(a, b, r, pool.View(), IdOf(merged[j]));
        }
        levels := levels[level := Erase(levels[level], [merged[j]])];
        NowIs();
        LeakedIs();
        BackedFrom();
        j := j + 1;
      }
      assert merged[..j] == merged;
    }

    lemma PoolKnows(id: Id)
      requires pool.Valid() && id in pool.mapping
      ensures id.level < pool.levels
    {}

    // The upper level has a table, so the zone manager knows the level.
    lemma LevelsKnown(level: nat)
      requires Backed() && 0 < level <= |levels| && levels[level - 1] != []
      ensures level <= pool.levels
    {
      hide *;
      BackedParts();
      FirstFine(e.hash, Now(), pool.mapping.Keys, level - 1);
      PoolKnows(IdOf(levels[level - 1][0]));
    }

    // Merges an over-full level into the next, and so on down; then goes over
    // the zones that are marked for reset. `at` is the zone manager's state, and
    // `marked` are the zones marked, when that begins.
    method CompactionForLevel(level: nat) returns (exited: bool, ghost at: State, ghost marked: set<nat>)
      requires Backed() && 1 <= level <= |levels| == |count| && (level == 1 ==> |levels[0]| > LEVEL0)
      modifies this`levels, this`count, pool, pool.empty
      ensures exited ==> pool.Jammed()
      ensures !exited ==> Backed() && Now().Sound() && Now() == Cascade(e.hash, old(Now()), level)
      ensures old(Now()).Sound() && (!exited ==> Leaked() == old(Leaked()) + CascadeLeak(e.hash, old(Now()), level))
      // No zone stays marked, and none that was and is less than a fifth live
      // keeps a deleted slot.
      ensures !exited ==> pool.reset == {} && Swept(pool.tables, at, pool.View(), marked, {})
      ensures !exited ==> forall z :: z in marked ==>
                z < |at.zones| == |pool.zones| && (at.zones[z].valid * 5 < pool.tables ==> pool.zones[z].deleted == [])
      ensures level != 1 && |old(levels)[level - 1]| <= UpperNum(level - 1) ==>
                at == old(pool.View()) && marked == old(pool.reset)
      decreases Depth(Now(), level)
    {
      hide *;
      at, marked := pool.View(), pool.reset;
      ghost var before := Now();
      BackedParts();
      SoundOf(e.hash, before, pool.mapping.Keys);
      CascadeStep(e.hash, before, level);
      CascadeLeakStep(e.hash, before, level);
      DueIs(before, level);
      LeakedIs();
      if level != 1 && |levels[level - 1]| <= UpperNum(level - 1) {
        pool.MarkedAreZones();
        exited := pool.TryReset();
        if exited {
          SpentJams();
          return;
        }
        SweptZones(pool.tables, at, pool.View(), marked);
        pool.FieldsOf();
        LeakedIs();
        BackedFrom();
        return;
      }
      StepsReady(e.hash, before, level);
      CompactLeakIs(e.hash, before, level);
      StepsAreCompact(e.hash, before, level);
      ExtendCoherent(e.hash, before, pool.mapping.Keys, level);
      ExtendIs(before, level);
      SameIds(before, before.Extend(level));
      CompactNumIs(before, level);
      if |levels| <= level {
        levels := levels + [[]];
        count := count + [0];
      }
      NowIs();
      LeakedIs();
      BackedFrom();
      var n := if level == 1 then LEVEL0 + 1 else |levels[level - 1]| - UpperNum(level - 1);
      exited, at := MergeDown(level, n);
      if exited {
        return;
      }
      NowIs();
      BackedParts();
      SoundOf(e.hash, Now(), pool.mapping.Keys);
      exited, at, marked := CompactionForLevel(level + 1);
    }

    lemma SweptZones(k: nat, a: State, b: State, marked: set<nat>)
      requires Swept(k, a, b, marked, {}) && forall z :: z in marked ==> z < |a.zones|
      ensures forall z :: z in marked ==>
                z < |a.zones| == |b.zones| && (a.zones[z].valid * 5 < k ==> b.zones[z].deleted == [])
    {}

    lemma SpentJams()
      requires pool.Spent()
      ensures pool.Jammed()
    {}

    // Merges the first n tables of the level above into a level. `mid` is the
    // zone manager's state when the new tables are written.
    method MergeDown(level: nat, n: nat) returns (exited: bool, ghost mid: State)
      requires Backed() && 1 <= level < |levels| == |count| && 0 < n <= |levels[level - 1]|
      requires Solid(levels[level]) && Solid(levels[level - 1][..n])
      modifies this`levels, this`count, pool, pool.empty
      ensures exited ==> pool.Jammed()
      ensures !exited ==> Backed() && Now() == InSteps(e.hash, old(Now()), level, n)
      ensures !exited ==> Leaked() == old(Leaked()) + MergeLeak(e.hash, old(Now()), level, n)
      // The merged tables leave the zone manager, and the full zones they were
      // in are marked.
      ensures !exited ==> Marked(mid, pool.View(), pool.reset)
      ensures !exited ==>
                var picked := old(levels)[level - 1][..n];
                pool.mapping.Keys == mid.mapping.Keys - IdsOf(picked)
                                     - IdsOf(Select(old(levels)[level], HullMin(picked), HullMax(picked)))
    {
      hide *;
      mid := pool.View();
      ghost var x := Now();
      LeakedIs();
      NowIs();
      BackedParts();
      LevelsKnown(level);
      InStepsUnfold(e.hash, x, level, n);
      var lastLevel := level == |levels| - 1;
      LevelOf(e.hash, x, pool.mapping.Keys, level - 1);
      LevelOf(e.hash, x, pool.mapping.Keys, level);
      SourcesFine(e.hash, levels[level - 1], n, levels[level], level - 1, count[level - 1], count[level],
                  pool.mapping.Keys);
      ChunksGood(levels[level - 1][..n], levels[level], lastLevel);
      ChunksAre(levels[level - 1][..n], levels[level], lastLevel);
      MergedFacts(levels[level - 1][..n], levels[level]);
      var queue, merged, timeStamp := PickSources(levels[level - 1], n, levels[level]);
      var src := ReadSources(queue);
      LeakedIs();
      var chunks := MergeTables(src, lastLevel);
      MergeLeakIs(e.hash, x, level, n);
      ghost var busy := set t | t in queue :: IdOf(t);
      exited := WriteTables(level, timeStamp, chunks, busy);
      if exited {
        return;
      }
      NowIs();
      FilledFacts(e.hash, x, level, timeStamp, chunks);
      mid := pool.View();
      pool.FieldsOf();
      DropPicked(level, n);
      ghost var b, r := pool.View(), pool.reset;
      NowIs();
      EmptiedFacts(Filled(e.hash, x, level, timeStamp, chunks), level, n);
      DropMerged(level, merged);
      MarkedTwice(mid, b, pool.View(), r, pool.reset);
      pool.FieldsOf();
    }

    // ---------- The store ----------

    ghost function Model(): Stores.Store
      reads this`levels, this`count, memTable
    {
      Stores.Store(memTable.pairs, memTable.memory, memTable.minKey, memTable.maxKey, memTable.timeStamp, Now())
    }

    ghost predicate Valid()
      reads this`levels, this`count, pool, pool.empty, memTable, memTable.repr
    {
      Backed() && memTable.Valid() && Stores.Basic(Model())
    }

    lemma ValidParts()
      requires Valid()
      ensures Backed() && memTable.Valid() && Stores.Basic(Model())
      ensures |levels| == |count| && levels != []
    {}

    lemma ValidFrom()
      requires Backed() && memTable.Valid() && Stores.Basic(Model())
      ensures Valid()
    {}

    lemma ModelIs()
      ensures Model() == Stores.Store(memTable.pairs, memTable.memory, memTable.minKey, memTable.maxKey,
                                      memTable.timeStamp, Tiers(levels, count))
    {}

    // Turns the memtable into a table of level 0; `s` is the store before, with
    // any size estimate.
    method FlushTable(ghost s: Stores.Store) returns (exited: bool)
      requires Backed() && memTable.Valid() && Stores.Basic(s) && s.mem != [] && s.tiers == Now()
      requires s.mem == memTable.pairs && s.minKey == memTable.minKey
      requires s.maxKey == memTable.maxKey && s.clock == memTable.timeStamp
      modifies this`levels, this`count, pool, pool.empty, memTable
      ensures memTable.repr <= old(memTable.repr)
      ensures exited ==> pool.Jammed()
      ensures !exited ==>
                && Backed() && memTable.Valid() && memTable.pairs == [] && memTable.memory == Stores.CLEARED_MEMORY
                && memTable.minKey == INT64_MAX && memTable.maxKey == INT64_MAX + 1
                && memTable.timeStamp == old(memTable.timeStamp) + 1
                && Now() == Stores.FlushTiers(e, s) && Leaked() == old(Leaked())
    {
      hide *;
      ghost var before, keys := Now(), pool.mapping.Keys;
      NowIs();
      LeakedIs();
      BackedParts();
      FlushReady(e, s, pool.mapping.Keys);
      FlushKeepsIds(e, s, keys);
      NextIsNew(e.hash, before, pool.mapping.Keys, 0);
      memTable.NotEmpty();
      Constants();
      count := count[0 := count[0] + 1];
      var entries := memTable.Entries();
      var t := FromMemTable(e.hash, e.movedLen, count[0], memTable.timeStamp, memTable.minKey, memTable.maxKey,
                            entries);
      memTable.Parts();
      memTable.timeStamp := memTable.timeStamp + 1;
      memTable.Assemble();
      ghost var log, next;
      exited, log, next := pool.WriteTable(Id(0, count[0]));
      if exited {
        return;
      }
      ghost var freed := memTable.Clear();
      levels := levels[0 := Emplace(levels[0], t)];
      NowIs();
      LeakedIs();
      BackedFrom();
    }

    // Compacts level 0 if it is over full.
    method SettleLevels(ghost s: Stores.Store) returns (exited: bool)
      requires Backed() && Stores.Basic(s) && s.mem != [] && Now() == Stores.FlushTiers(e, s)
      modifies this`levels, this`count, pool, pool.empty
      ensures exited ==> pool.Jammed()
      ensures !exited ==> Backed() && Now() == Stores.Settle(e.hash, Stores.FlushTiers(e, s))
      ensures !exited ==> Leaked() == old(Leaked()) + FlushLeak(e, s)
      // After a compaction no zone is marked for reset.
      ensures !exited && |Stores.FlushTiers(e, s).levels[0]| > LEVEL0 ==> pool.reset == {}
    {
      hide *;
      ghost var t := Now();
      NowIs();
      LeakedIs();
      Constant3();
      SettleIs(e, s);
      FlushLeakIs(e, s);
      if count[0] > LEVEL0 {
        ghost var at, marked;
        exited, at, marked := CompactionForLevel(1);
        if exited {
          return;
        }
        LeakedIs();
        BackedParts();
        ResetCoherent(e.hash, Now(), pool.mapping.Keys);
        SameIds(Now(), Tiers(levels, count[0 := 0]));
        NowIs();
        count := count[0 := 0];
        NowIs();
        LeakedIs();
        BackedFrom();
      } else {
        exited := false;
      }
    }

    // The memtable is too large: it is flushed, and the levels settle.
    method Overflow(val: string, v: string, ghost s: Stores.Store) returns (exited: bool)
      requires Backed() && memTable.Valid() && Stores.Basic(s) && s.mem != [] && s.tiers == Now()
      requires s.mem == memTable.pairs && s.minKey == memTable.minKey
      requires s.maxKey == memTable.maxKey && s.clock == memTable.timeStamp
      modifies this`levels, this`count, pool, pool.empty, memTable
      ensures memTable.repr <= old(memTable.repr)
      ensures exited ==> pool.Jammed()
      ensures !exited ==>
                && Backed() && memTable.Valid() && memTable.pairs == []
                && memTable.memory == Stores.Grow(Stores.CLEARED_MEMORY, val, v)
                && memTable.minKey == INT64_MAX && memTable.maxKey == INT64_MAX + 1
                && memTable.timeStamp == old(memTable.timeStamp) + 1
                && Now() == Stores.Settle(e.hash, Stores.FlushTiers(e, s))
                && Leaked() == old(Leaked()) + FlushLeak(e, s)
                && (|Stores.FlushTiers(e, s).levels[0]| > LEVEL0 ==> pool.reset == {})
    {
      hide *;
      exited := FlushTable(s);
      if exited {
        return;
      }
      memTable.Parts();
      memTable.memory := Stores.Grow(memTable.memory, val, v);
      memTable.Assemble();
      exited := SettleLevels(s);
    }

    method Put(key: nat, s: string) returns (exited: bool)
      requires Valid() && Stores.Storable(key, s)
      modifies this`levels, this`count, pool, pool.empty, memTable, memTable.repr
      ensures exited ==> pool.Jammed()
      ensures !exited ==>
                Valid() && Model() == Stores.Put(e, old(Model()), key, s) && fresh(memTable.repr - old(memTable.repr))
      ensures Stores.Basic(old(Model())) && (!exited ==> Leaked() == old(Leaked()) + PutLeak(e, old(Model()), key, s))
      // A put that starts compactions leaves no zone marked for reset.
      ensures !exited && Stores.Flushes(old(Model()), key, s) && |old(levels)[0]| >= LEVEL0 ==> pool.reset == {}
    {
      hide *;
      ghost var m := Model();
      ValidParts();
      ModelIs();
      NowIs();
      LeakedIs();
      PutLeakIs(e, m, key, s);
      StorableKey(key, s);
      PutUnfold(e, m, key, s);
      var val := memTable.Get(key);
      memTable.Parts();
      memTable.memory := Stores.Grow(memTable.memory, val, s);
      memTable.Assemble();
      exited := false;
      if memTable.memory > TABLE_SIZE {
        exited := Overflow(val, s, m);
        if exited {
          return;
        }
      }
      memTable.Put(key, s);
      ModelIs();
      NowIs();
      LeakedIs();
      ValidFrom();
    }

    // Looks a key up in one table, and if it is there asks the zone manager for
    // the bytes: the table's write is waited for, and then it is read.
    method ReadOne(t: Table, key: nat) returns (ans: string)
      requires Backed() && WellFormed(e.hash, t) && IdOf(t) in pool.mapping
      modifies pool`pending, pool`trace
      ensures Backed() && ans == ValueOr(Find(t.keyValue, key))
      ensures var from := if Find(t.keyValue, key) == None then None else Some(t);
              && pool.trace == old(pool.trace) + LookupCmds(old(pool.View()), from)
              && pool.pending == old(pool.pending) - if from == None then {} else {IdOf(t)}
    {
      hide *;
      var read;
      ans, read := Tables.GetValue(e.hash, t, key);
      pool.FieldsOf();
      NoLookup(pool.View());
      LookupCmdsAre(pool.View(), t);
      if read.Some? {
        BackedParts();
        PoolValid();
        pool.Fetch(IdOf(t));
        BackedFrom();
      }
    }

    lemma NoLookup(a: State)
      ensures LookupCmds(a, None) == []
    {}

    lemma LookupCmdsAre(a: State, t: Table)
      requires IdOf(t) in a.mapping
      ensures LookupCmds(a, Some(t)) == FetchCmds(a, IdOf(t))
    {
      hide FetchCmds;
    }

    // The newest value of a key in one level.
    method SearchLevel(i: nat, key: nat) returns (ans: string, ghost from: Option<Table>)
      requires Backed() && i < |levels| == |count|
      modifies pool`pending, pool`trace
      ensures Backed() && ans == ValueOr(LevelGet(levels[i], key))
      ensures ans == "" <==> LevelGet(levels[i], key) == None
      // Only the newest table that has the key is read.
      ensures ans == "" <==> from == None
      ensures from != None ==> NewestWith(levels[i], key, from.value) && IdOf(from.value) in pool.mapping
      ensures pool.trace == old(pool.trace) + LookupCmds(old(pool.View()), from)
      ensures pool.pending == old(pool.pending) - if from == None then {} else {IdOf(from.value)}
    {
      hide *;
      NoLookup(pool.View());
      pool.FieldsOf();
      from := None;
      NowIs();
      BackedParts();
      LevelOf(e.hash, Now(), pool.mapping.Keys, i);
      var l := levels[i];
      assert l[..|l|] == l;
      var j := |l|;
      while j > 0
        modifies pool`pending, pool`trace
        invariant 0 <= j <= |l| && Backed()
        invariant LevelGet(l, key) == LevelGet(l[..j], key)
        invariant forall k :: j <= k < |l| ==> Find(l[k].keyValue, key) == None
        invariant pool.trace == old(pool.trace) && pool.pending == old(pool.pending)
      {
        TableOf(e.hash, l, i, count[i], pool.mapping.Keys, j - 1, key);
        LevelGetStep(l, j - 1, key);
        j := j - 1;
        pool.FieldsOf();
        ans := ReadOne(l[j], key);
        if ans != "" {
          from := Some(l[j]);
          NewestFound(l, key, j);
          return;
        }
      }
      LevelGetNone(l, key);
      ans := "";
    }

    // The memtable first, then the levels from the newest table on.
    method Get(key: nat) returns (val: string, ghost from: Option<Table>)
      requires Valid()
      modifies pool`pending, pool`trace
      ensures Valid() && Model() == old(Model()) && val == Stores.Get(Model(), key)
      // When the memtable does not have the key, the table that answers is
      // waited for and read, and no other.
      ensures from != None <==> Find(memTable.pairs, key) == None && LevelsGet(levels, key, 0) != None
      ensures from != None ==> AnsweredBy(levels, key, from.value) && IdOf(from.value) in pool.mapping
      ensures pool.trace == old(pool.trace) + LookupCmds(old(pool.View()), from)
      ensures pool.pending == old(pool.pending) - if from == None then {} else {IdOf(from.value)}
    {
      hide *;
      NoLookup(pool.View());
      from := None;
      ValidParts();
      ModelIs();
      NowIs();
      MemValue(Model(), key);
      var ans := memTable.Get(key);
      if ans != "" {
        ValidFrom();
        return if ans == DEL then "" else ans, None;
      }
      var i := 0;
      while i < |levels|
        modifies pool`pending, pool`trace
        invariant 0 <= i <= |levels| == |count| && Backed()
        invariant Stores.Get(Model(), key) == Compaction.View(LevelsGet(levels, key, i))
        invariant LevelsGet(levels, key, 0) == LevelsGet(levels, key, i)
        invariant forall h :: 0 <= h < i ==> LevelGet(levels[h], key) == None
        invariant from == None && pool.trace == old(pool.trace) && pool.pending == old(pool.pending)
      {
        pool.FieldsOf();
        LevelsGetStep(levels, key, i);
        ans, from := SearchLevel(i, key);
        if ans != "" {
          AnsweredIs(levels, key, i, from.value);
          ValidFrom();
          return if ans == DEL then "" else ans, from;
        }
        i := i + 1;
      }
      LevelsGetEnd(levels, key);
      ValidFrom();
      val := "";
    }

    // Deletes a key that is there; says whether it was.
    method Del(key: nat) returns (flag: bool, exited: bool)
      requires Valid() && key < HEAD_KEY
      modifies this`levels, this`count, pool, pool.empty, memTable, memTable.repr
      ensures exited ==> pool.Jammed()
      ensures !exited ==>
                && Valid() && (Model(), flag) == Stores.Del(e, old(Model()), key)
                && fresh(memTable.repr - old(memTable.repr))
      ensures Stores.Basic(old(Model())) && Stores.Legal(Stores.DelOp(key))
      ensures !exited ==> Leaked() == old(Leaked()) + StepLeak(e, old(Model()), Stores.DelOp(key))
    {
      hide *;
      ValidParts();
      DelUnfold(e, Model(), key);
      StepLeakIs(e, Model(), Stores.DelOp(key));
      var val;
      ghost var from;
      val, from := Get(key);
      flag := val != "";
      exited := false;
      if flag {
        exited := Put(key, DEL);
      }
    }

    // Executes operations one after the other, up to the first that makes the
    // program give up.
    method Execute(ops: seq<Stores.Op>) returns (replies: seq<Stores.Reply>, exited: bool)
      requires Valid() && forall i :: 0 <= i < |ops| ==> Stores.Legal(ops[i])
      modifies this`levels, this`count, pool, pool.empty, memTable, memTable.repr
      ensures |replies| <= |ops| && (exited <==> |replies| < |ops|)
      ensures Stores.Basic(old(Model())) && replies == Stores.Run(e, old(Model()), ops[..|replies|]).1
      ensures exited ==> pool.Jammed()
      ensures !exited ==> Valid() && Model() == Stores.Run(e, old(Model()), ops).0
      ensures !exited ==> Leaked() == old(Leaked()) + RunLeak(e, old(Model()), ops)
    {
      hide *;
      ghost var start := Model();
      ValidParts();
      RunNone(e, start, ops);
      RunLeakNone(e, start, ops);
      replies, exited := [], false;
      var i := 0;
      while i < |ops|
        invariant 0 <= i == |replies| <= |ops| && Valid() && fresh(memTable.repr - old(memTable.repr))
        invariant Stores.Basic(start) && (forall j :: 0 <= j < |ops[..i]| ==> Stores.Legal(ops[..i][j]))
        invariant (Model(), replies) == Stores.Run(e, start, ops[..i])
        invariant Leaked() == old(Leaked()) + RunLeak(e, start, ops[..i])
      {
        ghost var s := Model();
        ValidParts();
        TakeNext(ops, i);
        StepUnfold(e, s, ops[i]);
        Stores.RunNext(e, start, ops[..i], ops[i]);
        RunLeakNext(e, start, ops[..i], ops[i]);
        StepLeakIs(e, s, ops[i]);
        var reply;
        match ops[i] {
          case PutOp(k, v) =>
            exited := Put(k, v);
            reply := Stores.Stored;
          case GetOp(k) =>
            var val;
            ghost var from;
            val, from := Get(k);
            reply := Stores.Found(val);
          case DelOp(k) =>
            var flag;
            flag, exited := Del(k);
            reply := Stores.Deleted(flag);
        }
        if exited {
          return;
        }
        replies := replies + [reply];
        i := i + 1;
      }
      assert ops[..i] == ops;
    }

    // The zone manager holds the tables of the levels and what was left
    // behind, and nothing else.
    lemma HeldExactly()
      requires Backed()
      ensures pool.mapping.Keys == Ids(Now()) + Leaked() && Ids(Now()) !! Leaked()
    {
      hide Coherent, Ids;
      IdsAt(e.hash, Now(), pool.mapping.Keys);
    }
  }

  // A whole session on a new store. The replies are those of the
  // specification, and those of a plain map if no compaction harms a key. They
  // stop short only when the zone manager is jammed.
  method Session(e: Stores.Env, tables: nat, zoneNum: nat, openNum: nat, div: nat, ops: seq<Stores.Op>)
    returns (store: KVStore, replies: seq<Stores.Reply>, exited: bool)
    requires tables > 0 && 0 < openNum <= zoneNum && 20 * openNum <= 19 * zoneNum
    requires div > 0 && forall z :: 0 <= z < zoneNum ==> QueueOf(z, div) < zoneNum / div
    requires forall i :: 0 <= i < |ops| ==> Stores.Legal(ops[i])
    ensures Stores.Basic(Stores.EMPTY_STORE)
    ensures |replies| <= |ops| && (exited <==> |replies| < |ops|)
    ensures replies == Stores.Run(e, Stores.EMPTY_STORE, ops[..|replies|]).1
    ensures Stores.RunHarmless(e, Stores.EMPTY_STORE, ops[..|replies|])
            ==> replies == Stores.MapRun(map[], ops[..|replies|]).1
    ensures store.pool.tables == tables && store.pool.zoneNum == zoneNum && store.pool.openNum == openNum
    ensures exited ==> store.pool.Jammed()
    ensures exited && 20 * tables <= zoneNum ==> store.pool.Stuck()
    ensures !exited ==> store.Valid() && store.Model() == Stores.Run(e, Stores.EMPTY_STORE, ops).0
    // The zone manager holds the tables of the levels, and one more for each
    // table that was turned away.
    ensures !exited ==> store.pool.mapping.Keys == Ids(store.Now()) + RunLeak(e, Stores.EMPTY_STORE, ops)
  {
    hide *;
    EmptyBasic(e);
    store := new KVStore(e, tables, zoneNum, openNum, div);
    replies, exited := store.Execute(ops);
    Stores.RunsLikeAMap(e, ops[..|replies|]);
    if exited {
      AmpleIsStuck(store.pool);
    } else {
      store.ValidParts();
      store.HeldExactly();
    }
  }

  // A large device gives up only when its full zones hold nothing but live
  // tables.
  lemma AmpleIsStuck(pool: MemoryManager)
    requires pool.Jammed() && 20 * pool.openNum <= 19 * pool.zoneNum
    ensures 20 * pool.tables <= pool.zoneNum ==> pool.Stuck()
  {}

  lemma EmptyBasic(e: Stores.Env)
    ensures Stores.Basic(Stores.EMPTY_STORE)
  {
    Stores.EmptyStoreSane(e);
  }
}
