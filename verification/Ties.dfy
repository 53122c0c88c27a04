// From level 2 down a picked table and a table below it can carry the same
// time stamp. This module says exactly when a compaction then still gives
// every key the answer it had.
module Ties {
  import opened Options
  import opened Pairs
  import opened Merge
  import opened Tables
  import opened Levels
  import opened Compaction

  // Each level from 1 down is disjoint, and the lower one is no newer.
  ghost predicate Ready(picked: seq<Table>, low: seq<Table>) {
    && InOrder(picked, low) && Disjoint(picked)
    && (forall p, q :: p in picked && q in low ==> q.timeStamp <= p.timeStamp)
  }

  // A picked table has the key, so does a table below that is not ordered
  // before it, and their values differ.
  ghost predicate Stale(picked: seq<Table>, low: seq<Table>, k: nat, p: Table, q: Table) {
    && p in picked && q in Select(low, HullMin(picked), HullMax(picked))
    && Holds(p, k) && Holds(q, k) && !Before(q, p)
    && Find(p.keyValue, k) != Find(q.keyValue, k)
  }

  ghost predicate StaleAt(picked: seq<Table>, low: seq<Table>, k: nat) {
    exists p, q :: Stale(picked, low, k, p, q)
  }

  // ---------- Which source answers ----------

  ghost predicate WeaklySorted(l: seq<Table>) {
    forall i, j :: 0 <= i < j < |l| ==> !Before(l[j], l[i])
  }

  lemma {:induction false} EnqueueWeaklySorted(q: seq<Table>, t: Table)
    requires WeaklySorted(q)
    ensures WeaklySorted(Enqueue(q, t))
  {
    var r := Enqueue(q, t);
    if q != [] && !Before(t, q[0]) {
      EnqueueWeaklySorted(q[1..], t);
      forall i, j | 0 <= i < j < |r| ensures !Before(r[j], r[i]) {
        if i == 0 {
          assert r[j] in Enqueue(q[1..], t);
          if r[j] != t {
            var m :| 0 <= m < |q[1..]| && q[1..][m] == r[j];
            assert !Before(q[m + 1], q[0]);
          }
        } else {
          assert r[i] == r[1..][i - 1] && r[j] == r[1..][j - 1];
        }
      }
    } else {
      forall i, j | 0 <= i < j < |r| ensures !Before(r[j], r[i]) {
        if i == 0 {
          assert r[j] == q[j - 1];
          assert j - 1 > 0 ==> !Before(q[j - 1], q[0]);
        } else {
          assert r[i] == q[i - 1] && r[j] == q[j - 1];
        }
      }
    }
  }

  // The head of a list is its oldest table.
  lemma LevelGetHead(l: seq<Table>, k: nat)
    requires l != []
    ensures LevelGet(l, k) == LevelGet(l[1..], k).OrElse(Find(l[0].keyValue, k))
  {
    assert l == [l[0]] + l[1..];
    LevelGetAppend([l[0]], l[1..], k);
    assert [l[0]][..0] == [];
  }

  // A queued table answers for its key unless a table it comes before has it.
  lemma {:induction false} EnqueueGet(q: seq<Table>, t: Table, k: nat)
    requires WeaklySorted(q)
    ensures Find(t.keyValue, k).None? ==> LevelGet(Enqueue(q, t), k) == LevelGet(q, k)
    ensures (Holds(t, k) && forall x :: x in q && Holds(x, k) ==> !Before(t, x))
            ==> LevelGet(Enqueue(q, t), k) == Find(t.keyValue, k)
    ensures (LevelGet(q, k).Some? && forall x :: x in q && Holds(x, k) ==> Before(t, x))
            ==> LevelGet(Enqueue(q, t), k) == LevelGet(q, k)
  {
    var r := Enqueue(q, t);
    LevelGetHead(r, k);
    LevelGetSome(q, k);
    if q == [] {
      assert r[1..] == [];
    } else if Before(t, q[0]) {
      assert r[1..] == q;
      if Holds(t, k) && forall x :: x in q && Holds(x, k) ==> !Before(t, x) {
        forall x | x in q ensures !Holds(x, k) {
          var m :| 0 <= m < |q| && q[m] == x;
          assert m > 0 ==> !Before(q[m], q[0]);
        }
      }
    } else {
      assert r[1..] == Enqueue(q[1..], t);
      EnqueueGet(q[1..], t, k);
      LevelGetHead(q, k);
      LevelGetSome(q[1..], k);
      assert forall x :: x in q[1..] ==> x in q;
      assert q[0] in q;
    }
  }

  lemma {:induction false} EnqueueAllWeaklySorted(ts: seq<Table>)
    ensures WeaklySorted(EnqueueAll(ts))
  {
    if ts != [] {
      EnqueueAllWeaklySorted(ts[..|ts| - 1]);
      EnqueueWeaklySorted(EnqueueAll(ts[..|ts| - 1]), ts[|ts| - 1]);
    }
  }

  // When no picked table has the key, the lower level answers.
  lemma {:induction false} SourcesWithoutPicked(picked: seq<Table>, sel: seq<Table>, k: nat)
    requires SortedLevel(picked) && Disjoint(sel) && AllInRange(sel)
    requires forall x :: x in picked ==> !Holds(x, k)
    ensures LevelGet(EnqueueAll(picked + sel), k) == LevelGet(sel, k)
    decreases |sel|
  {
    if sel == [] {
      assert picked + sel == picked;
      EnqueueSorted(picked);
      LevelGetSome(picked, k);
    } else {
      var rest, t := sel[..|sel| - 1], sel[|sel| - 1];
      assert (picked + sel)[..|picked + sel| - 1] == picked + rest;
      SourcesWithoutPicked(picked, rest, k);
      EnqueueAllWeaklySorted(picked + rest);
      EnqueueGet(EnqueueAll(picked + rest), t, k);
      if Holds(t, k) {
        OnlyHolder(sel, t, k);
        assert forall x :: x in EnqueueAll(picked + rest) ==> !Holds(x, k);
      }
    }
  }

  // When a picked table has the key, it answers unless a lower table that has
  // it too is not ordered before it.
  lemma {:induction false} SourcesWithPicked(picked: seq<Table>, sel: seq<Table>, k: nat, p: Table)
    requires SortedLevel(picked) && AllInRange(picked) && Disjoint(picked) && Disjoint(sel) && AllInRange(sel)
    requires p in picked && Holds(p, k)
    ensures var got := LevelGet(EnqueueAll(picked + sel), k);
            && (LevelGet(sel, k).None? ==> got == Find(p.keyValue, k))
            && (forall q :: q in sel && Holds(q, k) ==> got == Find((if Before(q, p) then p else q).keyValue, k))
    decreases |sel|
  {
    if sel == [] {
      assert picked + sel == picked;
      EnqueueSorted(picked);
      DisjointGet(picked, p, k);
    } else {
      var rest, t := sel[..|sel| - 1], sel[|sel| - 1];
      assert (picked + sel)[..|picked + sel| - 1] == picked + rest;
      SourcesWithPicked(picked, rest, k, p);
      LevelGetSome(rest, k);
      if Holds(t, k) {
        OnlyHolder(sel, t, k);
        OnlyOne(picked, p, k);
        LastJoins(picked, rest, t, k, p);
        assert forall q :: q in sel && Holds(q, k) ==> q == t;
      } else {
        EnqueueAllWeaklySorted(picked + rest);
        EnqueueGet(EnqueueAll(picked + rest), t, k);
        LevelGetSome(sel, k);
        LevelGetSome(rest, k);
        assert forall q :: q in sel && Holds(q, k) ==> q in rest;
      }
    }
  }

  // A queued table that shares a key with one picked table only.
  lemma LastJoins(picked: seq<Table>, rest: seq<Table>, t: Table, k: nat, p: Table)
    requires p in picked && Holds(p, k) && Holds(t, k)
    requires forall x :: x in picked && Holds(x, k) ==> x == p
    requires forall x :: x in rest ==> !Holds(x, k)
    requires LevelGet(EnqueueAll(picked + rest), k) == Find(p.keyValue, k)
    ensures LevelGet(Enqueue(EnqueueAll(picked + rest), t), k) == Find((if Before(t, p) then p else t).keyValue, k)
  {
    var s := EnqueueAll(picked + rest);
    EnqueueAllWeaklySorted(picked + rest);
    EnqueueGet(s, t, k);
    assert p in s;
    forall x | x in s && Holds(x, k) ensures x == p {
      assert x in picked + rest;
    }
  }

  // No table before the last has its key.
  lemma OnlyHolder(sel: seq<Table>, t: Table, k: nat)
    requires sel != [] && t == sel[|sel| - 1]
    requires Disjoint(sel) && AllInRange(sel) && Holds(t, k)
    ensures forall x :: x in sel[..|sel| - 1] ==> !Holds(x, k)
  {
    forall x | x in sel[..|sel| - 1] ensures !Holds(x, k) {
      var i :| 0 <= i < |sel| - 1 && sel[i] == x;
      assert Apart(sel[i], sel[|sel| - 1]);
      ApartHolders(t, x, k);
    }
  }

  // ---------- Exactly when a compaction keeps every lookup ----------

  lemma {:induction false} SelectDisjoint(l: seq<Table>, lo: nat, hi: nat)
    requires Disjoint(l)
    ensures Disjoint(Select(l, lo, hi))
  {
    if l != [] {
      SelectDisjoint(l[1..], lo, hi);
      var r := Select(l, lo, hi);
      if Overlaps(l[0], lo, hi) {
        forall i, j | 0 <= i < j < |r| ensures Apart(r[i], r[j]) {
          if i == 0 {
            assert r[j] in Select(l[1..], lo, hi);
            var m :| 0 <= m < |l[1..]| && l[1..][m] == r[j];
            assert Apart(l[0], l[m + 1]);
          } else {
            assert r[i] == r[1..][i - 1] && r[j] == r[1..][j - 1];
          }
        }
      }
    }
  }

  // The merged sources answer with the newer level exactly when nothing is stale.
  lemma MergeWinsExactly(picked: seq<Table>, low: seq<Table>, k: nat)
    requires Ready(picked, low)
    ensures var sel := Select(low, HullMin(picked), HullMax(picked));
            LevelGet(Sources(picked, low), k) == LevelGet(picked, k).OrElse(LevelGet(sel, k))
            <==> !StaleAt(picked, low, k)
  {
    var sel := Select(low, HullMin(picked), HullMax(picked));
    SelectDisjoint(low, HullMin(picked), HullMax(picked));
    LevelGetSome(picked, k);
    LevelGetSome(sel, k);
    if p :| p in picked && Holds(p, k) {
      SourcesWithPicked(picked, sel, k, p);
      DisjointGet(picked, p, k);
      OnlyOne(picked, p, k);
      if q :| q in sel && Holds(q, k) {
        OnlyOne(sel, q, k);
        assert Stale(picked, low, k, p, q) <==> (!Before(q, p) && Find(p.keyValue, k) != Find(q.keyValue, k));
      }
    } else {
      SourcesWithoutPicked(picked, sel, k);
    }
  }

  // ---------- Which keys are lost ----------

  // A table of the lower level turns a new table away: it has its time stamp
  // and its first key.
  ghost predicate Displaces(x: Table, timeStamp: nat, chunk: seq<Pair>) {
    chunk != [] && x.timeStamp == timeStamp && x.minKey == chunk[0].key
  }

  ghost predicate LostFrom(low: seq<Table>, timeStamp: nat, chunk: seq<Pair>, x: Table, k: nat) {
    x in low && Displaces(x, timeStamp, chunk) && HasKey(chunk, k)
  }

  ghost predicate LostAmong(low: seq<Table>, timeStamp: nat, chunks: seq<seq<Pair>>, k: nat) {
    exists i, x :: 0 <= i < |chunks| && LostFrom(low, timeStamp, chunks[i], x, k)
  }

  // The table to be written for the key starts with the first key of a table
  // below that has the time stamp of the last picked table.
  ghost predicate LostIn(picked: seq<Table>, low: seq<Table>, lastLevel: bool, k: nat)
    requires picked != [] && Solid(picked) && Solid(low)
  {
    LostAmong(low, picked[|picked| - 1].timeStamp, Chunks(picked, low, lastLevel), k)
  }

  lemma HasKeyFind(s: seq<Pair>, k: nat)
    ensures HasKey(s, k) <==> Find(s, k).Some?
  {}

  // Those are the keys of the tables the ordered set turns away.
  lemma LostIs(h: Hash, picked: seq<Table>, low: seq<Table>, level: nat, count: nat, lastLevel: bool, k: nat)
    requires InOrder(picked, low)
    ensures LostIn(picked, low, lastLevel, k) <==> TurnedAway(low, Added(h, picked, low, level, count, lastLevel), k)
  {
    hide *;
    InOrderSolid(picked, low);
    var T := picked[|picked| - 1].timeStamp;
    var chunks: seq<seq<Pair>> := Chunks(picked, low, lastLevel);
    AddedSize(h, picked, low, level, count, lastLevel);
    LostUnfold(picked, low, lastLevel, k);
    LostAmongIs(h, low, level, count, T, chunks, k);
  }

  lemma InOrderSolid(picked: seq<Table>, low: seq<Table>)
    requires InOrder(picked, low)
    ensures picked != [] && Solid(picked) && Solid(low)
  {}

  lemma LostUnfold(picked: seq<Table>, low: seq<Table>, lastLevel: bool, k: nat)
    requires picked != [] && Solid(picked) && Solid(low)
    ensures LostIn(picked, low, lastLevel, k)
            <==> LostAmong(low, picked[|picked| - 1].timeStamp, Chunks(picked, low, lastLevel), k)
  {
    hide LostAmong, Chunks;
  }

  lemma LostAmongIs(h: Hash, low: seq<Table>, level: nat, count: nat, T: nat, chunks: seq<seq<Pair>>, k: nat)
    requires NonEmpty(chunks)
    ensures LostAmong(low, T, chunks, k) <==> TurnedAway(low, NewTables(h, level, count, T, chunks), k)
  {
    hide NewTables, Before;
    var added := NewTables(h, level, count, T, chunks);
    forall i: nat | i < |chunks| ensures IsWritten(added[i], T, chunks[i], k) {
      NewTablesAt(h, level, count, T, chunks, i);
      HasKeyFind(chunks[i], k);
    }
    if i, x :| 0 <= i < |chunks| && LostFrom(low, T, chunks[i], x, k) {
      var m :| 0 <= m < |low| && low[m] == x;
      assert IsWritten(added[i], T, chunks[i], k);
      SameOrder(added[i], low[m]);
      assert added[i] in added;
    }
    if t :| t in added && Holds(t, k) && EquivalentToOne(t, low) {
      var i :| 0 <= i < |added| && added[i] == t;
      var m :| 0 <= m < |low| && Equivalent(t, low[m]);
      assert IsWritten(added[i], T, chunks[i], k);
      SameOrder(t, low[m]);
      assert LostFrom(low, T, chunks[i], low[m], k);
    }
  }

  ghost predicate IsWritten(t: Table, T: nat, chunk: seq<Pair>, k: nat) {
    chunk != [] && t.timeStamp == T && t.minKey == chunk[0].key && (Holds(t, k) <==> HasKey(chunk, k))
  }

  lemma SameOrder(a: Table, b: Table)
    ensures Equivalent(a, b) <==> a.timeStamp == b.timeStamp && a.minKey == b.minKey
  {}

  // The smallest key of all is lost if it is the first key of a table below
  // that has the time stamp of the last picked table.
  lemma SmallestKeyLost(picked: seq<Table>, low: seq<Table>, lastLevel: bool, x: Table)
    requires InOrder(picked, low) && x in low && x.timeStamp == picked[|picked| - 1].timeStamp
    requires forall t :: t in Sources(picked, low) ==> x.minKey <= t.keyValue[0].key
    requires Kept(LevelGet(Sources(picked, low), x.minKey), lastLevel).Some?
    ensures LostIn(picked, low, lastLevel, x.minKey)
  {
    var src, k := Sources(picked, low), x.minKey;
    var chunks: seq<seq<Pair>> := Chunks(picked, low, lastLevel);
    var r := MergeResult(Contents(src), lastLevel);
    SourcesAscending(picked, low);
    MergeResultCorrect(Contents(src), lastLevel);
    ChunksCorrect(picked, low, lastLevel);
    LevelGetIsNewest(src, k);
    hide Chunks, MergeResult, Pack, Kept, Newest;
    FirstOfAll(chunks);
    forall p | p in r ensures k <= p.key { NoSmaller(src, lastLevel, p, k); }
    SmallestFirst(r, k);
    assert LostFrom(low, picked[|picked| - 1].timeStamp, chunks[0], x, k);
  }

  lemma SmallestFirst(r: seq<Pair>, k: nat)
    requires Ascending(r) && Find(r, k).Some? && forall p :: p in r ==> k <= p.key
    ensures r != [] && r[0].key == k
  {
    var m :| 0 <= m < |r| && r[m] == Pair(k, Find(r, k).value);
    assert r[0] in r && r[0].key <= r[m].key;
  }

  lemma {:induction false} FirstOfAll(chunks: seq<seq<Pair>>)
    requires NonEmpty(chunks)
    ensures chunks != [] <==> Flatten(chunks) != []
    ensures chunks != [] ==> Flatten(chunks)[0] == chunks[0][0]
  {
    if chunks != [] {
      var rest := chunks[..|chunks| - 1];
      FirstOfAll(rest);
      if rest != [] { assert rest[0] == chunks[0]; }
    }
  }

  lemma NoSmaller(src: seq<Table>, lastLevel: bool, p: Pair, k: nat)
    requires AllAscending(Contents(src)) && p in MergeResult(Contents(src), lastLevel)
    requires forall t :: t in src ==> t.keyValue != [] && k <= t.keyValue[0].key
    ensures k <= p.key
  {
    var t := OutputSource(src, lastLevel, p);
    var i :| 0 <= i < |src| && src[i] == t;
    assert Ascending(Contents(src)[i]);
    var m :| 0 <= m < |t.keyValue| && t.keyValue[m] == Pair(p.key, Find(t.keyValue, p.key).value);
    assert m > 0 ==> t.keyValue[0].key < t.keyValue[m].key;
  }

  // ---------- Exactly when a compaction keeps an answer ----------

  // The key's answer changes: its new table is turned away and the deeper
  // levels, which hold `deep`, answer something else, or its value is stale.
  ghost predicate Harmed(picked: seq<Table>, low: seq<Table>, lastLevel: bool, deep: Option<string>, k: nat)
    requires picked != [] && Solid(picked) && Solid(low)
  {
    if LostIn(picked, low, lastLevel, k) then View(LevelGet(picked, k).OrElse(LevelGet(low, k))) != View(deep)
    else StaleAt(picked, low, k)
  }

  // No picked table shares its time stamp with a table of the lower level
  // that the picked tables' hull meets.
  ghost predicate NoTie(picked: seq<Table>, low: seq<Table>) {
    forall p, q :: p in picked && q in Select(low, HullMin(picked), HullMax(picked)) ==> p.timeStamp != q.timeStamp
  }

  lemma LevelGetNotEmpty(l: seq<Table>, k: nat)
    requires Solid(l)
    ensures LevelGet(l, k) != Some("")
  {
    LevelGetSome(l, k);
    if LevelGet(l, k).Some? {
      var t :| t in l && Find(t.keyValue, k) == LevelGet(l, k);
      var i :| 0 <= i < |t.keyValue| && t.keyValue[i] == Pair(k, LevelGet(l, k).value);
      assert t.keyValue[i] in t.keyValue && Fits(t.keyValue[i]);
    }
  }

  // The sources hold no other keys than the two levels.
  lemma SourcesHold(picked: seq<Table>, low: seq<Table>, k: nat)
    requires LevelGet(Sources(picked, low), k).Some?
    ensures LevelGet(picked, k).OrElse(LevelGet(low, k)).Some?
  {
    var src := Sources(picked, low);
    LevelGetSome(src, k);
    LevelGetSome(picked, k);
    LevelGetSome(low, k);
    var s :| s in src && Find(s.keyValue, k) == LevelGet(src, k);
    assert s in picked + Select(low, HullMin(picked), HullMax(picked));
    assert Holds(s, k) && (s in picked || s in low);
  }

  // A compaction, into the last level or not, keeps the answer of a key if
  // and only if the key is not harmed.
  lemma KeepsOneExactly(h: Hash, picked: seq<Table>, low: seq<Table>, level: nat, count: nat, lastLevel: bool,
                        deep: Option<string>, k: nat)
    requires Ready(picked, low) && (lastLevel ==> deep == None)
    ensures var low' := MergedLevel(low, picked, Added(h, picked, low, level, count, lastLevel));
            View(LevelGet(low', k).OrElse(deep)) == View(LevelGet(picked, k).OrElse(LevelGet(low, k)).OrElse(deep))
            <==> !Harmed(picked, low, lastLevel, deep, k)
  {
    hide *;
    ReadyParts(picked, low);
    MergedLevelIs(h, picked, low, level, count, lastLevel, k);
    LostIs(h, picked, low, level, count, lastLevel, k);
    MergeWinsExactly(picked, low, k);
    SourcesSolid(picked, low);
    LevelGetNotEmpty(picked, k);
    LevelGetNotEmpty(low, k);
    LevelGetNotEmpty(Sources(picked, low), k);
    StaleSome(picked, low, k);
    HarmedIs(picked, low, lastLevel, deep, k);
    var p, l, s := LevelGet(picked, k), LevelGet(low, k), LevelGet(Sources(picked, low), k);
    if s.Some? { SourcesHold(picked, low, k); }
    SameView(p, l, s, deep, lastLevel);
  }

  lemma ReadyParts(picked: seq<Table>, low: seq<Table>)
    requires Ready(picked, low)
    ensures InOrder(picked, low) && picked != [] && Solid(picked) && Solid(low)
  {}

  lemma HarmedIs(picked: seq<Table>, low: seq<Table>, lastLevel: bool, deep: Option<string>, k: nat)
    requires picked != [] && Solid(picked) && Solid(low)
    ensures Harmed(picked, low, lastLevel, deep, k) <==>
              if LostIn(picked, low, lastLevel, k) then View(LevelGet(picked, k).OrElse(LevelGet(low, k))) != View(deep)
              else StaleAt(picked, low, k)
  {
    hide LostIn, LevelGet, View, StaleAt;
  }

  // With no value empty, two lookups look alike exactly when they are equal.
  lemma SameView(p: Option<string>, l: Option<string>, s: Option<string>, deep: Option<string>, lastLevel: bool)
    requires p != Some("") && l != Some("") && s != Some("") && (lastLevel ==> deep == None)
    ensures p.OrElse(l).OrElse(deep) == p.OrElse(l.OrElse(deep))
    ensures p.OrElse(l).Some? ==> p.OrElse(l).OrElse(deep) == p.OrElse(l) && None.OrElse(deep) == deep
    ensures p == None ==> p.OrElse(l) == l
    ensures Kept(s, lastLevel).Some? ==> s.Some?
    ensures (s.Some? <==> p.OrElse(l).Some?) ==>
              (View(Kept(s, lastLevel).OrElse(deep)) == View(p.OrElse(l).OrElse(deep)) <==> s == p.OrElse(l))
  {}

  lemma StaleSome(picked: seq<Table>, low: seq<Table>, k: nat)
    ensures StaleAt(picked, low, k) ==> LevelGet(picked, k).Some? && LevelGet(Sources(picked, low), k).Some?
  {
    LevelGetSome(picked, k);
    LevelGetSome(Sources(picked, low), k);
    if p, q :| Stale(picked, low, k, p, q) {
      assert p in picked + Select(low, HullMin(picked), HullMax(picked));
      assert p in Sources(picked, low);
    }
  }

  // The lower level answers as the two levels did before.
  ghost predicate KeepsAnswer(picked: seq<Table>, low: seq<Table>, low': seq<Table>, k: nat) {
    View(LevelGet(low', k)) == View(LevelGet(picked, k).OrElse(LevelGet(low, k)))
  }

  // The two levels give every key the answer they gave if and only if none is
  // harmed.
  lemma KeepsExactly(h: Hash, picked: seq<Table>, low: seq<Table>, level: nat, count: nat, lastLevel: bool)
    requires Ready(picked, low)
    ensures var low' := MergedLevel(low, picked, Added(h, picked, low, level, count, lastLevel));
            (forall k :: KeepsAnswer(picked, low, low', k)) <==> forall k :: !Harmed(picked, low, lastLevel, None, k)
  {
    hide *;
    ReadyParts(picked, low);
    var low' := MergedLevel(low, picked, Added(h, picked, low, level, count, lastLevel));
    forall k ensures KeepsAnswer(picked, low, low', k) <==> !Harmed(picked, low, lastLevel, None, k) {
      KeepsOneExactly(h, picked, low, level, count, lastLevel, None, k);
      KeepsAnswerIs(picked, low, low', k);
    }
  }

  lemma KeepsAnswerIs(picked: seq<Table>, low: seq<Table>, low': seq<Table>, k: nat)
    ensures KeepsAnswer(picked, low, low', k)
            <==> View(LevelGet(low', k).OrElse(None)) == View(LevelGet(picked, k).OrElse(LevelGet(low, k)).OrElse(None))
  {}

  // A lost key leaves both levels, whatever they held for it.
  lemma LostIsGone(h: Hash, picked: seq<Table>, low: seq<Table>, level: nat, count: nat, lastLevel: bool, k: nat)
    requires InOrder(picked, low) && LostIn(picked, low, lastLevel, k)
    ensures LevelGet(MergedLevel(low, picked, Added(h, picked, low, level, count, lastLevel)), k) == None
    ensures LevelGet(picked, k).OrElse(LevelGet(low, k)).Some?
  {
    LostIs(h, picked, low, level, count, lastLevel, k);
    MergedLevelIs(h, picked, low, level, count, lastLevel, k);
    hide Added, MergedLevel, LostIn, TurnedAway, Sources;
    SourcesHold(picked, low, k);
  }

  // No harm is done without a tie.
  lemma NoTieNoHarm(h: Hash, picked: seq<Table>, low: seq<Table>, lastLevel: bool, deep: Option<string>, k: nat)
    requires Ready(picked, low) && NoTie(picked, low)
    ensures !Harmed(picked, low, lastLevel, deep, k)
  {
    assert Mergeable(picked, low);
    NoneTurnedAway(h, picked, low, 2, 0, lastLevel);
    LostIs(h, picked, low, 2, 0, lastLevel, k);
    hide Added, LostIn, Solid;
    assert !TurnedAway(low, Added(h, picked, low, 2, 0, lastLevel), k);
    assert !StaleAt(picked, low, k);
  }
}
