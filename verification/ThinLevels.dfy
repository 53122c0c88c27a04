// Levels whose tables start with one long value each, more than half a table,
// so that a table holds one such pair and a level is a map from first keys to
// time stamps. One table has a second pair: a short value behind its first key.
module ThinLevels {
  import opened Arithmetic
  import opened Options
  import opened Counting
  import opened Pairs
  import opened Merge
  import opened Tables
  import opened Levels
  import opened Compaction
  import opened Ties

  const BIG := 40_000_000

  function Big(): (v: string)
    ensures |v| == BIG
  {
    seq(BIG, _ => 'a')
  }

  const SMALL := "b"

  const HOST: nat := INT64_MAX + 2
  const A: nat := INT64_MAX + 3

  lemma BigFacts()
    ensures Big() != "" && Big() != DEL && SMALL != "" && SMALL != DEL && Big() != SMALL
    ensures forall k :: Fits(Pair(k, Big()))
    ensures Fits(Pair(A, SMALL))
  {
    hide Big;
  }

  // ---------- Levels of such tables ----------

  // What the table with this first key holds.
  function Content(k: nat): (r: seq<Pair>)
    ensures r != [] && r[0] == Pair(k, Big())
  {
    if k == HOST then [Pair(HOST, Big()), Pair(A, SMALL)] else [Pair(k, Big())]
  }

  function Top(k: nat): (r: nat)
    ensures r >= k
  {
    if k == HOST then A else k
  }

  // The table that starts with k has this value of q.
  function Value(k: nat, q: nat): Option<string> {
    if q == k then Some(Big()) else if k == HOST && q == A then Some(SMALL) else None
  }

  ghost predicate Loaded(t: Table, k: nat) { t.keyValue == Content(k) }

  ghost predicate Single(t: Table) { Loaded(t, t.minKey) && t.maxKey == Top(t.minKey) }

  // The map gives the time stamps of the level's tables.
  ghost predicate Thin(l: seq<Table>, m: map<nat, nat>) {
    && SortedLevel(l) && |l| == |m|
    && (forall t :: t in l ==> Single(t) && t.minKey in m && m[t.minKey] == t.timeStamp)
    && (forall k :: k in m ==> HasSingle(l, k))
  }

  ghost predicate HasSingle(l: seq<Table>, k: nat) { exists t :: t in l && t.minKey == k }

  lemma LoadedHolds(t: Table, k: nat)
    requires Loaded(t, k)
    ensures forall q :: Find(t.keyValue, q) == Value(k, q)
  {
    hide Big;
    var s := t.keyValue;
    assert s[1..] == if k == HOST then [Pair(A, SMALL)] else [];
    if k == HOST { assert s[1..][1..] == []; }
  }

  lemma ThinGet(l: seq<Table>, m: map<nat, nat>, k: nat)
    requires Thin(l, m) && k !in m && (k == A ==> HOST !in m)
    ensures LevelGet(l, k) == None
  {
    hide Big;
    LevelGetSome(l, k);
    forall t | t in l ensures !Holds(t, k) { LoadedHolds(t, t.minKey); }
  }

  function MinKeys(l: seq<Table>): (r: seq<nat>)
    ensures |r| == |l| && forall i :: 0 <= i < |l| ==> r[i] == l[i].minKey
  {
    if l == [] then [] else [l[0].minKey] + MinKeys(l[1..])
  }

  lemma ThinCount(l: seq<Table>, m: map<nat, nat>)
    requires Disjoint(l) && (forall t :: t in l ==> Single(t) && t.minKey in m)
    requires forall k :: k in m ==> HasSingle(l, k)
    ensures |l| == |m|
  {
    var r := MinKeys(l);
    forall i, j | 0 <= i < j < |r| ensures r[i] != r[j] {
      assert l[i] in l && l[j] in l && Apart(l[i], l[j]);
    }
    DistinctCount(r);
    forall k ensures k in Members(r) <==> k in m.Keys {
      if k in r {
        var i :| 0 <= i < |r| && r[i] == k;
        assert l[i] in l;
      }
      if k in m {
        var t :| t in l && t.minKey == k;
        var i :| 0 <= i < |l| && l[i] == t;
        assert r[i] == k;
      }
    }
    assert Members(r) == m.Keys;
  }

  // The first table of a level.
  lemma ThinFirst(l: seq<Table>, m: map<nat, nat>, k: nat)
    requires Thin(l, m) && k in m
    requires forall q :: q in m ==> q == k || m[k] < m[q] || (m[k] == m[q] && k < q)
    ensures l != [] && Loaded(l[0], k) && Single(l[0]) && l[0].minKey == k && l[0].timeStamp == m[k]
    ensures Thin(l[1..], m - {k})
  {
    hide Big;
    assert HasSingle(l, k);
    var t :| t in l && t.minKey == k;
    var i :| 0 <= i < |l| && l[i] == t;
    assert l[0] in l;
    assert i > 0 ==> Before(l[0], l[i]);
    hide Single, HasSingle;
    ThinRest(l, m, k);
  }

  lemma ThinRest(l: seq<Table>, m: map<nat, nat>, k: nat)
    requires Thin(l, m) && l != [] && l[0].minKey == k && k in m
    ensures Thin(l[1..], m - {k})
  {
    var r, m' := l[1..], m - {k};
    TailSorted(l);
    WithoutKey(m, k);
    assert l[0] in l;
    hide *;
    ThinParts(l, m);
    forall t | t in r ensures Single(t) && t.minKey in m' && m'[t.minKey] == t.timeStamp {
      if t.minKey == k { StampsDiffer(l[0], t); }
    }
    forall q | q in m' ensures HasSingle(r, q) { OtherSingle(l, q); }
    ThinFrom(r, m');
  }

  lemma ThinParts(l: seq<Table>, m: map<nat, nat>)
    requires Thin(l, m)
    ensures |l| == |m| && forall t :: t in l ==> Single(t) && t.minKey in m && m[t.minKey] == t.timeStamp
    ensures forall q :: q in m ==> HasSingle(l, q)
  {
    hide Single, HasSingle;
  }

  lemma ThinFrom(l: seq<Table>, m: map<nat, nat>)
    requires SortedLevel(l) && |l| == |m|
    requires forall t :: t in l ==> Single(t) && t.minKey in m && m[t.minKey] == t.timeStamp
    requires forall q :: q in m ==> HasSingle(l, q)
    ensures Thin(l, m)
  {
    hide Single, HasSingle;
  }

  lemma WithoutKey(m: map<nat, nat>, k: nat)
    requires k in m
    ensures |m - {k}| == |m| - 1
  {
    assert m.Keys == (m - {k}).Keys + {k};
  }

  lemma OtherSingle(l: seq<Table>, q: nat)
    requires l != [] && HasSingle(l, q) && l[0].minKey != q
    ensures HasSingle(l[1..], q)
  {
    assert l == [l[0]] + l[1..];
  }

  lemma TailSorted(l: seq<Table>)
    requires SortedLevel(l) && l != []
    ensures SortedLevel(l[1..]) && (forall x :: x in l <==> x == l[0] || x in l[1..])
    ensures forall x :: x in l[1..] ==> Before(l[0], x)
  {
    assert l == [l[0]] + l[1..];
  }

  lemma StampsDiffer(a: Table, b: Table)
    requires Before(a, b) && a.timeStamp == b.timeStamp
    ensures a.minKey != b.minKey
  {}

  // ---------- One merge of such levels ----------

  ghost predicate AllLoaded(l: seq<Table>, keys: set<nat>) {
    && (forall t :: t in l ==> exists k :: k in keys && Loaded(t, k))
    && (forall k :: k in keys ==> exists t :: t in l && Loaded(t, k))
  }

  ghost predicate InHull(picked: seq<Table>, k: nat) { HullMin(picked) <= k <= HullMax(picked) }

  // The table that has a second pair meets none that starts with its key.
  ghost predicate Clear(keys: set<nat>) { !(HOST in keys && A in keys) }

  // What the lower level becomes: every key of the hull gets the time stamp of
  // the last picked table, and a key that had that time stamp already is lost.
  ghost predicate Becomes(lo: nat, hi: nat, T: nat, keys: set<nat>, m: map<nat, nat>, m': map<nat, nat>) {
    && Clear(keys + m.Keys)
    && forall k {:trigger k in m'} ::
         && (k in m' <==> (k in m || k in keys) && !(lo <= k <= hi && k in m && m[k] == T))
         && (k in m' && lo <= k <= hi ==> m'[k] == T)
         && (k in m' && !(lo <= k <= hi) ==> k in m && m'[k] == m[k])
  }

  ghost predicate BecomesFor(picked: seq<Table>, keys: set<nat>, m: map<nat, nat>, m': map<nat, nat>) {
    picked != [] && Becomes(HullMin(picked), HullMax(picked), picked[|picked| - 1].timeStamp, keys, m, m')
  }

  // The first keys of the tables that are merged.
  ghost function Heads(picked: seq<Table>, keys: set<nat>, m: map<nat, nat>): set<nat> {
    keys + (set k | k in m && InHull(picked, k))
  }

  lemma {:induction false} HullMinCap(picked: seq<Table>)
    ensures HullMin(picked) <= INT64_MAX
  {
    if picked != [] { HullMinCap(picked[..|picked| - 1]); }
  }

  // A table of the level is merged when its first key is in the hull.
  lemma SelectedSingle(picked: seq<Table>, t: Table)
    requires Single(t)
    ensures Overlaps(t, HullMin(picked), HullMax(picked)) <==> InHull(picked, t.minKey)
  {
    HullMinCap(picked);
  }

  lemma SourcesLoaded(picked: seq<Table>, low: seq<Table>, keys: set<nat>, m: map<nat, nat>)
    requires AllLoaded(picked, keys) && Thin(low, m)
    ensures AllLoaded(Sources(picked, low), Heads(picked, keys, m))
  {
    hide Big, HullMin, HullMax, Content;
    var src, heads := Sources(picked, low), Heads(picked, keys, m);
    var sel := Select(low, HullMin(picked), HullMax(picked));
    assert forall t :: t in src <==> t in picked || t in sel;
    forall t | t in src ensures exists k :: k in heads && Loaded(t, k) {
      if t in picked {
        var k :| k in keys && Loaded(t, k);
        assert k in heads;
      } else {
        SelectedSingle(picked, t);
        assert t.minKey in heads && Loaded(t, t.minKey);
      }
    }
    forall k | k in heads ensures exists t :: t in src && Loaded(t, k) {
      if k in keys {
        var t :| t in picked && Loaded(t, k);
        assert t in src;
      } else {
        assert HasSingle(low, k);
        var t :| t in low && t.minKey == k;
        SelectedSingle(picked, t);
        assert t in src && Loaded(t, k);
      }
    }
  }

  // The merged value of a key.
  function Answer(heads: set<nat>, k: nat): Option<string> {
    if k in heads then Some(Big()) else if HOST in heads && k == A then Some(SMALL) else None
  }

  lemma LoadedGet(src: seq<Table>, heads: set<nat>, k: nat, lastLevel: bool)
    requires AllLoaded(src, heads) && Clear(heads)
    ensures Kept(LevelGet(src, k), lastLevel) == LevelGet(src, k) == Answer(heads, k)
  {
    BigFacts();
    LevelGetSome(src, k);
    hide *;
    if LevelGet(src, k).Some? {
      var t :| t in src && Find(t.keyValue, k) == LevelGet(src, k);
      LoadedValue(src, heads, t, k);
    } else if Answer(heads, k).Some? {
      var t := AnswerHolder(src, heads, k);
    }
    KeptAnswer(heads, k, lastLevel);
  }

  lemma KeptAnswer(heads: set<nat>, k: nat, lastLevel: bool)
    ensures Kept(Answer(heads, k), lastLevel) == Answer(heads, k)
  {
    BigFacts();
    hide Big;
  }

  lemma LoadedValue(src: seq<Table>, heads: set<nat>, t: Table, k: nat)
    requires AllLoaded(src, heads) && Clear(heads) && t in src && Find(t.keyValue, k).Some?
    ensures Find(t.keyValue, k) == Answer(heads, k)
  {
    hide Big, Content, Loaded;
    var q :| q in heads && Loaded(t, q);
    LoadedHolds(t, q);
  }

  lemma AnswerHolder(src: seq<Table>, heads: set<nat>, k: nat) returns (t: Table)
    requires AllLoaded(src, heads) && Answer(heads, k).Some?
    ensures t in src && Holds(t, k)
  {
    hide Big, Content, Loaded;
    var q := if k in heads then k else HOST;
    t :| t in src && Loaded(t, q);
    LoadedHolds(t, q);
  }

  // ---------- The tables a merge writes ----------

  ghost predicate Packed(chunks: seq<seq<Pair>>, heads: set<nat>) {
    && WellPacked(chunks) && NonEmpty(chunks) && Ascending(Flatten(chunks)) && Clear(heads)
    && forall k :: Find(Flatten(chunks), k) == Answer(heads, k)
  }

  lemma ChunkPair(chunks: seq<seq<Pair>>, heads: set<nat>, i: nat, p: Pair)
    requires Packed(chunks, heads) && i < |chunks| && p in chunks[i]
    ensures Answer(heads, p.key) == Some(p.val)
  {
    FlattenMember(chunks, i, p);
    var s := Flatten(chunks);
    var j :| 0 <= j < |s| && s[j] == p;
    FindAt(s, j);
  }

  lemma ChunkWith(chunks: seq<seq<Pair>>, heads: set<nat>, k: nat) returns (i: nat, u: nat)
    requires Packed(chunks, heads) && Answer(heads, k).Some?
    ensures i < |chunks| && u < |chunks[i]| && chunks[i][u] == Pair(k, Answer(heads, k).value)
  {
    hide Answer, Flatten, WellPacked, Clear;
    FlattenFind(chunks, k);
    NewestMember(chunks, k);
    i :| 0 <= i < |chunks| && Pair(k, Newest(chunks, k).value) in chunks[i];
    u :| 0 <= u < |chunks[i]| && chunks[i][u] == Pair(k, Newest(chunks, k).value);
  }

  lemma {:induction false} BytesWith(s: seq<Pair>, i: nat)
    requires i < |s|
    ensures Bytes(s) >= INITIAL_SIZE + PairBytes(s[i])
  {
    var rest := s[..|s| - 1];
    if i < |s| - 1 { BytesWith(rest, i); } else { BytesLeast(rest); }
  }

  lemma {:induction false} BytesLeast(s: seq<Pair>)
    ensures Bytes(s) >= INITIAL_SIZE
  {
    if s != [] { BytesLeast(s[..|s| - 1]); }
  }

  // Two long values do not fit in a table.
  lemma {:induction false} TwoBig(s: seq<Pair>, i: nat, j: nat)
    requires i < j < |s| && s[i].val == Big() && s[j].val == Big()
    ensures Bytes(s) > TABLE_SIZE
  {
    hide Big;
    var rest := s[..|s| - 1];
    if j < |s| - 1 { TwoBig(rest, i, j); } else { BytesWith(rest, i); }
  }

  // A chunk that starts with a long value has no other one.
  lemma OneBig(chunks: seq<seq<Pair>>, heads: set<nat>, i: nat)
    requires Packed(chunks, heads) && i < |chunks|
    ensures Ascending(chunks[i]) && GoodTable(chunks[i])
    ensures forall u, v :: 0 <= u < v < |chunks[i]| ==> !(chunks[i][u].key in heads && chunks[i][v].key in heads)
    ensures forall u :: 0 <= u < |chunks[i]| ==> Answer(heads, chunks[i][u].key) == Some(chunks[i][u].val)
  {
    var c := chunks[i];
    ChunkAscending(chunks, i);
    hide Big, Bytes, Flatten;
    forall u | 0 <= u < |c| ensures Answer(heads, c[u].key) == Some(c[u].val) { ChunkPair(chunks, heads, i, c[u]); }
    forall u, v | 0 <= u < v < |c| ensures !(c[u].key in heads && c[v].key in heads) {
      if c[u].key in heads && c[v].key in heads { TwoBig(c, u, v); }
    }
  }

  lemma {:induction false} AscendingSpan(s: seq<Pair>)
    requires Ascending(s) && s != []
    ensures s[|s| - 1].key >= s[0].key + |s| - 1
  {
    if |s| > 1 { AscendingSpan(s[..|s| - 1]); }
  }

  // A chunk with both pairs has no other.
  lemma OneHost(heads: set<nat>, c: seq<Pair>, u: nat, v: nat)
    requires Ascending(c) && u < |c| && v < |c| && HOST in heads && Clear(heads)
    requires c[u] == Pair(HOST, Big()) && c[v] == Pair(A, SMALL)
    requires forall x, y :: 0 <= x < y < |c| ==> !(c[x].key in heads && c[y].key in heads)
    requires forall x :: 0 <= x < |c| ==> c[x].key in heads || c[x].key == A
    ensures c == Content(HOST)
  {
    hide Big;
    assert forall x :: 0 <= x < |c| ==> c[x].key == HOST || c[x].key == A;
    AscendingSpan(c);
    assert c == [c[0], c[1]];
  }

  // The long value alone would have left room for the short one.
  lemma HostHasRoom(heads: set<nat>, c: seq<Pair>, d: seq<Pair>)
    requires Ascending(c) && c != [] && c[|c| - 1] == Pair(HOST, Big()) && d != [] && d[0] == Pair(A, SMALL)
    requires HOST in heads
    requires forall x, y :: 0 <= x < y < |c| ==> !(c[x].key in heads && c[y].key in heads)
    requires forall x :: 0 <= x < |c| ==> c[x].key in heads || c[x].key == A
    ensures !FullBefore(c, d)
  {
    hide Big;
    var first := c[0];
    assert c == [] + [Pair(HOST, Big())];
    BytesAppend([], Pair(HOST, Big()));
  }

  // The short value stays behind its first key.
  lemma HostChunk(chunks: seq<seq<Pair>>, heads: set<nat>) returns (i: nat)
    requires Packed(chunks, heads) && HOST in heads
    ensures i < |chunks| && chunks[i] == Content(HOST)
  {
    hide Big, Bytes, Flatten, Content, FullBefore, Find;
    var j, u, v;
    i, u := ChunkWith(chunks, heads, HOST);
    j, v := ChunkWith(chunks, heads, A);
    OneBig(chunks, heads, i);
    OneBig(chunks, heads, j);
    var c, d := chunks[i], chunks[j];
    if i == j {
      OneHost(heads, c, u, v);
    } else if j < i {
      FlattenOrder(chunks, j, i);
      assert false;
    } else {
      FlattenOrder(chunks, i, j);
      if i + 1 < j {
        FlattenOrder(chunks, i, i + 1);
        FlattenOrder(chunks, i + 1, j);
        assert false;
      }
      HostHasRoom(heads, c, d);
      assert false;
    }
  }

  // Each chunk is what the table of its first key holds.
  lemma ChunkContent(chunks: seq<seq<Pair>>, heads: set<nat>, i: nat)
    requires Packed(chunks, heads) && i < |chunks|
    ensures chunks[i][0].key in heads && chunks[i] == Content(chunks[i][0].key)
  {
    hide Big, Bytes, Flatten, Find, WellPacked;
    var c := chunks[i];
    OneBig(chunks, heads, i);
    if HOST in heads {
      var j := HostChunk(chunks, heads);
      if i < j { FlattenOrder(chunks, i, j); }
      if j < i { FlattenOrder(chunks, j, i); }
    }
    var first, last := c[0], c[|c| - 1];
    assert c == Content(HOST) || (first.key in heads && last.key in heads);
  }

  // Each table written holds what its first key says.
  lemma AddedSingle(h: Hash, picked: seq<Table>, low: seq<Table>, level: nat, count: nat, lastLevel: bool,
                    keys: set<nat>, m: map<nat, nat>, t: Table)
    requires InOrder(picked, low) && AllLoaded(picked, keys) && Thin(low, m) && Clear(keys + m.Keys)
    requires t in Added(h, picked, low, level, count, lastLevel)
    ensures Single(t) && t.timeStamp == picked[|picked| - 1].timeStamp
    ensures t.minKey in keys || (t.minKey in m && InHull(picked, t.minKey))
  {
    var added := Added(h, picked, low, level, count, lastLevel);
    AddedTables(h, picked, low, level, count, lastLevel);
    hide *;
    InOrderSolid(picked, low);
    var i :| 0 <= i < |added| && added[i] == t;
    ChunkOf(h, picked, low, level, count, lastLevel, i);
    ChunksPacked(picked, low, lastLevel, keys, m);
    ChunkContent(Chunks(picked, low, lastLevel), Heads(picked, keys, m), i);
    WrittenSingle(t, level, picked[|picked| - 1].timeStamp);
    HeadsIs(picked, keys, m, t.minKey);
  }

  lemma HeadsIs(picked: seq<Table>, keys: set<nat>, m: map<nat, nat>, k: nat)
    ensures k in Heads(picked, keys, m) <==> k in keys || (k in m && InHull(picked, k))
  {
    hide InHull;
  }

  lemma HeadsClear(picked: seq<Table>, keys: set<nat>, m: map<nat, nat>)
    requires Clear(keys + m.Keys)
    ensures Clear(Heads(picked, keys, m))
  {
    hide InHull;
  }

  lemma ChunksPacked(picked: seq<Table>, low: seq<Table>, lastLevel: bool, keys: set<nat>, m: map<nat, nat>)
    requires InOrder(picked, low) && AllLoaded(picked, keys) && Thin(low, m) && Clear(keys + m.Keys)
    ensures picked != [] && Solid(picked) && Solid(low)
    ensures Packed(Chunks(picked, low, lastLevel), Heads(picked, keys, m))
  {
    hide *;
    InOrderSolid(picked, low);
    var src, heads := Sources(picked, low), Heads(picked, keys, m);
    HeadsClear(picked, keys, m);
    SourcesAscending(picked, low);
    SourcesLoaded(picked, low, keys, m);
    ChunksFlat(picked, low, lastLevel);
    MergeResultCorrect(Contents(src), lastLevel);
    forall k ensures Find(MergeResult(Contents(src), lastLevel), k) == Answer(heads, k) {
      LevelGetIsNewest(src, k);
      LoadedGet(src, heads, k, lastLevel);
    }
    PackedFrom(Chunks(picked, low, lastLevel), heads);
  }

  lemma ChunksFlat(picked: seq<Table>, low: seq<Table>, lastLevel: bool)
    requires Solid(picked) && Solid(low)
    ensures WellPacked(Chunks(picked, low, lastLevel))
    ensures Flatten(Chunks(picked, low, lastLevel)) == MergeResult(Contents(Sources(picked, low)), lastLevel)
  {
    ChunksCorrect(picked, low, lastLevel);
    hide Sources, Pack, MergeResult, Flatten, WellPacked, Solid;
  }

  lemma PackedFrom(chunks: seq<seq<Pair>>, heads: set<nat>)
    requires WellPacked(chunks) && NonEmpty(chunks) && Ascending(Flatten(chunks)) && Clear(heads)
    requires forall k :: Find(Flatten(chunks), k) == Answer(heads, k)
    ensures Packed(chunks, heads)
  {
    hide WellPacked, NonEmpty, Ascending, Flatten, Answer, Clear;
  }

  lemma WrittenSingle(t: Table, level: nat, T: nat)
    requires Written(t, level, T) && t.keyValue != [] && t.keyValue == Content(t.keyValue[0].key)
    ensures Single(t) && t.timeStamp == T && t.minKey == t.keyValue[0].key
  {
    hide Big, AllFit, Bytes;
  }

  lemma ChunkOf(h: Hash, picked: seq<Table>, low: seq<Table>, level: nat, count: nat, lastLevel: bool, i: nat)
    requires picked != [] && Solid(picked) && Solid(low) && i < |Added(h, picked, low, level, count, lastLevel)|
    ensures i < |Chunks(picked, low, lastLevel)|
    ensures Added(h, picked, low, level, count, lastLevel)[i].keyValue == Chunks(picked, low, lastLevel)[i]
  {
    AddedSize(h, picked, low, level, count, lastLevel);
    NewTablesAt(h, level, count, picked[|picked| - 1].timeStamp, Chunks(picked, low, lastLevel), i);
  }

  lemma BecomesAt(picked: seq<Table>, keys: set<nat>, m: map<nat, nat>, m': map<nat, nat>, k: nat)
    requires BecomesFor(picked, keys, m, m')
    ensures picked != []
    ensures var T := picked[|picked| - 1].timeStamp;
            && (k in m' <==> (k in m || k in keys) && !(InHull(picked, k) && k in m && m[k] == T))
            && (k in m' && InHull(picked, k) ==> m'[k] == T)
            && (k in m' && !InHull(picked, k) ==> k in m && m'[k] == m[k])
  {
    hide HullMin, HullMax;
  }

  lemma BecomesClear(picked: seq<Table>, keys: set<nat>, m: map<nat, nat>, m': map<nat, nat>)
    requires BecomesFor(picked, keys, m, m')
    ensures Clear(keys + m.Keys) && Clear(m'.Keys)
  {
    hide HullMin, HullMax;
    assert HOST in m' ==> HOST in keys + m.Keys;
    assert A in m' ==> A in keys + m.Keys;
  }

  // A key of the hull is turned away only by a table with its time stamp.
  lemma NotTurnedAway(h: Hash, picked: seq<Table>, low: seq<Table>, level: nat, count: nat, lastLevel: bool,
                      keys: set<nat>, m: map<nat, nat>, k: nat)
    requires InOrder(picked, low) && AllLoaded(picked, keys) && Thin(low, m)
    requires Clear(keys + m.Keys) && k in keys + m.Keys
    requires !(k in m && m[k] == picked[|picked| - 1].timeStamp)
    ensures !TurnedAway(low, Added(h, picked, low, level, count, lastLevel), k)
  {
    hide *;
    InOrderSolid(picked, low);
    var added := Added(h, picked, low, level, count, lastLevel);
    ThinParts(low, m);
    forall t | t in added && Holds(t, k) ensures !EquivalentToOne(t, low) {
      AddedSingle(h, picked, low, level, count, lastLevel, keys, m, t);
      HeadHolds(keys + m.Keys, t, k);
      forall x | x in low ensures !Equivalent(t, x) { SameOrder(t, x); }
      NotEquivalent(t, low);
    }
    NoneTurned(low, added, k);
  }

  lemma HeadHolds(heads: set<nat>, t: Table, k: nat)
    requires Single(t) && t.minKey in heads && k in heads && Clear(heads)
    ensures Holds(t, k) <==> t.minKey == k
  {
    LoadedHolds(t, t.minKey);
    hide Big;
  }

  lemma NotEquivalent(t: Table, l: seq<Table>)
    requires forall x :: x in l ==> !Equivalent(t, x)
    ensures !EquivalentToOne(t, l)
  {}

  lemma NoneTurned(low: seq<Table>, added: seq<Table>, k: nat)
    requires forall t :: t in added && Holds(t, k) ==> !EquivalentToOne(t, low)
    ensures !TurnedAway(low, added, k)
  {}

  // A new table that goes in has the key and the time stamp the map says.
  lemma EnteredShown(h: Hash, picked: seq<Table>, low: seq<Table>, level: nat, count: nat, lastLevel: bool,
                     keys: set<nat>, m: map<nat, nat>, m': map<nat, nat>, t: Table)
    requires InOrder(picked, low) && AllLoaded(picked, keys) && Thin(low, m) && BecomesFor(picked, keys, m, m')
    requires forall k :: k in keys ==> InHull(picked, k)
    requires Entered(low, Added(h, picked, low, level, count, lastLevel), t)
    ensures Single(t) && t.minKey in m' && m'[t.minKey] == t.timeStamp
  {
    var k := t.minKey;
    EnteredNot(low, Added(h, picked, low, level, count, lastLevel), t);
    BecomesClear(picked, keys, m, m');
    AddedSingle(h, picked, low, level, count, lastLevel, keys, m, t);
    BecomesAt(picked, keys, m, m', k);
    if k in m && m[k] == t.timeStamp {
      assert HasSingle(low, k);
      var x :| x in low && x.minKey == k;
      hide *;
      ThinParts(low, m);
      SameOrder(t, x);
      IsEquivalent(t, low, x);
    }
  }

  lemma EnteredNot(l: seq<Table>, added: seq<Table>, t: Table)
    requires Entered(l, added, t)
    ensures t in added && !EquivalentToOne(t, l)
  {}

  lemma IsEquivalent(t: Table, l: seq<Table>, x: Table)
    requires x in l
    ensures Equivalent(t, x) ==> EquivalentToOne(t, l)
  {}

  lemma LevelHolder(l: seq<Table>, k: nat)
    requires LevelGet(l, k).Some?
    ensures exists t :: t in l && Holds(t, k)
  {
    LevelGetSome(l, k);
    hide LevelGet;
  }

  lemma AloneShown(picked: seq<Table>, low: seq<Table>, keys: set<nat>, m: map<nat, nat>, m': map<nat, nat>, t: Table)
    requires picked != [] && Thin(low, m) && BecomesFor(picked, keys, m, m') && Unmerged(picked, low, t)
    ensures Single(t) && t.minKey in m' && m'[t.minKey] == t.timeStamp
  {
    BecomesAt(picked, keys, m, m', t.minKey);
    hide BecomesFor, Big;
  }

  // A key of the map has a table afterwards.
  lemma KeyShown(h: Hash, picked: seq<Table>, low: seq<Table>, level: nat, count: nat, lastLevel: bool,
                 keys: set<nat>, m: map<nat, nat>, m': map<nat, nat>, k: nat)
    requires InOrder(picked, low) && AllLoaded(picked, keys) && Thin(low, m) && BecomesFor(picked, keys, m, m')
    requires k in m'
    ensures exists t :: t in MergedLevel(low, picked, Added(h, picked, low, level, count, lastLevel)) && Holds(t, k)
  {
    hide *;
    InOrderSolid(picked, low);
    var low' := MergedLevel(low, picked, Added(h, picked, low, level, count, lastLevel));
    BecomesAt(picked, keys, m, m', k);
    BecomesClear(picked, keys, m, m');
    MergedLevelIs(h, picked, low, level, count, lastLevel, k);
    if InHull(picked, k) {
      NotTurnedAway(h, picked, low, level, count, lastLevel, keys, m, k);
      HullNotAlone(picked, low, m, k);
      SourcesLoaded(picked, low, keys, m);
      HeadsClear(picked, keys, m);
      HeadsIs(picked, keys, m, k);
      LoadedGet(Sources(picked, low), Heads(picked, keys, m), k, lastLevel);
      HeadAnswer(Heads(picked, keys, m), k);
    } else {
      AloneHolds(picked, low, m, k);
    }
    LevelHolder(low', k);
  }

  lemma HullNotAlone(picked: seq<Table>, low: seq<Table>, m: map<nat, nat>, k: nat)
    requires Thin(low, m) && InHull(picked, k)
    ensures forall w :: LeftAlone(low, HullMin(picked), HullMax(picked), w) ==> !Holds(w, k)
  {
    hide Big, Loaded;
    HullMinCap(picked);
    forall w | LeftAlone(low, HullMin(picked), HullMax(picked), w) ensures !Holds(w, k) { LoadedHolds(w, w.minKey); }
  }

  lemma AloneHolds(picked: seq<Table>, low: seq<Table>, m: map<nat, nat>, k: nat)
    requires Thin(low, m) && !InHull(picked, k) && k in m
    ensures exists w :: LeftAlone(low, HullMin(picked), HullMax(picked), w) && Holds(w, k)
    ensures LevelGet(low, k).Some?
  {
    assert HasSingle(low, k);
    var t :| t in low && t.minKey == k;
    LoadedHolds(t, k);
    LevelGetSome(low, k);
    hide Big;
    SelectedSingle(picked, t);
    assert LeftAlone(low, HullMin(picked), HullMax(picked), t);
  }

  lemma HeadAnswer(heads: set<nat>, k: nat)
    requires k in heads
    ensures Answer(heads, k).Some?
  {}

  // A merge of such tables into a level of them.
  lemma ThinMerge(h: Hash, picked: seq<Table>, low: seq<Table>, level: nat, count: nat, lastLevel: bool,
                  keys: set<nat>, m: map<nat, nat>, m': map<nat, nat>)
    requires InOrder(picked, low) && AllLoaded(picked, keys) && Thin(low, m) && BecomesFor(picked, keys, m, m')
    requires forall k :: k in keys ==> InHull(picked, k)
    ensures Thin(MergedLevel(low, picked, Added(h, picked, low, level, count, lastLevel)), m')
  {
    MergedLevelKeeps(h, picked, low, level, count, lastLevel);
    hide *;
    InOrderSolid(picked, low);
    var low' := MergedLevel(low, picked, Added(h, picked, low, level, count, lastLevel));
    forall t | t in low' ensures Single(t) && t.minKey in m' && m'[t.minKey] == t.timeStamp {
      if Unmerged(picked, low, t) {
        AloneShown(picked, low, keys, m, m', t);
      } else {
        EnteredShown(h, picked, low, level, count, lastLevel, keys, m, m', t);
      }
    }
    BecomesClear(picked, keys, m, m');
    forall k | k in m' ensures HasSingle(low', k) {
      KeyShown(h, picked, low, level, count, lastLevel, keys, m, m', k);
      var t :| t in low' && Holds(t, k);
      HeadHolds(m'.Keys, t, k);
      IsSingle(low', t);
    }
    ThinCount(low', m');
    ThinFrom(low', m');
  }

  lemma IsSingle(l: seq<Table>, t: Table)
    requires t in l
    ensures HasSingle(l, t.minKey)
  {}
}
