// The memtable: a linked list of several levels, in which each level is a
// sublist of the one below.
module SkipLists {
  import opened Options
  import opened Pairs

  const HEAD_KEY := 0xFFFF_FFFF_FFFF_FFFF

  // A node of a level. Its key and the node below never change.
  class Node {
    var right: Node?
    const down: Node?
    const key: nat
    var val: string
    ghost const height: nat

    constructor (right: Node?, down: Node?, key: nat, val: string, ghost height: nat)
      ensures this.right == right && this.down == down && this.key == key && this.val == val && this.height == height
    {
      this.right, this.down, this.key, this.val, this.height := right, down, key, val, height;
    }
  }

  // ---------- One level, its head node first ----------

  ghost predicate Keyed(l: seq<Node>, height: nat) {
    && l != [] && l[0].key == HEAD_KEY
    && (forall j :: 0 <= j < |l| ==> l[j].height == height)
    && (forall j :: 1 <= j < |l| ==> l[j].key < HEAD_KEY)
    && (forall i, j :: 1 <= i < j < |l| ==> l[i].key < l[j].key)
  }

  ghost function NodeAt(l: seq<Node>, j: nat): Node? {
    if j < |l| then l[j] else null
  }

  // The fields of the nodes: their links and their values.
  datatype Fields = Fields(right: map<Node, Node?>, val: map<Node, string>)

  ghost predicate Linked(l: seq<Node>, f: Fields) {
    forall j :: 0 <= j < |l| ==> l[j] in f.right && f.right[l[j]] == NodeAt(l, j + 1)
  }

  // Every node carries the value its key has in the list.
  ghost predicate Valued(l: seq<Node>, f: Fields, pairs: seq<Pair>) {
    forall j :: 1 <= j < |l| ==> l[j] in f.val && Find(pairs, l[j].key) == Some(f.val[l[j]])
  }

  // The lowest level spells out the keys of the list.
  ghost predicate Spells(l: seq<Node>, pairs: seq<Pair>) {
    |l| == |pairs| + 1 && forall j :: 0 <= j < |pairs| ==> l[j + 1].key == pairs[j].key
  }

  // ---------- All levels, from the top down ----------

  // A node stands on a node of the level below with its key.
  ghost predicate StandsOn(n: Node, l: seq<Node>) {
    exists m :: 1 <= m < |l| && n.down == l[m] && l[m].key == n.key
  }

  ghost predicate Grounded(l: seq<Node>) {
    forall j :: 0 <= j < |l| ==> l[j].down == null
  }

  ghost predicate AllKeyed(levels: seq<seq<Node>>) {
    forall t :: 0 <= t < |levels| ==> Keyed(levels[t], |levels| - 1 - t)
  }

  ghost predicate HeadAbove(a: seq<Node>, b: seq<Node>) {
    a != [] && b != [] && a[0].down == b[0]
  }

  ghost predicate HeadTower(levels: seq<seq<Node>>) {
    forall t :: 0 <= t < |levels| - 1 ==> HeadAbove(levels[t], levels[t + 1])
  }

  ghost predicate Standing(levels: seq<seq<Node>>) {
    forall t, j :: 0 <= t < |levels| - 1 && 1 <= j < |levels[t]| ==> StandsOn(levels[t][j], levels[t + 1])
  }

  // Each level is a sublist of the one below; the lowest stands on nothing.
  ghost predicate Structure(levels: seq<seq<Node>>) {
    && AllKeyed(levels) && HeadTower(levels) && Standing(levels)
    && (levels != [] ==> Grounded(levels[|levels| - 1]))
  }

  // The levels from m down carry the values of list b, those above a's.
  ghost predicate Halfway(levels: seq<seq<Node>>, f: Fields, m: nat, a: seq<Pair>, b: seq<Pair>) {
    forall t :: 0 <= t < |levels| ==> Linked(levels[t], f) && Valued(levels[t], f, if t < m then a else b)
  }

  ghost predicate Whole(levels: seq<seq<Node>>, f: Fields, pairs: seq<Pair>) {
    && Ascending(pairs) && Structure(levels) && Halfway(levels, f, 0, pairs, pairs)
    && (if levels == [] then pairs == [] else Spells(levels[|levels| - 1], pairs))
  }

  ghost predicate AllIn(levels: seq<seq<Node>>, nodes: set<Node>) {
    forall t, j :: 0 <= t < |levels| && 0 <= j < |levels[t]| ==> levels[t][j] in nodes
  }

  ghost predicate HeadOk(levels: seq<seq<Node>>, head: Node?) {
    if levels == [] then head == null else levels[0] != [] && head == levels[0][0]
  }

  lemma OneLevel(levels: seq<seq<Node>>, f: Fields, pairs: seq<Pair>, t: nat)
    requires Whole(levels, f, pairs) && t < |levels|
    ensures Keyed(levels[t], |levels| - 1 - t) && Linked(levels[t], f) && Valued(levels[t], f, pairs)
  {}

  // ---------- Walking ----------

  // The last node of a level whose key is at most `key`.
  ghost predicate LastUpTo(l: seq<Node>, j: nat, key: nat) {
    && j < |l| && (j > 0 ==> l[j].key <= key)
    && (j + 1 < |l| ==> key < l[j + 1].key)
  }

  // The place in the next level of the node below.
  lemma Descend(levels: seq<seq<Node>>, t: nat, j: nat) returns (below: nat)
    requires Structure(levels) && t < |levels| && j < |levels[t]|
    ensures t + 1 == |levels| ==> levels[t][j].down == null
    ensures t + 1 < |levels| ==> below < |levels[t + 1]| && levels[t][j].down == levels[t + 1][below]
    ensures t + 1 < |levels| ==> (j == 0 <==> below == 0) && (j > 0 ==> levels[t + 1][below].key == levels[t][j].key)
  {
    below := 0;
    if t + 1 == |levels| {
    } else if j > 0 {
      assert StandsOn(levels[t][j], levels[t + 1]);
      below :| 1 <= below < |levels[t + 1]| && levels[t][j].down == levels[t + 1][below]
        && levels[t + 1][below].key == levels[t][j].key;
    } else {
      assert HeadAbove(levels[t], levels[t + 1]);
    }
  }

  // A key between two neighbours of the lowest level is not in the list.
  lemma NotSpelled(l: seq<Node>, pairs: seq<Pair>, j: nat, key: nat)
    requires Spells(l, pairs) && Ascending(pairs) && j < |l|
    requires (j > 0 ==> l[j].key < key) && (j + 1 < |l| ==> key < l[j + 1].key)
    ensures Find(pairs, key) == None
  {
    forall i | 0 <= i < |pairs| ensures pairs[i].key != key {
      assert l[i + 1].key == pairs[i].key;
      if i + 1 <= j {
        assert l[j].key == pairs[j - 1].key;
      } else {
        assert l[j + 1].key == pairs[j].key;
      }
    }
  }

  // A search path down to some level: in each, the last node up to the key.
  ghost predicate OnPath(levels: seq<seq<Node>>, path: seq<Node>, pos: seq<nat>, key: nat) {
    && |path| == |pos| <= |levels|
    && forall t :: 0 <= t < |path| ==> LastUpTo(levels[t], pos[t], key) && path[t] == levels[t][pos[t]]
  }

  lemma PathStart(levels: seq<seq<Node>>, key: nat)
    ensures OnPath(levels, [], [], key)
  {}

  lemma PathNext(levels: seq<seq<Node>>, path: seq<Node>, pos: seq<nat>, key: nat, n: Node, j: nat)
    requires OnPath(levels, path, pos, key) && |path| < |levels|
    requires j < |levels[|path|]| && n == levels[|path|][j]
    requires (j > 0 ==> n.key <= key) && (j + 1 < |levels[|path|]| ==> key < levels[|path|][j + 1].key)
    ensures OnPath(levels, path + [n], pos + [j], key)
  {}

  lemma LevelKeyed(levels: seq<seq<Node>>, t: nat)
    requires Structure(levels) && t < |levels|
    ensures Keyed(levels[t], |levels| - 1 - t) && Standing(levels) && AllKeyed(levels)
  {}

  // ---------- Keys a level does not have ----------

  ghost predicate Lacks(l: seq<Node>, key: nat) {
    forall j :: 1 <= j < |l| ==> l[j].key != key
  }

  lemma LevelLacks(l: seq<Node>, height: nat, j: nat, key: nat)
    requires Keyed(l, height) && LastUpTo(l, j, key) && l[j].key != key
    ensures Lacks(l, key)
  {
    forall i | 1 <= i < |l| ensures l[i].key != key {
      if i > j { assert l[j + 1].key <= l[i].key; } else if i < j { assert l[i].key < l[j].key; }
    }
  }

  // What a level lacks, the levels above lack too.
  lemma {:induction false} AboveLacks(levels: seq<seq<Node>>, m: nat, t: nat, key: nat)
    requires Standing(levels) && t <= m < |levels| && Lacks(levels[m], key)
    ensures Lacks(levels[t], key)
    decreases m - t
  {
    if t < m {
      AboveLacks(levels, m, t + 1, key);
      assert forall j :: 1 <= j < |levels[t]| ==> StandsOn(levels[t][j], levels[t + 1]);
    }
  }

  // Where the search path has the key, and where it does not.
  lemma PathKey(levels: seq<seq<Node>>, path: seq<Node>, pos: seq<nat>, key: nat, t: nat)
    requires Structure(levels) && OnPath(levels, path, pos, key) && t < |path| == |levels|
    ensures |pos| == |path| && pos[t] < |levels[t]| && path[t] == levels[t][pos[t]]
    ensures path[t].key == key < HEAD_KEY ==> 1 <= pos[t]
  {
    LevelKeyed(levels, t);
  }

  lemma PathLacks(levels: seq<seq<Node>>, path: seq<Node>, pos: seq<nat>, key: nat, m: nat, t: nat)
    requires Structure(levels) && OnPath(levels, path, pos, key) && t <= m < |path| == |levels| && path[m].key != key
    ensures Lacks(levels[t], key)
  {
    LevelKeyed(levels, m);
    LevelLacks(levels[m], |levels| - 1 - m, pos[m], key);
    AboveLacks(levels, m, t, key);
  }

  // The lists a and b differ in one key only.
  ghost predicate Updates(a: seq<Pair>, b: seq<Pair>, key: nat, v: string) {
    Find(b, key) == Some(v) && forall k :: k != key ==> Find(b, k) == Find(a, k)
  }

  // A node of one level is in no other, and once in its own.
  lemma OneHome(levels: seq<seq<Node>>, m: nat, j: nat, t: nat, i: nat)
    requires AllKeyed(levels) && m < |levels| && j < |levels[m]|
    requires t < |levels| && i < |levels[t]| && (t != m || i != j)
    ensures levels[m][j] != levels[t][i]
  {
    assert Keyed(levels[m], |levels| - 1 - m) && Keyed(levels[t], |levels| - 1 - t);
  }

  // ---------- A new value for one node ----------

  lemma SetHere(l: seq<Node>, height: nat, f: Fields, j: nat, a: seq<Pair>, b: seq<Pair>, v: string)
    requires Keyed(l, height) && Valued(l, f, a) && 1 <= j < |l| && Updates(a, b, l[j].key, v)
    ensures Valued(l, f.(val := f.val[l[j] := v]), b)
  {
    hide Find;
    assert forall i :: 1 <= i < |l| && i != j ==> l[i].key != l[j].key;
    hide Keyed;
  }

  lemma SetElsewhere(l: seq<Node>, f: Fields, n: Node, a: seq<Pair>, v: string)
    requires Valued(l, f, a) && n !in l
    ensures Valued(l, f.(val := f.val[n := v]), a)
  {
    hide Find;
  }

  lemma SetLevel(levels: seq<seq<Node>>, f: Fields, m: nat, j: nat, a: seq<Pair>, b: seq<Pair>, v: string, t: nat)
    requires AllKeyed(levels) && m < |levels| && Halfway(levels, f, m + 1, a, b) && t < |levels|
    requires 1 <= j < |levels[m]| && Updates(a, b, levels[m][j].key, v)
    ensures var g := f.(val := f.val[levels[m][j] := v]);
            Linked(levels[t], g) && Valued(levels[t], g, if t < m then a else b)
  {
    var n := levels[m][j];
    assert Linked(levels[t], f) && Valued(levels[t], f, if t < m + 1 then a else b)
           && Keyed(levels[t], |levels| - 1 - t);
    SameLinks(levels[t], f, n, v);
    if t != m {
      forall i | 0 <= i < |levels[t]| ensures levels[t][i] != n { OneHome(levels, m, j, t, i); }
    }
    hide *;
    if t == m {
      SetHere(levels[t], |levels| - 1 - t, f, j, a, b, v);
    } else {
      SetElsewhere(levels[t], f, n, if t < m then a else b, v);
    }
  }

  lemma SameLinks(l: seq<Node>, f: Fields, n: Node, v: string)
    requires Linked(l, f)
    ensures Linked(l, f.(val := f.val[n := v]))
  {}

  lemma SetOne(levels: seq<seq<Node>>, f: Fields, m: nat, j: nat, a: seq<Pair>, b: seq<Pair>, v: string)
    requires AllKeyed(levels) && m < |levels| && Halfway(levels, f, m + 1, a, b)
    requires 1 <= j < |levels[m]| && Updates(a, b, levels[m][j].key, v)
    ensures Halfway(levels, f.(val := f.val[levels[m][j] := v]), m, a, b)
  {
    hide AllKeyed, Updates, Linked, Valued;
    var g := f.(val := f.val[levels[m][j] := v]);
    forall t | 0 <= t < |levels| ensures Linked(levels[t], g) && Valued(levels[t], g, if t < m then a else b) {
      SetLevel(levels, f, m, j, a, b, v, t);
    }
  }

  lemma AllSet(levels: seq<seq<Node>>, f: Fields, m: nat, a: seq<Pair>, b: seq<Pair>, key: nat, v: string)
    requires Halfway(levels, f, m, a, b) && Updates(a, b, key, v)
    requires forall t :: 0 <= t < m && t < |levels| ==> Lacks(levels[t], key)
    ensures Halfway(levels, f, 0, b, b)
  {
    hide Find;
    forall t | 0 <= t < |levels| ensures Linked(levels[t], f) && Valued(levels[t], f, b) {
      assert Linked(levels[t], f) && Valued(levels[t], f, if t < m then a else b);
      if t < m { assert Lacks(levels[t], key); }
    }
  }

  lemma ReplaceStart(levels: seq<seq<Node>>, f: Fields, a: seq<Pair>, path: seq<Node>, pos: seq<nat>, key: nat,
                     v: string)
    requires Whole(levels, f, a) && |path| == |levels| > 0 && OnPath(levels, path, pos, key)
    requires path[|path| - 1].key == key < HEAD_KEY
    ensures var b := Insert(a, key, v);
            && Structure(levels) && Updates(a, b, key, v) && Halfway(levels, f, |levels|, a, b)
            && Ascending(b) && Spells(levels[|levels| - 1], b) && |b| == |a|
  {
    InsertIsUpdate(a, key, v);
    PathKey(levels, path, pos, key, |levels| - 1);
    SpellsReplace(levels[|levels| - 1], a, pos[|levels| - 1], v);
    hide Find, Insert, OnPath, Linked, Valued;
  }

  lemma ReplaceEnd(levels: seq<seq<Node>>, f: Fields, a: seq<Pair>, b: seq<Pair>, path: seq<Node>,
                   pos: seq<nat>, m: nat, key: nat, v: string)
    requires Structure(levels) && levels != [] && m <= |path| == |levels| && OnPath(levels, path, pos, key)
    requires m > 0 ==> path[m - 1].key != key
    requires Updates(a, b, key, v) && Halfway(levels, f, m, a, b) && Ascending(b) && Spells(levels[|levels| - 1], b)
    ensures Whole(levels, f, b)
  {
    hide Updates, Spells, OnPath, Find, Halfway, Structure;
    forall t | 0 <= t < m ensures Lacks(levels[t], key) {
      PathLacks(levels, path, pos, key, m - 1, t);
    }
    AllSet(levels, f, m, a, b, key, v);
  }

  // ---------- A new node in one level ----------

  function InsertAt(l: seq<Node>, j: nat, n: Node): (r: seq<Node>)
    requires j < |l|
    ensures |r| == |l| + 1
    ensures forall i :: 0 <= i < |r| ==> r[i] == if i <= j then l[i] else if i == j + 1 then n else l[i - 1]
  {
    l[..j + 1] + [n] + l[j + 1..]
  }

  lemma InsertKeyed(l: seq<Node>, height: nat, j: nat, n: Node)
    requires Keyed(l, height) && LastUpTo(l, j, n.key) && l[j].key != n.key && n.height == height && n.key < HEAD_KEY
    ensures Keyed(InsertAt(l, j, n), height)
  {
    var r := InsertAt(l, j, n);
    assert forall i :: 1 <= i <= j ==> l[i].key <= l[j].key;
    assert forall i :: j + 1 < i < |l| ==> l[j + 1].key < l[i].key;
    assert forall i :: 0 <= i < |r| ==> r[i] == n || (i <= j && r[i] == l[i]) || (i > j + 1 && r[i] == l[i - 1]);
  }

  lemma StandsOnMore(x: Node, l: seq<Node>, j: nat, n: Node)
    requires StandsOn(x, l) && j < |l|
    ensures StandsOn(x, InsertAt(l, j, n))
  {
    var m :| 1 <= m < |l| && x.down == l[m] && l[m].key == x.key;
    assert InsertAt(l, j, n)[if m <= j then m else m + 1] == l[m];
  }

  lemma InsertStanding(a: seq<seq<Node>>, b: seq<seq<Node>>, t: nat, j: nat, n: Node)
    requires Standing(a) && t < |a| && j < |a[t]| && b == a[t := InsertAt(a[t], j, n)]
    requires t + 1 < |a| ==> StandsOn(n, a[t + 1])
    ensures Standing(b)
  {
    forall u, i | 0 <= u < |b| - 1 && 1 <= i < |b[u]| ensures StandsOn(b[u][i], b[u + 1]) {
      if u == t {
        assert i != j + 1 ==> StandsOn(a[t][if i <= j then i else i - 1], a[t + 1]);
      } else {
        assert StandsOn(a[u][i], a[u + 1]);
        if u + 1 == t { StandsOnMore(a[u][i], a[t], j, n); }
      }
    }
  }

  lemma InsertStructure(a: seq<seq<Node>>, b: seq<seq<Node>>, t: nat, j: nat, n: Node)
    requires Structure(a) && t < |a| && j < |a[t]| && b == a[t := InsertAt(a[t], j, n)]
    requires Keyed(InsertAt(a[t], j, n), |a| - 1 - t)
    requires if t + 1 < |a| then StandsOn(n, a[t + 1]) else n.down == null
    ensures Structure(b)
  {
    InsertStanding(a, b, t, j, n);
    InsertGrounded(a[|a| - 1], j, n);
    hide StandsOn, Grounded, Keyed, Standing;
    assert HeadTower(b) by {
      forall u | 0 <= u < |b| - 1 ensures HeadAbove(b[u], b[u + 1]) { assert HeadAbove(a[u], a[u + 1]); }
    }
    hide HeadAbove;
    assert AllKeyed(b);
  }

  lemma InsertGrounded(l: seq<Node>, j: nat, n: Node)
    requires Grounded(l)
    ensures j < |l| && n.down == null ==> Grounded(InsertAt(l, j, n))
  {}

  // The fields once node x, new, stands after node n.
  function AfterInsert(f: Fields, n: Node, x: Node, v: string): Fields
    requires n in f.right
  {
    Fields(f.right[x := f.right[n]][n := x], f.val[x := v])
  }

  lemma InsertLinked(l: seq<Node>, f: Fields, height: nat, j: nat, x: Node, v: string)
    requires Linked(l, f) && Keyed(l, height) && j < |l| && x !in l
    ensures l[j] in f.right && Linked(InsertAt(l, j, x), AfterInsert(f, l[j], x, v))
  {
    var r, g, n := InsertAt(l, j, x), AfterInsert(f, l[j], x, v), l[j];
    forall i | 0 <= i < |l| ensures l[i] in g.right && g.right[l[i]] == if i == j then x else NodeAt(l, i + 1) {
      assert f.right[l[i]] == NodeAt(l, i + 1);
      assert i != j ==> l[i] != n;
    }
    hide Keyed, Linked;
    assert g.right[x] == NodeAt(l, j + 1);
    forall i | 0 <= i < |r| ensures r[i] in g.right && g.right[r[i]] == NodeAt(r, i + 1) {
      if i <= j {
        assert r[i] == l[i];
      } else if i > j + 1 {
        assert r[i] == l[i - 1];
      }
    }
  }

  lemma OtherLinked(l: seq<Node>, f: Fields, n: Node, x: Node, v: string)
    requires Linked(l, f) && n in f.right && n !in l && x !in l
    ensures Linked(l, AfterInsert(f, n, x, v))
  {}

  lemma MoreValued(l: seq<Node>, f: Fields, n: Node, x: Node, v: string, b: seq<Pair>)
    requires Valued(l, f, b) && n in f.right && x !in l
    ensures Valued(l, AfterInsert(f, n, x, v), b)
  {
    hide Find;
  }

  lemma InsertValued(l: seq<Node>, f: Fields, n: Node, j: nat, x: Node, v: string, b: seq<Pair>)
    requires Valued(l, f, b) && n in f.right && j < |l| && x !in l && Find(b, x.key) == Some(v)
    ensures Valued(InsertAt(l, j, x), AfterInsert(f, n, x, v), b)
  {
    hide Find;
  }

  lemma InsertHalfway(a: seq<seq<Node>>, c: seq<seq<Node>>, f: Fields, t: nat, j: nat, x: Node, v: string, b: seq<Pair>)
    requires AllKeyed(a) && Halfway(a, f, 0, b, b) && t < |a| && j < |a[t]| && c == a[t := InsertAt(a[t], j, x)]
    requires forall u :: 0 <= u < |a| ==> x !in a[u]
    requires Find(b, x.key) == Some(v)
    ensures a[t][j] in f.right && Halfway(c, AfterInsert(f, a[t][j], x, v), 0, b, b)
  {
    hide Find;
    assert Linked(a[t], f) && Valued(a[t], f, b) && Keyed(a[t], |a| - 1 - t);
    var n := a[t][j];
    forall u | 0 <= u < |c| ensures Linked(c[u], AfterInsert(f, n, x, v)) && Valued(c[u], AfterInsert(f, n, x, v), b) {
      assert Linked(a[u], f) && Valued(a[u], f, b);
      if u == t {
        InsertLinked(a[t], f, |a| - 1 - t, j, x, v);
        InsertValued(a[t], f, n, j, x, v, b);
      } else {
        forall i | 0 <= i < |a[u]| ensures a[u][i] != n { OneHome(a, t, j, u, i); }
        OtherLinked(a[u], f, n, x, v);
        MoreValued(a[u], f, n, x, v, b);
      }
    }
  }

  // ---------- A new top level ----------

  lemma TopStructure(a: seq<seq<Node>>, h: Node, x: Node)
    requires Structure(a) && h.key == HEAD_KEY && x.key < HEAD_KEY && h.height == x.height == |a|
    requires if a == [] then h.down == null && x.down == null else a[0] != [] && h.down == a[0][0] && StandsOn(x, a[0])
    ensures Structure([[h, x]] + a)
  {
    var b := [[h, x]] + a;
    assert b[0] == [h, x] && forall t :: 1 <= t < |b| ==> b[t] == a[t - 1];
    forall t | 0 <= t < |b| ensures Keyed(b[t], |b| - 1 - t) {
      if t > 0 { assert Keyed(a[t - 1], |a| - 1 - (t - 1)); }
    }
    forall t | 0 <= t < |b| - 1 ensures HeadAbove(b[t], b[t + 1]) {
      if t > 0 { assert HeadAbove(a[t - 1], a[t - 1 + 1]); }
    }
    forall t, j | 0 <= t < |b| - 1 && 1 <= j < |b[t]| ensures StandsOn(b[t][j], b[t + 1]) {
      if t > 0 { assert StandsOn(a[t - 1][j], a[t - 1 + 1]); }
    }
  }

  // ---------- Insertion into the list ----------

  lemma {:induction false} InsertNew(s: seq<Pair>, j: nat, k: nat, v: string)
    requires j <= |s| && (forall i :: 0 <= i < j ==> s[i].key < k) && (j < |s| ==> k < s[j].key)
    ensures Insert(s, k, v) == s[..j] + [Pair(k, v)] + s[j..]
  {
    if j > 0 {
      InsertNew(s[1..], j - 1, k, v);
      assert s[..j] == [s[0]] + s[1..][..j - 1];
    }
  }

  lemma {:induction false} InsertOver(s: seq<Pair>, j: nat, k: nat, v: string)
    requires j < |s| && (forall i :: 0 <= i < j ==> s[i].key < k) && s[j].key == k
    ensures Insert(s, k, v) == s[j := Pair(k, v)]
  {
    if j > 0 {
      InsertOver(s[1..], j - 1, k, v);
      assert s[j := Pair(k, v)] == [s[0]] + s[1..][j - 1 := Pair(k, v)];
    }
  }

  lemma SpellsInsert(l: seq<Node>, pairs: seq<Pair>, j: nat, n: Node, v: string)
    requires Spells(l, pairs) && Ascending(pairs) && j < |l| && LastUpTo(l, j, n.key) && (j > 0 ==> l[j].key != n.key)
    ensures Spells(InsertAt(l, j, n), Insert(pairs, n.key, v)) && |Insert(pairs, n.key, v)| == |pairs| + 1
  {
    forall i | 0 <= i < |pairs| ensures i < j ==> pairs[i].key < n.key {
      assert l[i + 1].key == pairs[i].key;
      if i < j { assert l[j].key == pairs[j - 1].key; }
    }
    if j < |pairs| { assert l[j + 1].key == pairs[j].key; }
    InsertNew(pairs, j, n.key, v);
  }

  lemma SpellsReplace(l: seq<Node>, pairs: seq<Pair>, j: nat, v: string)
    requires Spells(l, pairs) && Ascending(pairs) && 1 <= j < |l|
    ensures Spells(l, Insert(pairs, l[j].key, v)) && |Insert(pairs, l[j].key, v)| == |pairs|
  {
    assert l[j - 1 + 1].key == pairs[j - 1].key;
    InsertOver(pairs, j - 1, l[j].key, v);
  }

  // The key is in no level; `pos` says where it would go.
  ghost predicate Missing(levels: seq<seq<Node>>, a: seq<Pair>, pos: seq<nat>, key: nat) {
    && key < HEAD_KEY && |pos| == |levels| && Ascending(a)
    && (forall t :: 0 <= t < |levels| ==> LastUpTo(levels[t], pos[t], key) && Lacks(levels[t], key))
    && (if levels == [] then a == [] else Spells(levels[|levels| - 1], a))
  }

  lemma MissingAt(levels: seq<seq<Node>>, a: seq<Pair>, pos: seq<nat>, key: nat, t: nat)
    requires Missing(levels, a, pos, key) && t < |levels|
    ensures key < HEAD_KEY && t < |pos| && LastUpTo(levels[t], pos[t], key) && Lacks(levels[t], key)
  {}

  lemma PathMissing(levels: seq<seq<Node>>, f: Fields, a: seq<Pair>, path: seq<Node>, pos: seq<nat>, key: nat)
    requires Whole(levels, f, a) && |path| == |levels| && OnPath(levels, path, pos, key) && key < HEAD_KEY
    requires path != [] ==> path[|path| - 1].key != key
    ensures Missing(levels, a, pos, key)
  {
    hide Halfway;
    forall t | 0 <= t < |levels| ensures LastUpTo(levels[t], pos[t], key) && Lacks(levels[t], key) {
      PathLacks(levels, path, pos, key, |levels| - 1, t);
    }
    hide Structure, LastUpTo, Lacks, Spells;
  }

  // The list with the key has one pair more, and no old node has to change.
  lemma MissingInsert(levels: seq<seq<Node>>, f: Fields, a: seq<Pair>, pos: seq<nat>, key: nat, v: string)
    requires Missing(levels, a, pos, key) && Halfway(levels, f, 0, a, a)
    ensures var b := Insert(a, key, v);
            Ascending(b) && |b| == |a| + 1 && Find(b, key) == Some(v) && Halfway(levels, f, 0, b, b)
  {
    var b := Insert(a, key, v);
    InsertIsUpdate(a, key, v);
    InsertLength(levels, a, pos, key, v);
    assert Updates(a, b, key, v);
    hide Find, Insert, Linked, Valued, LastUpTo, Spells, Updates;
    assert Halfway(levels, f, |levels|, a, b);
    AllSet(levels, f, |levels|, a, b, key, v);
  }

  lemma InsertLength(levels: seq<seq<Node>>, a: seq<Pair>, pos: seq<nat>, key: nat, v: string)
    requires Missing(levels, a, pos, key)
    ensures |Insert(a, key, v)| == |a| + 1
  {
    if levels != [] {
      MissingAt(levels, a, pos, key, |levels| - 1);
      BelowKey(levels[|levels| - 1], a, pos[|levels| - 1], key);
      InsertNew(a, pos[|levels| - 1], key, v);
    }
  }

  lemma BelowKey(l: seq<Node>, a: seq<Pair>, j: nat, key: nat)
    requires Spells(l, a) && Ascending(a) && LastUpTo(l, j, key) && Lacks(l, key)
    ensures j <= |a| && (forall i :: 0 <= i < j ==> a[i].key < key) && (j < |a| ==> key < a[j].key)
  {
    forall i | 0 <= i < |a| ensures i < j ==> a[i].key < key {
      assert l[i + 1].key == a[i].key;
      if i < j { assert l[j].key == a[j - 1].key; }
    }
    if j < |a| { assert l[j + 1].key == a[j].key; }
  }

  // The levels above m are as before, and so is the head of each.
  ghost predicate Untouched(was: seq<seq<Node>>, levels: seq<seq<Node>>, m: nat) {
    && |levels| == |was| && m <= |was|
    && (forall t :: 0 <= t < m ==> levels[t] == was[t])
    && (was != [] ==> was[0] != [] && levels[0] != [] && levels[0][0] == was[0][0])
  }

  // The new node of level m.
  ghost predicate NewestAt(levels: seq<seq<Node>>, m: nat, down: Node?, key: nat) {
    if m < |levels| then exists i :: 1 <= i < |levels[m]| && levels[m][i] == down && levels[m][i].key == key
    else down == null
  }

  // The key stands in the levels from m down; `down` is its node in level m.
  ghost predicate Building(was: seq<seq<Node>>, levels: seq<seq<Node>>, f: Fields, b: seq<Pair>, m: nat,
                           down: Node?, key: nat) {
    && Structure(levels) && Halfway(levels, f, 0, b, b) && Untouched(was, levels, m) && NewestAt(levels, m, down, key)
    && (m < |was| ==> Spells(levels[|was| - 1], b))
  }

  lemma UntouchedNext(was: seq<seq<Node>>, levels: seq<seq<Node>>, m: nat, j: nat, x: Node)
    requires Untouched(was, levels, m) && m > 0 && j < |levels[m - 1]|
    ensures Untouched(was, levels[m - 1 := InsertAt(levels[m - 1], j, x)], m - 1)
  {}

  lemma NewestNext(levels: seq<seq<Node>>, m: nat, j: nat, x: Node, down: Node?)
    requires m < |levels| && j < |levels[m]| && NewestAt(levels, m + 1, down, x.key) && x.down == down
    ensures NewestAt(levels[m := InsertAt(levels[m], j, x)], m, x, x.key)
    ensures if m + 1 < |levels| then StandsOn(x, levels[m + 1]) else x.down == null
  {
    var l := levels[m := InsertAt(levels[m], j, x)][m];
    assert l[j + 1] == x;
  }

  // The place for the new node in level m.
  lemma BuildPlace(was: seq<seq<Node>>, levels: seq<seq<Node>>, f: Fields, a: seq<Pair>, b: seq<Pair>,
                   pos: seq<nat>, m: nat, down: Node?, key: nat, x: Node)
    requires Missing(was, a, pos, key) && Building(was, levels, f, b, m + 1, down, key) && m < |was|
    requires x.key == key && x.height == |was| - 1 - m
    ensures |levels| == |was| && levels[m] == was[m] && pos[m] < |levels[m]|
    ensures Structure(levels) && AllKeyed(levels) && Halfway(levels, f, 0, b, b) && Untouched(was, levels, m + 1)
    ensures NewestAt(levels, m + 1, down, key) && (m + 1 < |was| ==> Spells(levels[|was| - 1], b))
    ensures Keyed(InsertAt(levels[m], pos[m], x), |levels| - 1 - m)
    ensures m + 1 == |was| ==> Spells(InsertAt(levels[m], pos[m], x), Insert(a, key, ""))
  {
    MissingAt(was, a, pos, key, m);
    hide Halfway, StandsOn, Grounded, Linked, Valued;
    LevelKeyed(levels, m);
    hide Structure;
    assert levels[m][pos[m]].key != key;
    InsertKeyed(levels[m], |levels| - 1 - m, pos[m], x);
    if m == |levels| - 1 { SpellsInsert(levels[m], a, pos[m], x, ""); }
  }

  lemma SpellsAnyValue(l: seq<Node>, a: seq<Pair>, key: nat, v: string, w: string)
    requires Spells(l, Insert(a, key, v))
    ensures Spells(l, Insert(a, key, w))
  {
    InsertKeys(a, key, v, w);
  }

  lemma {:induction false} InsertKeys(a: seq<Pair>, key: nat, v: string, w: string)
    ensures |Insert(a, key, v)| == |Insert(a, key, w)|
    ensures forall i :: 0 <= i < |Insert(a, key, v)| ==> Insert(a, key, v)[i].key == Insert(a, key, w)[i].key
  {
    if a != [] && a[0].key < key { InsertKeys(a[1..], key, v, w); }
  }

  lemma BuildNext(was: seq<seq<Node>>, levels: seq<seq<Node>>, f: Fields, a: seq<Pair>, b: seq<Pair>,
                  pos: seq<nat>, m: nat, down: Node?, key: nat, x: Node, v: string)
    requires Missing(was, a, pos, key) && Building(was, levels, f, b, m + 1, down, key) && m < |was| == |pos|
    requires b == Insert(a, key, v) && Find(b, key) == Some(v)
    requires x.key == key && x.down == down && x.height == |was| - 1 - m
    requires forall u :: 0 <= u < |levels| ==> x !in levels[u]
    ensures m < |levels| && levels[m] == was[m] && pos[m] < |levels[m]| && levels[m][pos[m]] in f.right
    ensures Building(was, levels[m := InsertAt(levels[m], pos[m], x)], AfterInsert(f, levels[m][pos[m]], x, v), b,
                     m, x, key)
  {
    hide *;
    BuildPlace(was, levels, f, a, b, pos, m, down, key, x);
    var j := pos[m];
    var next := levels[m := InsertAt(levels[m], j, x)];
    NewestNext(levels, m, j, x, down);
    InsertStructure(levels, next, m, j, x);
    InsertHalfway(levels, next, f, m, j, x, v, b);
    UntouchedNext(was, levels, m + 1, j, x);
    if m + 1 == |was| { SpellsAnyValue(next[m], a, key, "", v); }
    assert next[|was| - 1] == if m + 1 == |was| then next[m] else levels[|was| - 1];
    BuildWhole(was, next, AfterInsert(f, levels[m][j], x, v), b, m, x, key);
  }

  lemma BuildWhole(was: seq<seq<Node>>, levels: seq<seq<Node>>, f: Fields, b: seq<Pair>, m: nat, down: Node?, key: nat)
    requires Structure(levels) && Halfway(levels, f, 0, b, b)
    requires Untouched(was, levels, m) && NewestAt(levels, m, down, key)
    requires m < |was| ==> |levels| == |was| && Spells(levels[|was| - 1], b)
    ensures Building(was, levels, f, b, m, down, key)
  {}

  // The new top level: a head node and the new node.
  lemma BuildTop(was: seq<seq<Node>>, levels: seq<seq<Node>>, f: Fields, a: seq<Pair>, b: seq<Pair>, pos: seq<nat>,
                 down: Node?, key: nat, h: Node, x: Node, v: string)
    requires Missing(was, a, pos, key) && Building(was, levels, f, b, 0, down, key)
    requires b == Insert(a, key, v) && Find(b, key) == Some(v)
    requires h.key == HEAD_KEY && h.height == x.height == |was| && x.key == key && x.down == down
    requires if was == [] then h.down == null else levels != [] && levels[0] != [] && h.down == levels[0][0]
    requires x != h && forall u :: 0 <= u < |levels| ==> x !in levels[u] && h !in levels[u]
    ensures Whole([[h, x]] + levels, WithTop(f, h, x, v), b)
  {
    hide *;
    var next := [[h, x]] + levels;
    TopParts(was, levels, f, a, b, pos, down, key, x);
    TopStructure(levels, h, x);
    TopHalfway(levels, f, h, x, v, b);
    InsertIsUpdate(a, key, v);
    TopSpells(was, levels, a, b, h, x, v);
    TopWhole(next, WithTop(f, h, x, v), b);
  }

  lemma TopParts(was: seq<seq<Node>>, levels: seq<seq<Node>>, f: Fields, a: seq<Pair>, b: seq<Pair>,
                 pos: seq<nat>, down: Node?, key: nat, x: Node)
    requires Missing(was, a, pos, key) && Building(was, levels, f, b, 0, down, key) && x.key == key && x.down == down
    ensures Structure(levels) && Halfway(levels, f, 0, b, b) && |levels| == |was| && key < HEAD_KEY && Ascending(a)
    ensures if levels == [] then x.down == null && a == []
            else StandsOn(x, levels[0]) && Spells(levels[|levels| - 1], b)
  {
    hide Structure, Halfway, Spells;
  }

  lemma TopHalfway(levels: seq<seq<Node>>, f: Fields, h: Node, x: Node, v: string, b: seq<Pair>)
    requires Halfway(levels, f, 0, b, b) && x != h && Find(b, x.key) == Some(v)
    requires forall u :: 0 <= u < |levels| ==> x !in levels[u] && h !in levels[u]
    ensures Halfway([[h, x]] + levels, WithTop(f, h, x, v), 0, b, b)
  {
    hide Find;
    var next, g := [[h, x]] + levels, WithTop(f, h, x, v);
    forall t | 0 <= t < |next| ensures Linked(next[t], g) && Valued(next[t], g, b) {
      if t == 0 {
        assert next[0] == [h, x];
      } else {
        assert next[t] == levels[t - 1] && Linked(levels[t - 1], f) && Valued(levels[t - 1], f, b);
      }
    }
  }

  lemma TopSpells(was: seq<seq<Node>>, levels: seq<seq<Node>>, a: seq<Pair>, b: seq<Pair>, h: Node, x: Node, v: string)
    requires b == Insert(a, x.key, v) && if levels == [] then a == [] else Spells(levels[|levels| - 1], b)
    ensures var next := [[h, x]] + levels; Spells(next[|next| - 1], b)
  {
    var next := [[h, x]] + levels;
    assert next[|next| - 1] == if levels == [] then [h, x] else levels[|levels| - 1];
    if levels == [] { OnePair(a, x.key, v); }
  }

  lemma TopWhole(levels: seq<seq<Node>>, f: Fields, b: seq<Pair>)
    requires levels != [] && Ascending(b) && Structure(levels)
    requires Halfway(levels, f, 0, b, b) && Spells(levels[|levels| - 1], b)
    ensures Whole(levels, f, b)
  {}

  lemma OnePair(a: seq<Pair>, key: nat, v: string)
    requires a == []
    ensures Insert(a, key, v) == [Pair(key, v)]
  {}

  function WithTop(f: Fields, h: Node, x: Node, v: string): Fields {
    Fields(f.right[x := null][h := x], f.val[x := v][h := ""])
  }

  lemma BuildDone(was: seq<seq<Node>>, levels: seq<seq<Node>>, f: Fields, b: seq<Pair>, m: nat, down: Node?, key: nat)
    requires Building(was, levels, f, b, m, down, key) && m < |was| && Ascending(b)
    ensures Whole(levels, f, b)
  {}

  lemma BuildStart(levels: seq<seq<Node>>, f: Fields, a: seq<Pair>, pos: seq<nat>, key: nat, v: string)
    requires Whole(levels, f, a) && Missing(levels, a, pos, key)
    ensures var b := Insert(a, key, v);
            && Ascending(b) && |b| == |a| + 1 && Find(b, key) == Some(v)
            && Building(levels, levels, f, b, |levels|, null, key)
  {
    MissingInsert(levels, f, a, pos, key, v);
    hide Find, Insert, Halfway, Missing, Spells;
    if levels != [] { LevelKeyed(levels, 0); }
  }

  lemma BuildSize(was: seq<seq<Node>>, levels: seq<seq<Node>>, f: Fields, b: seq<Pair>, m: nat, down: Node?, key: nat)
    requires Building(was, levels, f, b, m, down, key)
    ensures |levels| == |was|
  {}

  lemma PathSize(levels: seq<seq<Node>>, path: seq<Node>, pos: seq<nat>, key: nat)
    requires OnPath(levels, path, pos, key)
    ensures |path| == |pos|
  {}

  // The node a new one goes after is one of the list's nodes.
  lemma BuildAt(was: seq<seq<Node>>, levels: seq<seq<Node>>, f: Fields, b: seq<Pair>, nodes: set<Node>, m: nat,
                down: Node?, key: nat, j: nat)
    requires Building(was, levels, f, b, m + 1, down, key) && AllIn(levels, nodes) && m < |was| && j < |was[m]|
    ensures |levels| == |was| && levels[m] == was[m] && was[m][j] in nodes && was[m][j] in f.right
  {
    assert Linked(levels[m], f);
    assert levels[m][j] in nodes;
  }

  lemma HeadStays(levels: seq<seq<Node>>, t: nat, j: nat, x: Node, head: Node?)
    requires HeadOk(levels, head) && t < |levels| && j < |levels[t]|
    ensures HeadOk(levels[t := InsertAt(levels[t], j, x)], head)
  {}

  lemma HeadFacts(levels: seq<seq<Node>>, head: Node?)
    requires HeadOk(levels, head)
    ensures if levels == [] then head == null else levels[0] != [] && head == levels[0][0]
  {}

  lemma TopIn(levels: seq<seq<Node>>, nodes: set<Node>, h: Node, x: Node)
    requires AllIn(levels, nodes)
    ensures AllIn([[h, x]] + levels, nodes + {h, x}) && HeadOk([[h, x]] + levels, h)
  {
    var next := [[h, x]] + levels;
    forall t, j | 0 <= t < |next| && 0 <= j < |next[t]| ensures next[t][j] in nodes + {h, x} {
      if t > 0 { assert next[t] == levels[t - 1]; }
    }
  }

  lemma NotIn(levels: seq<seq<Node>>, nodes: set<Node>, x: Node)
    requires AllIn(levels, nodes) && x !in nodes
    ensures forall u :: 0 <= u < |levels| ==> x !in levels[u]
  {}

  lemma MoreIn(levels: seq<seq<Node>>, nodes: set<Node>, t: nat, j: nat, x: Node)
    requires AllIn(levels, nodes) && t < |levels| && j < |levels[t]|
    ensures AllIn(levels[t := InsertAt(levels[t], j, x)], nodes + {x})
  {}

  // ---------- Every node once ----------

  function Flat(levels: seq<seq<Node>>): seq<Node> {
    if levels == [] then [] else Flat(levels[..|levels| - 1]) + levels[|levels| - 1]
  }

  lemma FlatNext(levels: seq<seq<Node>>, t: nat)
    requires t < |levels|
    ensures Flat(levels[..t + 1]) == Flat(levels[..t]) + levels[t]
  {
    assert levels[..t + 1][..t] == levels[..t];
  }

  ghost predicate NoTwice(s: seq<Node>) {
    forall i, j :: 0 <= i < j < |s| ==> s[i] != s[j]
  }

  ghost predicate InLevels(levels: seq<seq<Node>>, t: nat, n: Node) {
    exists u :: 0 <= u < t && u < |levels| && n in levels[u]
  }

  // The sequence has every node of every level, once, and no other.
  ghost predicate EachOnce(levels: seq<seq<Node>>, s: seq<Node>) {
    && NoTwice(s)
    && (forall u, j :: 0 <= u < |levels| && 0 <= j < |levels[u]| ==> levels[u][j] in s)
    && (forall i :: 0 <= i < |s| ==> InLevels(levels, |levels|, s[i]))
  }

  // All nodes of all levels, each once.
  lemma {:induction false} FlatOnce(levels: seq<seq<Node>>, t: nat)
    requires AllKeyed(levels) && t <= |levels|
    ensures NoTwice(Flat(levels[..t]))
    ensures forall n :: n in Flat(levels[..t]) <==> InLevels(levels, t, n)
  {
    if t > 0 {
      FlatOnce(levels, t - 1);
      FlatNext(levels, t - 1);
      var a, l := Flat(levels[..t - 1]), levels[t - 1];
      LevelOnce(levels, t - 1);
      forall i, j | 0 <= i < |a| && 0 <= j < |l| ensures a[i] != l[j] {
        assert a[i] in a;
        assert InLevels(levels, t - 1, a[i]);
        var u :| 0 <= u < t - 1 && a[i] in levels[u];
        var m :| 0 <= m < |levels[u]| && levels[u][m] == a[i];
        OneHome(levels, t - 1, j, u, m);
      }
      forall n ensures InLevels(levels, t, n) <==> InLevels(levels, t - 1, n) || n in l {
        assert n in l ==> n in levels[t - 1];
      }
    }
  }

  lemma LevelsKeyed(levels: seq<seq<Node>>)
    requires Structure(levels)
    ensures AllKeyed(levels)
  {}

  lemma FlatEachOnce(levels: seq<seq<Node>>)
    requires AllKeyed(levels)
    ensures EachOnce(levels, Flat(levels)) && (levels == [] ==> Flat(levels) == [])
  {
    assert levels[..|levels|] == levels;
    FlatOnce(levels, |levels|);
    AllThere(levels, Flat(levels));
    hide AllKeyed, EachOnce;
  }

  lemma AllThere(levels: seq<seq<Node>>, s: seq<Node>)
    requires NoTwice(s) && forall n :: n in s <==> InLevels(levels, |levels|, n)
    ensures EachOnce(levels, s)
  {
    hide NoTwice;
    forall u, j | 0 <= u < |levels| && 0 <= j < |levels[u]| ensures levels[u][j] in s {
      assert levels[u][j] in levels[u];
      assert InLevels(levels, |levels|, levels[u][j]);
    }
    forall i | 0 <= i < |s| ensures InLevels(levels, |levels|, s[i]) {
      assert s[i] in s;
    }
  }

  lemma LevelOnce(levels: seq<seq<Node>>, t: nat)
    requires AllKeyed(levels) && t < |levels|
    ensures NoTwice(levels[t])
  {
    assert Keyed(levels[t], |levels| - 1 - t);
  }

  // ---------- The list ----------

  class SkipList {
    var size: nat
    var head: Node?
    var timeStamp: nat
    var minKey: nat
    var maxKey: nat
    var memory: nat
    ghost var levels: seq<seq<Node>>   // from the top down
    ghost var pairs: seq<Pair>
    ghost var fields: Fields
    ghost var repr: set<Node>

    ghost predicate Mirrored()
      reads this`fields, this`repr, repr
    {
      forall n :: n in repr
        ==> n in fields.right && n in fields.val && n.right == fields.right[n] && n.val == fields.val[n]
    }

    ghost predicate Valid()
      reads this, repr
    {
      && Mirrored() && AllIn(levels, repr) && Whole(levels, fields, pairs) && size == |pairs|
      && HeadOk(levels, head)
    }

    constructor ()
      ensures Valid() && pairs == [] && repr == {} && timeStamp == 0
      ensures minKey == 0x7FFF_FFFF_FFFF_FFFF && maxKey == 0 && memory == 28 + 1024 * 1024
    {
      size, head, timeStamp, minKey, maxKey, memory := 0, null, 0, 0x7FFF_FFFF_FFFF_FFFF, 0, 28 + 1024 * 1024;
      levels, pairs, repr, fields := [], [], {}, Fields(map[], map[]);
    }

    // The last node of level t, from its node i on, with a key below `limit`.
    method LastBelow(start: Node, limit: nat, ghost t: nat, ghost i: nat) returns (p: Node, ghost j: nat)
      requires Valid() && t < |levels| && i < |levels[t]| && start == levels[t][i] && (i > 0 ==> start.key < limit)
      ensures i <= j < |levels[t]| && p == levels[t][j] && (j > 0 ==> p.key < limit)
      ensures p.right == (if j + 1 < |levels[t]| then levels[t][j + 1] else null) && p in repr
      ensures j + 1 < |levels[t]| ==> limit <= levels[t][j + 1].key
    {
      hide *;
      ghost var l := levels[t];
      p, j := start, i;
      Neighbour(t, j);
      while p.right != null && p.right.key < limit
        invariant i <= j < |l| && p == l[j] && (j > 0 ==> p.key < limit)
        invariant p in repr && p.right == (if j + 1 < |l| then l[j + 1] else null)
        decreases |l| - j
      {
        p := p.right;
        j := j + 1;
        Neighbour(t, j);
      }
    }

    lemma Neighbour(t: nat, i: nat)
      requires Valid() && t < |levels| && i < |levels[t]|
      ensures levels[t][i] in repr && levels[t][i].right == if i + 1 < |levels[t]| then levels[t][i + 1] else null
    {
      OneLevel(levels, fields, pairs, t);
      hide Whole, Valued, Keyed;
    }

    // Looks for a key in one level; if it is not there, says where to go on.
    method LookIn(p: Node, key: nat, ghost t: nat, ghost j: nat) returns (found: Node?, next: Node?, ghost below: nat)
      requires Valid() && t < |levels| && j < |levels[t]| && p == levels[t][j] && (j > 0 ==> p.key < key)
      ensures found != null ==> Find(pairs, key) == Some(found.val)
      ensures found == null && t + 1 == |levels| ==> next == null && Find(pairs, key) == None
      ensures found == null && t + 1 < |levels| ==>
                below < |levels[t + 1]| && next == levels[t + 1][below]
                && (below > 0 ==> levels[t + 1][below].key < key)
    {
      hide *;
      Parts();
      ghost var i;
      var last;
      last, i := LastBelow(p, key, t, j);
      below := 0;
      if last.right != null && last.right.key == key {
        ValueAt(t, i + 1);
        return last.right, null, 0;
      }
      if t == |levels| - 1 { Absent(i, key); }
      below := Descend(levels, t, i);
      return null, last.down, below;
    }

    // The value of a key, or the empty string.
    method Get(key: nat) returns (val: string)
      requires Valid()
      ensures val == match Find(pairs, key) case Some(v) => v case None => ""
    {
      hide *;
      FirstLevel();
      if size == 0 {
        return "";
      }
      var p: Node? := head;
      ghost var t: nat, j: nat := 0, 0;
      while p != null
        invariant p != null ==> t < |levels| && j < |levels[t]| && p == levels[t][j] && (j > 0 ==> p.key < key)
        invariant p == null ==> Find(pairs, key) == None
        decreases |levels| - t, p != null
      {
        var found;
        found, p, j := LookIn(p, key, t, j);
        if found != null {
          return found.val;
        }
        t := t + 1;
      }
      val := "";
    }

    lemma FirstLevel()
      requires Valid()
      ensures size == 0 ==> Find(pairs, 0) == None && pairs == [] && forall k :: Find(pairs, k) == None
      ensures size != 0 ==> head != null
      ensures head != null ==> levels != [] && levels[0] != [] && head == levels[0][0]
      ensures head == null ==> levels == []
    {}

    lemma ValueAt(t: nat, i: nat)
      requires Valid() && t < |levels| && 1 <= i < |levels[t]|
      ensures Find(pairs, levels[t][i].key) == Some(levels[t][i].val)
    {
      OneLevel(levels, fields, pairs, t);
      hide Whole, Linked, Keyed, Find;
    }

    lemma Absent(j: nat, key: nat)
      requires Valid() && levels != [] && j < |levels[|levels| - 1]|
      requires j > 0 ==> levels[|levels| - 1][j].key < key
      requires j + 1 < |levels[|levels| - 1]| ==> key < levels[|levels| - 1][j + 1].key
      ensures Find(pairs, key) == None
    {
      hide Structure, Halfway, Mirrored, AllIn;
      NotSpelled(levels[|levels| - 1], pairs, j, key);
    }

    // ---------- put ----------

    // The last node up to the key in every level, from the top down.
    method FindPath(key: nat) returns (path: seq<Node>, ghost pos: seq<nat>)
      requires Valid()
      ensures |path| == |levels| && OnPath(levels, path, pos, key)
    {
      Parts();
      FirstLevel();
      hide *;
      path, pos := [], [];
      var p: Node? := head;
      ghost var j: nat := 0;
      PathStart(levels, key);
      while p != null
        invariant |path| <= |levels| && OnPath(levels, path, pos, key)
        invariant p == null <==> |path| == |levels|
        invariant p != null ==> j < |levels[|path|]| && p == levels[|path|][j] && (j > 0 ==> p.key <= key)
        decreases |levels| - |path|
      {
        ghost var at;
        var last;
        last, at := LastBelow(p, key + 1, |path|, j);
        j := Descend(levels, |path|, at);
        PathNext(levels, path, pos, key, last, at);
        path, pos := path + [last], pos + [at];
        p := last.down;
      }
    }

    // Gives a node a new value.
    method SetValue(n: Node, value: string, ghost m: nat, ghost j: nat, ghost a: seq<Pair>, ghost b: seq<Pair>)
      requires Mirrored() && AllIn(levels, repr) && AllKeyed(levels)
      requires m < |levels| && Halfway(levels, fields, m + 1, a, b)
      requires 1 <= j < |levels[m]| && n == levels[m][j] && Updates(a, b, n.key, value)
      modifies this`fields, repr
      ensures Mirrored() && Halfway(levels, fields, m, a, b) && levels == old(levels) && repr == old(repr)
    {
      SetOne(levels, fields, m, j, a, b, value);
      n.val := value;
      fields := fields.(val := fields.val[n := value]);
    }

    // Takes the nodes with the key off the path and gives them the new value.
    method SetPath(path: seq<Node>, ghost pos: seq<nat>, key: nat, value: string, ghost a: seq<Pair>,
                   ghost b: seq<Pair>)
      returns (left: nat)
      requires Mirrored() && AllIn(levels, repr) && Structure(levels)
      requires |path| == |levels| && OnPath(levels, path, pos, key)
      requires Halfway(levels, fields, |levels|, a, b) && Updates(a, b, key, value) && key < HEAD_KEY
      modifies this`fields, repr
      ensures Mirrored() && left <= |path| && (left > 0 ==> path[left - 1].key != key)
      ensures Halfway(levels, fields, left, a, b)
    {
      hide *;
      ghost var ls, nodes := levels, repr;
      left := |path|;
      while left > 0 && path[left - 1].key == key
        invariant left <= |ls| && levels == ls && repr == nodes
        invariant Mirrored() && Halfway(ls, fields, left, a, b)
      {
        left := left - 1;
        PathKey(ls, path, pos, key, left);
        LevelKeyed(ls, left);
        SetValue(path[left], value, left, pos[left], a, b);
      }
    }

    // The key is in the list: its node in every level gets the new value.
    method Replace(path: seq<Node>, ghost pos: seq<nat>, key: nat, value: string)
      requires Valid() && |path| == |levels| > 0 && OnPath(levels, path, pos, key)
      requires key < HEAD_KEY && path[|path| - 1].key == key
      modifies this`pairs, this`fields, repr
      ensures Valid() && pairs == Insert(old(pairs), key, value)
    {
      hide *;
      ghost var a, b, ls := pairs, Insert(pairs, key, value), levels;
      Parts();
      ReplaceStart(ls, fields, a, path, pos, key, value);
      var left := SetPath(path, pos, key, value, a, b);
      ReplaceEnd(ls, fields, a, b, path, pos, left, key, value);
      pairs := b;
      Assemble();
    }

    lemma NotEmpty()
      requires Valid() && pairs != []
      ensures levels != []
    {}

    lemma Parts()
      requires Valid()
      ensures Mirrored() && AllIn(levels, repr) && Whole(levels, fields, pairs)
      ensures size == |pairs| && HeadOk(levels, head)
      ensures Structure(levels)
    {}

    lemma Assemble()
      requires Mirrored() && AllIn(levels, repr) && Whole(levels, fields, pairs)
      requires size == |pairs| && HeadOk(levels, head)
      ensures Valid()
    {}

    // A new node after node n.
    method LinkAfter(n: Node, down: Node?, key: nat, value: string, ghost height: nat) returns (x: Node)
      requires Mirrored() && n in repr && n in fields.right
      modifies this`fields, this`repr, repr
      ensures Mirrored() && fresh(x) && x.key == key && x.down == down && x.height == height
      ensures fields == AfterInsert(old(fields), n, x, value) && repr == old(repr) + {x}
    {
      x := new Node(n.right, down, key, value, height);
      n.right := x;
      fields := AfterInsert(fields, n, x, value);
      repr := repr + {x};
    }

    // The new node of level m, after node n.
    method Raise(n: Node, downNode: Node?, key: nat, value: string,
                 ghost was: seq<seq<Node>>, ghost a: seq<Pair>, ghost pos: seq<nat>, ghost m: nat) returns (x: Node)
      requires Mirrored() && AllIn(levels, repr) && HeadOk(levels, head)
      requires Missing(was, a, pos, key) && m < |was| == |pos|
      requires Building(was, levels, fields, Insert(a, key, value), m + 1, downNode, key)
      requires Find(Insert(a, key, value), key) == Some(value)
      requires pos[m] < |was[m]| && n == was[m][pos[m]]
      modifies this`fields, this`repr, this`levels, repr
      ensures Mirrored() && AllIn(levels, repr) && HeadOk(levels, head) && fresh(repr - old(repr))
      ensures Building(was, levels, fields, Insert(a, key, value), m, x, key)
    {
      hide *;
      ghost var ls, f, nodes := levels, fields, repr;
      BuildAt(was, ls, f, Insert(a, key, value), nodes, m, downNode, key, pos[m]);
      x := LinkAfter(n, downNode, key, value, |was| - 1 - m);
      NotIn(ls, nodes, x);
      BuildNext(was, ls, f, a, Insert(a, key, value), pos, m, downNode, key, x, value);
      levels := ls[m := InsertAt(ls[m], pos[m], x)];
      MoreIn(ls, nodes, m, pos[m], x);
      HeadStays(ls, m, pos[m], x, head);
    }

    // The key is not in the list: a tower of new nodes, as high as the coins
    // say, and a new top level if they never stop it.
    method InsertKey(path: seq<Node>, ghost pos: seq<nat>, key: nat, value: string)
      requires Valid() && |path| == |levels| && OnPath(levels, path, pos, key) && key < HEAD_KEY
      requires path != [] ==> path[|path| - 1].key != key
      modifies this`size, this`head, this`levels, this`pairs, this`fields, this`repr, repr
      ensures Valid() && pairs == Insert(old(pairs), key, value) && fresh(repr - old(repr))
    {
      hide *;
      ghost var a, b, was := pairs, Insert(pairs, key, value), levels;
      Parts();
      PathMissing(was, fields, a, path, pos, key);
      PathSize(was, path, pos, key);
      BuildStart(was, fields, a, pos, key, value);
      var insertUp, left: nat := true, |path|;
      var downNode: Node? := null;
      size := size + 1;
      while insertUp && left > 0
        invariant left <= |was| == |levels| == |pos|
        invariant Mirrored() && AllIn(levels, repr) && fresh(repr - old(repr)) && HeadOk(levels, head)
        invariant Building(was, levels, fields, b, left, downNode, key)
        invariant (left == |was| ==> insertUp) && size == old(size) + 1
      {
        left := left - 1;
        PathKey(was, path, pos, key, left);
        BuildSize(was, levels, fields, b, left + 1, downNode, key);
        downNode := Raise(path[left], downNode, key, value, was, a, pos, left);
        BuildSize(was, levels, fields, b, left, downNode, key);
        insertUp := *;
      }
      if insertUp {
        AddTop(downNode, key, value, was, a, pos);
      } else {
        BuildDone(was, levels, fields, b, left, downNode, key);
      }
      pairs := b;
      Assemble();
    }

    // A new top level.
    method AddTop(downNode: Node?, key: nat, value: string, ghost was: seq<seq<Node>>, ghost a: seq<Pair>,
                  ghost pos: seq<nat>)
      requires Mirrored() && AllIn(levels, repr) && HeadOk(levels, head) && Missing(was, a, pos, key) && key < HEAD_KEY
      requires Building(was, levels, fields, Insert(a, key, value), 0, downNode, key)
      requires Find(Insert(a, key, value), key) == Some(value)
      modifies this`head, this`levels, this`fields, this`repr, repr
      ensures Mirrored() && AllIn(levels, repr) && HeadOk(levels, head) && fresh(repr - old(repr))
      ensures Whole(levels, fields, Insert(a, key, value))
    {
      hide *;
      ghost var ls, f, nodes := levels, fields, repr;
      BuildSize(was, ls, f, Insert(a, key, value), 0, downNode, key);
      HeadFacts(ls, head);
      var x := new Node(null, downNode, key, value, |was|);
      var h := new Node(x, head, HEAD_KEY, "", |was|);
      NotIn(ls, nodes, x);
      NotIn(ls, nodes, h);
      BuildTop(was, ls, f, a, Insert(a, key, value), pos, downNode, key, h, x, value);
      head := h;
      AddNodes(h, x, value);
      levels := [[h, x]] + ls;
      TopIn(ls, nodes, h, x);
    }

    ghost method AddNodes(h: Node, x: Node, value: string)
      requires Mirrored() && h !in repr && x !in repr && h != x && x.right == null
      requires h.right == x && x.val == value && h.val == ""
      modifies this`fields, this`repr
      ensures Mirrored() && fields == WithTop(old(fields), h, x, value) && repr == old(repr) + {h, x}
    {
      fields := WithTop(fields, h, x, value);
      repr := repr + {h, x};
    }

    method Put(key: nat, value: string)
      requires Valid() && key < HEAD_KEY
      modifies this`size, this`head, this`levels, this`pairs, this`fields, this`repr, this`minKey, this`maxKey, repr
      ensures Valid() && pairs == Insert(old(pairs), key, value) && fresh(repr - old(repr))
      ensures minKey == (if key < old(minKey) then key else old(minKey))
      ensures maxKey == (if key > old(maxKey) then key else old(maxKey))
    {
      hide *;
      Parts();
      if key < minKey {
        minKey := key;
      }
      if key > maxKey {
        maxKey := key;
      }
      Assemble();
      var path;
      ghost var pos;
      path, pos := FindPath(key);
      if path != [] && path[|path| - 1].key == key {
        Replace(path, pos, key, value);
      } else {
        InsertKey(path, pos, key, value);
      }
    }

    // ---------- The lowest level ----------

    lemma HeadOf(t: nat)
      requires Valid() && t < |levels|
      ensures levels[t] != [] && (t + 1 < |levels| ==> levels[t + 1] != [])
      ensures levels[t][0].down == if t + 1 < |levels| then levels[t + 1][0] else null
    {
      Parts();
      OneLevel(levels, fields, pairs, t);
      if t + 1 < |levels| { OneLevel(levels, fields, pairs, t + 1); }
      hide *;
      var below := Descend(levels, t, 0);
    }

    method GetFirstNode() returns (q: Node?)
      requires Valid()
      ensures if levels == [] then q == null else levels[|levels| - 1] != [] && q == levels[|levels| - 1][0]
    {
      hide *;
      FirstLevel();
      var p: Node? := head;
      q := null;
      ghost var t: nat := 0;
      while p != null
        invariant t <= |levels| && (p == null <==> t == |levels|)
        invariant p != null ==> levels[t] != [] && p == levels[t][0]
        invariant t == 0 ==> q == null
        invariant t > 0 ==> levels[t - 1] != [] && q == levels[t - 1][0]
        decreases |levels| - t
      {
        HeadOf(t);
        q := p;
        p := p.down;
        t := t + 1;
      }
    }

    lemma Entry(i: nat)
      requires Valid() && levels != [] && i < |pairs|
      ensures i + 1 < |levels[|levels| - 1]|
      ensures var n := levels[|levels| - 1][i + 1]; Pair(n.key, n.val) == pairs[i]
    {
      ValueAt(|levels| - 1, i + 1);
      FindAt(pairs, i);
      hide Find, Halfway, Structure, Mirrored, AllIn;
      assert levels[|levels| - 1][i + 1].key == pairs[i].key;
    }

    lemma EntryCount()
      requires Valid() && levels != []
      ensures |levels[|levels| - 1]| == |pairs| + 1 && Ascending(pairs)
    {}

    // Walking the lowest level lists the pairs in ascending order.
    method Entries() returns (s: seq<Pair>)
      requires Valid() && levels != []
      ensures s == pairs && Ascending(s)
    {
      hide *;
      EntryCount();
      ghost var l := levels[|levels| - 1];
      var first := GetFirstNode();
      Neighbour(|levels| - 1, 0);
      var node := first.right;
      s := [];
      ghost var i: nat := 0;
      while node != null
        invariant |s| == i <= |pairs| && node == (if i + 1 < |l| then l[i + 1] else null)
        invariant forall m :: 0 <= m < i ==> s[m] == pairs[m]
        decreases |pairs| - i
      {
        Entry(i);
        Neighbour(|levels| - 1, i + 1);
        s := s + [Pair(node.key, node.val)];
        node := node.right;
        i := i + 1;
      }
    }

    // Frees one level, from its head node on.
    method FreeLevel(start: Node, ghost t: nat) returns (ghost freed: seq<Node>)
      requires Valid() && t < |levels| && levels[t] != [] && start == levels[t][0]
      ensures freed == levels[t]
    {
      hide *;
      ghost var l := levels[t];
      var p: Node? := start;
      freed := [];
      ghost var i: nat := 0;
      while p != null
        invariant |freed| == i <= |l| && p == (if i < |l| then l[i] else null)
        invariant forall m :: 0 <= m < i ==> freed[m] == l[m]
        decreases |l| - i
      {
        Neighbour(t, i);
        var q := p.right;
        freed := freed + [p];
        p := q;
        i := i + 1;
      }
    }

    // The nodes in the order they are freed.
    method FreeAll() returns (ghost freed: seq<Node>)
      requires Valid() && head != null
      ensures freed == Flat(levels)
    {
      Parts();
      FirstLevel();
      ghost var ls := levels;
      assert ls[..|ls|] == ls && Flat(ls[..0]) == [];
      hide *;
      freed := [];
      var p: Node? := head;
      ghost var t: nat := 0;
      while p != null
        invariant t <= |ls| && (p == null <==> t == |ls|)
        invariant p != null ==> ls[t] != [] && p == ls[t][0]
        invariant freed == Flat(ls[..t])
        decreases |ls| - t
      {
        FlatNext(ls, t);
        ghost var below := Descend(ls, t, 0);
        var down := p.down;
        ghost var level := FreeLevel(p, t);
        freed := freed + level;
        p := down;
        t := t + 1;
      }
    }

    // Frees every node, each once, and starts over; the time stamp goes on.
    method Clear() returns (ghost freed: seq<Node>)
      requires Valid()
      modifies this`size, this`head, this`levels, this`pairs, this`fields, this`repr, this`minKey, this`maxKey,
               this`memory
      ensures Valid() && pairs == [] && repr == {} && timeStamp == old(timeStamp)
      ensures EachOnce(old(levels), freed)
      ensures old(pairs) != [] ==> memory == 10272 && minKey == 0x7FFF_FFFF_FFFF_FFFF && maxKey == 0x8000_0000_0000_0000
      ensures old(levels) == [] ==> memory == old(memory) && minKey == old(minKey) && maxKey == old(maxKey)
    {
      hide *;
      FirstLevel();
      freed := [];
      EveryNode();
      if head == null {
        repr := {};
        StartOver();
        Assemble();
        return;
      }
      freed := FreeAll();
      head := null;
      size := 0;
      memory := 10272;
      minKey := 0x7FFF_FFFF_FFFF_FFFF;
      maxKey := 0x8000_0000_0000_0000;
      levels, pairs, fields, repr := [], [], Fields(map[], map[]), {};
      StartOver();
      Assemble();
    }

    lemma EveryNode()
      requires Valid()
      ensures EachOnce(levels, Flat(levels))
      ensures levels == [] ==> Flat(levels) == []
    {
      hide *;
      Parts();
      LevelsKeyed(levels);
      FlatEachOnce(levels);
    }

    lemma StartOver()
      requires levels == [] && pairs == [] && repr == {} && head == null
      ensures Mirrored() && AllIn(levels, repr) && Whole(levels, fields, pairs) && HeadOk(levels, head)
    {}
  }
}
