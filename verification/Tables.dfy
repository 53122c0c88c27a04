// One table: its construction from ascending pairs, with a key range, a Bloom
// filter and an index of offsets, and the lookup that consults them in turn.
module Tables {
  import opened Options
  import opened Pairs
  import opened Merge

  const BLOOM_BITS := 8 * 1024 * 1024

  // Four 32-bit words from the hash of a key; any function will do.
  type Hash = nat -> (nat, nat, nat, nat)

  // Where a key's value starts in the table file.
  datatype Entry = Entry(key: nat, pos: nat)

  datatype Table = Table(
    timeStamp: nat, level: nat, order: nat, dataLength: nat,
    minKey: nat, maxKey: nat,
    bloom: set<nat>, offset: seq<Entry>, keyValue: seq<Pair>)

  function Word(h: Hash, k: nat, w: nat): nat
    requires w < 4
  {
    var x := h(k);
    if w == 0 then x.0 else if w == 1 then x.1 else if w == 2 then x.2 else x.3
  }

  function BitOf(h: Hash, k: nat, w: nat): nat
    requires w < 4
  {
    Word(h, k, w) % BLOOM_BITS
  }

  ghost predicate MayHold(h: Hash, bloom: set<nat>, k: nat) {
    forall w :: 0 <= w < 4 ==> BitOf(h, k, w) in bloom
  }

  // All four words of the key must have their bit set.
  lemma MayHoldExact(h: Hash, bloom: set<nat>, k: nat)
    ensures MayHold(h, bloom, k) <==>
              && h(k).0 % BLOOM_BITS in bloom && h(k).1 % BLOOM_BITS in bloom
              && h(k).2 % BLOOM_BITS in bloom && h(k).3 % BLOOM_BITS in bloom
  {
    assert BitOf(h, k, 0) == h(k).0 % BLOOM_BITS && BitOf(h, k, 1) == h(k).1 % BLOOM_BITS;
    assert BitOf(h, k, 2) == h(k).2 % BLOOM_BITS && BitOf(h, k, 3) == h(k).3 % BLOOM_BITS;
  }

  // Where the bytes of the i-th value end.
  function EndOf(t: Table, i: nat): nat
    requires i < |t.offset|
  {
    if i + 1 < |t.offset| then t.offset[i + 1].pos else INITIAL_SIZE + 12 * |t.keyValue| + t.dataLength
  }

  // Every pair is in the range, in the filter and in the index.
  ghost predicate WellFormed(h: Hash, t: Table) {
    && t.keyValue != [] && Ascending(t.keyValue)
    && t.minKey <= t.keyValue[0].key && t.keyValue[|t.keyValue| - 1].key <= t.maxKey
    && (forall i :: 0 <= i < |t.keyValue| ==> MayHold(h, t.bloom, t.keyValue[i].key))
    && |t.offset| == |t.keyValue|
    && (forall i :: 0 <= i < |t.offset| ==> t.offset[i].key == t.keyValue[i].key)
    && (forall i :: 0 <= i < |t.offset| ==> t.offset[i].pos <= EndOf(t, i))
  }

  // The range is exactly that of the keys.
  ghost predicate ExactRange(t: Table) {
    && t.keyValue != []
    && t.minKey == t.keyValue[0].key && t.maxKey == t.keyValue[|t.keyValue| - 1].key
  }

  // ---------- Construction ----------

  function Length(v: string): nat { |v| }

  // Bytes the values take, each with a terminating byte, when a value is
  // reported to be `size` of it long.
  function DataBytes(size: string -> nat, s: seq<Pair>): nat {
    if s == [] then 0 else DataBytes(size, s[..|s| - 1]) + size(s[|s| - 1].val) + 1
  }

  function OffsetsFrom(base: nat, size: string -> nat, s: seq<Pair>): (r: seq<Entry>)
    ensures |r| == |s|
  {
    if s == [] then []
    else OffsetsFrom(base, size, s[..|s| - 1]) + [Entry(s[|s| - 1].key, base + DataBytes(size, s[..|s| - 1]))]
  }

  lemma {:induction false} OffsetAt(base: nat, size: string -> nat, s: seq<Pair>, i: nat)
    requires i < |s|
    ensures OffsetsFrom(base, size, s)[i] == Entry(s[i].key, base + DataBytes(size, s[..i]))
    decreases |s|
  {
    if i < |s| - 1 {
      OffsetAt(base, size, s[..|s| - 1], i);
      assert s[..|s| - 1][..i] == s[..i];
    }
  }

  function BitsOf(h: Hash, k: nat): set<nat> {
    {BitOf(h, k, 0), BitOf(h, k, 1), BitOf(h, k, 2), BitOf(h, k, 3)}
  }

  function BloomOf(h: Hash, s: seq<Pair>): set<nat> {
    if s == [] then {} else BloomOf(h, s[..|s| - 1]) + BitsOf(h, s[|s| - 1].key)
  }

  // The filter's bits are those of the four words of the keys, and no others.
  lemma {:induction false} BloomExact(h: Hash, s: seq<Pair>, b: nat)
    ensures b in BloomOf(h, s) <==> exists i :: 0 <= i < |s| && HasBit(h(s[i].key), b)
  {
    if s != [] {
      var n := |s| - 1;
      BloomExact(h, s[..n], b);
      assert forall i :: 0 <= i < n ==> s[..n][i] == s[i];
    }
  }

  ghost predicate HasBit(words: (nat, nat, nat, nat), b: nat) {
    || b == words.0 % BLOOM_BITS || b == words.1 % BLOOM_BITS
    || b == words.2 % BLOOM_BITS || b == words.3 % BLOOM_BITS
  }

  lemma {:induction false} BloomHolds(h: Hash, s: seq<Pair>, i: nat)
    requires i < |s|
    ensures BitsOf(h, s[i].key) <= BloomOf(h, s)
    decreases |s|
  {
    if i < |s| - 1 { BloomHolds(h, s[..|s| - 1], i); }
  }

  function MakeTable(h: Hash, size: string -> nat, level: nat, order: nat, timeStamp: nat,
                     minKey: nat, maxKey: nat, pairs: seq<Pair>): Table
  {
    Table(timeStamp, level, order, DataBytes(size, pairs), minKey, maxKey, BloomOf(h, pairs),
          OffsetsFrom(INITIAL_SIZE + 12 * |pairs|, size, pairs), pairs)
  }

  lemma MakeTableWellFormed(h: Hash, size: string -> nat, level: nat, order: nat, timeStamp: nat,
                            minKey: nat, maxKey: nat, pairs: seq<Pair>)
    requires pairs != [] && Ascending(pairs)
    requires minKey <= pairs[0].key && pairs[|pairs| - 1].key <= maxKey
    ensures WellFormed(h, MakeTable(h, size, level, order, timeStamp, minKey, maxKey, pairs))
  {
    var t := MakeTable(h, size, level, order, timeStamp, minKey, maxKey, pairs);
    forall i | 0 <= i < |pairs| ensures MayHold(h, t.bloom, pairs[i].key) {
      BloomHolds(h, pairs, i);
      assert BitsOf(h, pairs[i].key) <= t.bloom;
    }
    forall i | 0 <= i < |pairs| ensures t.offset[i].key == pairs[i].key && t.offset[i].pos <= EndOf(t, i) {
      DataBytesStep(size, pairs, i);
      OffsetAt(INITIAL_SIZE + 12 * |pairs|, size, pairs, i);
      OffsetsEnd(h, size, level, order, timeStamp, minKey, maxKey, pairs, i);
    }
  }

  lemma DataBytesStep(size: string -> nat, s: seq<Pair>, i: nat)
    requires i < |s|
    ensures DataBytes(size, s[..i + 1]) == DataBytes(size, s[..i]) + size(s[i].val) + 1
    ensures i + 1 == |s| ==> s[..i + 1] == s
  {
    assert s[..i + 1][..i] == s[..i];
  }

  method FillBloom(h: Hash, pairs: seq<Pair>) returns (bloom: set<nat>)
    ensures bloom == BloomOf(h, pairs)
  {
    bloom := {};
    var i := 0;
    while i < |pairs|
      invariant 0 <= i <= |pairs|
      invariant bloom == BloomOf(h, pairs[..i])
    {
      assert pairs[..i + 1][..i] == pairs[..i];
      bloom := bloom + {BitOf(h, pairs[i].key, 0)} + {BitOf(h, pairs[i].key, 1)} + {BitOf(h, pairs[i].key, 2)}
        + {BitOf(h, pairs[i].key, 3)};
      i := i + 1;
    }
    assert pairs[..i] == pairs;
  }

  // The index and the data length, for values whose reported length is `size`.
  method FillOffsets(size: string -> nat, pairs: seq<Pair>) returns (offset: seq<Entry>, curlength: nat)
    ensures offset == OffsetsFrom(INITIAL_SIZE + 12 * |pairs|, size, pairs)
    ensures curlength == DataBytes(size, pairs)
  {
    var dataArea := INITIAL_SIZE + 12 * |pairs|;
    curlength := 0;
    offset := [];
    var i := 0;
    while i < |pairs|
      invariant 0 <= i <= |pairs|
      invariant curlength == DataBytes(size, pairs[..i])
      invariant offset == OffsetsFrom(dataArea, size, pairs[..i])
    {
      assert pairs[..i + 1][..i] == pairs[..i];
      offset := offset + [Entry(pairs[i].key, dataArea + curlength)];
      curlength := curlength + size(pairs[i].val) + 1;
      i := i + 1;
    }
    assert pairs[..i] == pairs;
  }

  // The table a compaction writes.
  method FromMerge(h: Hash, level: nat, order: nat, timeStamp: nat, pairs: seq<Pair>) returns (t: Table)
    requires pairs != [] && Ascending(pairs)
    ensures t == MakeTable(h, Length, level, order, timeStamp, pairs[0].key, pairs[|pairs| - 1].key, pairs)
    ensures WellFormed(h, t) && ExactRange(t)
  {
    var bloom := FillBloom(h, pairs);
    var offset, curlength := FillOffsets(Length, pairs);
    t := Table(timeStamp, level, order, curlength, pairs[0].key, pairs[|pairs| - 1].key, bloom, offset, pairs);
    MakeTableWellFormed(h, Length, level, order, timeStamp, pairs[0].key, pairs[|pairs| - 1].key, pairs);
  }

  // The table a flush writes. The lengths are read after the values have been
  // moved out: `movedLen` is what a moved-from string then reports.
  method FromMemTable(h: Hash, movedLen: string -> nat, order: nat, timeStamp: nat, minKey: nat, maxKey: nat,
                      pairs: seq<Pair>)
    returns (t: Table)
    requires pairs != [] && Ascending(pairs)
    requires minKey <= pairs[0].key && pairs[|pairs| - 1].key <= maxKey
    ensures t == MakeTable(h, movedLen, 0, order, timeStamp, minKey, maxKey, pairs)
    ensures WellFormed(h, t)
  {
    var bloom := FillBloom(h, pairs);
    var offset, curlength := FillOffsets(movedLen, pairs);
    t := Table(timeStamp, 0, order, curlength, minKey, maxKey, bloom, offset, pairs);
    MakeTableWellFormed(h, movedLen, 0, order, timeStamp, minKey, maxKey, pairs);
  }

  lemma {:induction false} BytesSplit(s: seq<Pair>)
    ensures Bytes(s) == INITIAL_SIZE + 12 * |s| + DataBytes(Length, s)
  {
    if s != [] {
      BytesSplit(s[..|s| - 1]);
    }
  }

  lemma {:induction false} DataBytesGrow(size: string -> nat, s: seq<Pair>, i: nat)
    requires i <= |s|
    ensures DataBytes(size, s[..i]) <= DataBytes(size, s)
    decreases |s|
  {
    if i < |s| {
      DataBytesGrow(size, s[..|s| - 1], i);
      assert s[..|s| - 1][..i] == s[..i];
    } else {
      assert s[..i] == s;
    }
  }

  lemma OffsetsEnd(h: Hash, size: string -> nat, level: nat, order: nat, timeStamp: nat, minKey: nat,
                   maxKey: nat, pairs: seq<Pair>, i: nat)
    requires i < |pairs|
    ensures var t := MakeTable(h, size, level, order, timeStamp, minKey, maxKey, pairs);
            var base := INITIAL_SIZE + 12 * |pairs|;
            && t.offset[i].pos == base + DataBytes(size, pairs[..i])
            && EndOf(t, i) == base + DataBytes(size, pairs[..i + 1])
  {
    hide BloomOf, DataBytes, OffsetsFrom;
    var base := INITIAL_SIZE + 12 * |pairs|;
    OffsetAt(base, size, pairs, i);
    if i + 1 < |pairs| { OffsetAt(base, size, pairs, i + 1); } else { assert pairs[..i + 1] == pairs; }
  }

  // A lookup in a table a compaction wrote reads exactly that value's bytes
  // and its terminator; the last value ends at the table's size.
  lemma PackedRead(h: Hash, level: nat, order: nat, timeStamp: nat, minKey: nat, maxKey: nat, pairs: seq<Pair>, i: nat)
    requires i < |pairs|
    ensures var t := MakeTable(h, Length, level, order, timeStamp, minKey, maxKey, pairs);
            && EndOf(t, i) - t.offset[i].pos == |pairs[i].val| + 1
            && INITIAL_SIZE + 12 * |pairs| <= t.offset[i].pos
            && EndOf(t, i) <= Bytes(pairs)
            && (i == |pairs| - 1 ==> EndOf(t, i) == Bytes(pairs))
  {
    OffsetsEnd(h, Length, level, order, timeStamp, minKey, maxKey, pairs, i);
    BytesSplit(pairs);
    DataBytesStep(Length, pairs, i);
    DataBytesGrow(Length, pairs, i + 1);
  }

  // ---------- Lookup ----------

  method Search(t: Table, target: nat) returns (r: int)
    requires forall i, j :: 0 <= i < j < |t.offset| ==> t.offset[i].key < t.offset[j].key
    ensures -1 <= r < |t.offset|
    ensures r >= 0 ==> t.offset[r].key == target
    ensures r == -1 ==> forall i :: 0 <= i < |t.offset| ==> t.offset[i].key != target
  {
    var low, high := 0, |t.offset| - 1;
    while low <= high
      invariant 0 <= low <= high + 1 <= |t.offset|
      invariant forall i :: 0 <= i < low ==> t.offset[i].key < target
      invariant forall i :: high < i < |t.offset| ==> t.offset[i].key > target
      decreases high - low
    {
      var mid := (high - low) / 2 + low;
      var num := t.offset[mid].key;
      if num == target {
        return mid;
      } else if num > target {
        high := mid - 1;
      } else {
        low := mid + 1;
      }
    }
    return -1;
  }

  function ValueOr(o: Option<string>): string { if o.Some? then o.value else "" }

  method TestBloom(h: Hash, bloom: set<nat>, key: nat) returns (r: bool)
    ensures r <==> MayHold(h, bloom, key)
  {
    var w := 0;
    while w < 4
      invariant 0 <= w <= 4
      invariant forall v :: 0 <= v < w ==> BitOf(h, key, v) in bloom
    {
      if BitOf(h, key, w) !in bloom {
        return false;
      }
      w := w + 1;
    }
    return true;
  }

  // The offset and length are those of the key's value.
  ghost predicate ReadsValue(t: Table, key: nat, read: (nat, nat)) {
    exists i :: 0 <= i < |t.offset| && t.offset[i].key == key
      && read == (t.offset[i].pos, EndOf(t, i) - t.offset[i].pos)
  }

  // Range check, Bloom filter and binary search together answer like a scan
  // of the stored pairs, whatever the hash. `read` is the offset and length
  // asked of the storage, if any.
  method GetValue(h: Hash, t: Table, key: nat) returns (ans: string, read: Option<(nat, nat)>)
    requires WellFormed(h, t)
    ensures ans == ValueOr(Find(t.keyValue, key))
    ensures read.Some? <==> Find(t.keyValue, key).Some?
    ensures read.Some? ==> ReadsValue(t, key, read.value)
  {
    hide *;
    NothingFound();
    if key < t.minKey || key > t.maxKey {
      OutOfRange(h, t, key);
      return "", None;
    }
    var mayHold := TestBloom(h, t.bloom, key);
    if !mayHold {
      NotInFilter(h, t, key);
      return "", None;
    }
    IndexOrder(h, t);
    var index1 := Search(t, key);
    if index1 == -1 {
      NotInIndex(t, key);
      return "", None;
    }
    FoundAt(t, key, index1);
    ans := t.keyValue[index1].val;
    var len := EndOf(t, index1) - t.offset[index1].pos;
    read := Some((t.offset[index1].pos, len));
  }

  lemma NothingFound()
    ensures ValueOr(None) == ""
  {}

  lemma IndexOrder(h: Hash, t: Table)
    requires WellFormed(h, t)
    ensures Ascending(t.keyValue) && |t.offset| == |t.keyValue|
    ensures forall i :: 0 <= i < |t.offset| ==> t.offset[i].key == t.keyValue[i].key && t.offset[i].pos <= EndOf(t, i)
    ensures forall i, j :: 0 <= i < j < |t.offset| ==> t.offset[i].key < t.offset[j].key
  {
    hide EndOf, MayHold;
  }

  lemma NotInIndex(t: Table, key: nat)
    requires |t.offset| == |t.keyValue| && forall i :: 0 <= i < |t.offset| ==> t.offset[i].key == t.keyValue[i].key
    requires forall i :: 0 <= i < |t.offset| ==> t.offset[i].key != key
    ensures Find(t.keyValue, key) == None
  {
    var found := Find(t.keyValue, key);
    assert forall i :: 0 <= i < |t.keyValue| ==> t.keyValue[i].key != key;
  }

  lemma FoundAt(t: Table, key: nat, i: nat)
    requires Ascending(t.keyValue) && i < |t.offset| == |t.keyValue| && t.offset[i].key == t.keyValue[i].key == key
    requires t.offset[i].pos <= EndOf(t, i)
    ensures Find(t.keyValue, key) == Some(t.keyValue[i].val) && ValueOr(Some(t.keyValue[i].val)) == t.keyValue[i].val
    ensures ReadsValue(t, key, (t.offset[i].pos, EndOf(t, i) - t.offset[i].pos))
  {
    FindAt(t.keyValue, i);
    hide Find, EndOf;
  }

  lemma NotInFilter(h: Hash, t: Table, key: nat)
    requires WellFormed(h, t) && !MayHold(h, t.bloom, key)
    ensures Find(t.keyValue, key) == None
  {
    var found := Find(t.keyValue, key);
    assert forall i :: 0 <= i < |t.keyValue| ==> t.keyValue[i].key != key;
  }

  lemma OutOfRange(h: Hash, t: Table, key: nat)
    requires WellFormed(h, t) && (key < t.minKey || key > t.maxKey)
    ensures Find(t.keyValue, key) == None
  {
    var found := Find(t.keyValue, key);
    forall i | 0 <= i < |t.keyValue| ensures t.keyValue[i].key != key {
      assert t.keyValue[0].key <= t.keyValue[i].key <= t.keyValue[|t.keyValue| - 1].key;
    }
  }
}
