# A verified model of a log-structured store on zoned flash

The system is a key-value store that writes its tables to a simulated zoned SSD. Three state machines
cooperate, and each is modelled here and proved against a simple specification.

- **The store.** A skip-list memtable is flushed to level-0 tables; a cascade of compactions merges tables
  downward with a k-way merge that keeps one cursor per source and an ordered map from head keys to sources.
  Specification: a plain map. `Merge`, `Tables`, `Levels`, `Compaction`, `Cascades`, `History` and `Stores`
  hold the specification side and its theorems, `Ties` the exact condition under which a compaction into
  level 2 or deeper keeps an answer, `LostKeys` two runs that break it (`ThinLevels` and `ThinStores` carry them),
  `Leaks` the table numbers a compaction leaves behind, `Estimates` the size estimate that decides when the
  memtable is flushed, `SkipLists` the linked memtable, and `KVStores` the running store: a class over the skip
  list, the levels and the zone manager that refines `Stores` step by step.
- **The zone manager.** A log-structured allocator of table slots in append-only zones, with a collector that
  relocates live tables and resets zones. Asynchronous writes go through per-worker FIFO queues.
  Specification: an injective map from tables to slots. `QueueCaches`, `ZoneState`, `Relocation` and
  `ZoneManager` hold the allocator, `Protocol` the main thread and its workers as a state machine,
  `PageCaches` and `PageReads` the page cache and the reads it leaves to do.
- **The flash translation layer.** A stepwise write pointer, a stepwise read iterator and a closed form for the
  place of a page, over a symbolic geometry. Specification: one bijection between zone pages and physical
  pages. `Geometries`, `Latency`, `Blocks` and `Flash` hold it; `Dispatch` joins it to the zone manager, down
  to playing the manager's own commands on the flash, in every interleaving with its workers, without a fault;
  `Units` joins the queues of free zones to the LUNs the zones lie on.

The zone idea is that of the NVM Express Zoned Namespace Command Set Specification, section 2.1.1; only the
states EMPTY and FULL are used.

## How it is built

Code that changes state in place is a class: `Merger` (cursors and head map), `SkipList` (linked nodes),
`QueueCache`, `LRUCache`, `MemoryManager`, `Ftl` (zones and LUN times in arrays) and `KVStore`. Their methods
are proved against functions on values, and the lemmas about those functions carry the main theorems. The zone
manager records every device command in a ghost trace; its invariant says that the trace follows a discipline
the main thread can check alone, and `Protocol.EveryInterleavingSafe` shows that a disciplined trace is safe
in every interleaving with the workers. `SkipList` mirrors the fields of its nodes in ghost maps so that the
structural lemmas do not mention the heap. Many proofs start with `hide *;` and use small lemmas that unfold
one definition each.

Results that correct the code's expectations, each with an exact condition, and inputs that show the failure:

- A run does not always answer like a map. From level 2 down, tables of adjacent levels can carry the same
  time stamp. The ordered set then can turn a new table away, so that its pairs are lost, or the merge can
  keep the older of two values. `Ties.KeepsOneExactly` says exactly when a compaction of two levels keeps the
  answer of a key, into the last level or not, and `History.CompactKeepsExactly` says it for the whole store;
  the condition speaks of time stamps, first keys and the values in the tables that are merged.
  `LostKeys.LostKeyRun` is a run from the empty store: seventeen puts, no deletion, and the key 2^63 + 2 is
  gone. `LostKeys.StaleRun` is another: twenty-two puts, no deletion, and that key has the value of its first
  put again, although a later one replaced it. Compaction into level 1 needs no condition, because flush time
  stamps are unique, and the invariants of the levels need none at all (`Stores.EveryRunSane`).
- The queues of free zones have a queue for every zone exactly when the number of queues is even or each group
  is a single zone; otherwise the source indexes past the end (`QueueCaches.QueuesSuffice`,
  `QueueCaches.OddQueuesExample`).
- The size estimate is exact up to the first flush. After one it restarts about a megabyte too low, and lower
  still when the put that flushes replaces a value (`Estimates.PutEstimate`, `Estimates.EveryRunTracked`), so a
  flushed table can be larger than its slot: `Estimates.OversizedTable` is a run of four puts.
- The manager takes the rows of a plane for the zones of a queue. Zones then share a queue exactly when they share
  their LUNs on a device of two groups, or with one row of zones, and on no other (`Units.QueuesAreUnits`). The
  source's device has one group (`Units.DeviceQueues`), and the sixteen zones a new manager opens there lie on
  four of its eight LUNs per channel (`Units.DeviceOpen`).
- A table the ordered set turns away has been written already, and its number never leaves the zone manager.
  `Leaks.CompactLeakExactly` says exactly which numbers a compaction leaves behind, and `KVStores.Session` that
  the manager holds those and the numbers of the tables in the levels, and no others. The table that
  `LostKeys.LostKeyRun` loses is one.
- A lookup of a value that ends with its table goes through the first page of the next slot, and only such a
  lookup does (`PageReads.LastPageExact`); `PageReads.LastPageExample` builds such a table. When the slot is the
  device's last one that page does not exist (`PageReads.StaysOnDevice`), and its zone index is one the device
  rejects (`Dispatch.PageHasZone`).

## What is assumed, and how the code is read

- Keys are below 2^64 - 1 (the head node's key), values are neither empty nor the tombstone, and one value
  fits in a table. The memtable's size estimate wraps modulo 2^64.
- The hash of the Bloom filters is an arbitrary function to four naturals; what a moved-from string reports as
  its length is an arbitrary function too, so a flushed table has no exact offsets, only ordered ones.
- Level-0 key ranges are bounds, not exact: the memtable's maximum restarts at 2^63 when it is cleared.
- `PageReads` speaks of values inside their slot; in a flushed table that is too large a value can lie outside.
- Source iterators that the merge leaves unset are taken to be at the end. Where two tables are equivalent in
  the order of the priority queue, the one pushed first is popped first, which C++ leaves open.
- `exit(1)` is a result `exited`; diagnostics that only print are either proved unreachable or returned.
- A utilisation rate below 0.2 is `5 * valid < tables`, a share of empty zones below 0.05 is
  `20 * empty < zones`, and `pow(3, i + 1)` is an exact power.
- The zone manager counts in slots. `Relocation.AddressBack` and `Relocation.EndReached` say what byte
  addresses correspond to; the end of a zone in the source is its last byte. Each zone has a queue. A write
  asks for a twentieth of the zones not to be open (`20 * openNum <= 19 * zoneNum`): otherwise, and only then,
  the first write finds few empty zones while no zone is full yet (`ZoneManager.MemoryManager.constructor`), and
  the source picks a zone from an empty set.
- A write, a read or a reset of the device is one atomic step of the protocol. In the source several workers
  and the main thread run them at the same time, on LUN times that no lock protects; the times the model gives
  are those of requests that do not overlap.
- `Geometries.Regular` states the geometry: the groups divide the channels, a zone is a whole number of block
  rows of its group, a plane is a whole number of zones, one plane per LUN, and the device is the whole flash.
- The start time of a request is a parameter; a start time of 0 makes the source read a clock, and what it
  reads is arbitrary.
- The comment in `src/LSM-Tree/kvstore.cc` speaks of 2 MB tables; the code's limit is 64 MiB, which is used.

## Model

| member | source | states |
|---|---|---|
| Stores.RunsLikeAMap | src/LSM-Tree/kvstore.cc:27-95 | over every run of put, get and del from the empty store, with all flushes and cascades, the replies are those of a plain map if no compaction into level 2 or deeper harms a key; harmless time-stamp ties are covered |
| Stores.EveryRunSane | src/LSM-Tree/kvstore.cc:125-262 | every run from the empty store, ties or not, leaves the levels from 1 down pairwise disjoint, every level sorted and well formed, and every time stamp of a level at most every time stamp of a shallower one |
| Stores.PutSane | src/LSM-Tree/kvstore.cc:27-50 | one put, with its flush and cascade, keeps all those invariants, ties or not |
| Stores.PutCorrect | src/LSM-Tree/kvstore.cc:27-50 | after a put whose compactions harm no key, the key has its value and every other key answers as before, also through a flush and a cascade |
| Stores.RunBounded | src/LSM-Tree/kvstore.cc:125-132 | over every run, ties or not, level 0 keeps at most 3 tables and level i at most 3^(i+1) |
| Stores.PutBounded | src/LSM-Tree/kvstore.cc:35-48 | one put leaves every level within its bound, ties or not |
| Stores.FlushKeeps | src/LSM-Tree/kvstore.cc:35-48 | a flush changes no answer if the compactions it causes harm no key |
| Estimates.PutEstimate | src/LSM-Tree/kvstore.cc:27-50 | a put flushes exactly when the bytes of the memtable with the new pair, and the drift of the estimate, are more than a table modulo 2^64; until then the drift stays the same, for a new key and for a replaced one; a flush leaves the one pair and sets the drift to 10272 less the header, less the bytes of the value it replaces |
| Estimates.PutTracked | src/LSM-Tree/kvstore.cc:30-33 | before the first flush the estimate is the memtable's bytes, and the first flush comes exactly when they would exceed a table |
| Estimates.EveryRunTracked | src/LSM-Tree/kvstore.cc:27-50 | over every run the estimate is exact up to the first flush and low by a known amount after it, and the memtable's key range is that of its keys and the values it starts from |
| Estimates.OversizedTable | src/LSM-Tree/SkipList.cpp:100 | four puts from the empty store after which level 0 has a table of 1 038 332 bytes more than a table may have |
| KVStores.Session | src/LSM-Tree/kvstore.cc:5-95 | a session on a new store, run on the linked memtable, the tables and the zone manager, gives the replies of the specification, and those of a plain map if no compaction harms a key; unless it stops, the zone manager holds the numbers of the tables in the levels and of those turned away during the run, and no others; it stops short only when the zone manager is jammed, on a device of at least 20 zones for each slot of a zone only when every slot of the full zones holds a table the manager still maps |
| KVStores.KVStore.Execute | src/LSM-Tree/kvstore.cc:27-95 | a sequence of operations does to the running store, and replies, what the specification's run does, and leaves exactly the numbers of the tables turned away on the way in the zone manager; if it stops, the replies are those of the operations before, and the zone manager is jammed |
| KVStores.KVStore.Put | src/LSM-Tree/kvstore.cc:27-50 | put changes the running store as the specification's put does, size estimate and key range included, unless the zone manager is jammed; a put that starts compactions leaves no zone marked for reset |
| KVStores.KVStore.Get | src/LSM-Tree/kvstore.cc:56-84 | get answers as the specification: memtable first, then the levels, newest table first, tombstones as absent; the table that answers is waited for and read, and no other |
| KVStores.KVStore.ReadOne | src/LSM-Tree/Table.cpp:115-140 | a table that has the key is waited for if its write is pending, and then read; one that has not is left alone |
| KVStores.KVStore.Del | src/LSM-Tree/kvstore.cc:89-95 | del writes a tombstone exactly when the key is there, and says so, unless the zone manager is jammed |
| KVStores.KVStore.FlushTable | src/LSM-Tree/Table.cpp:4-47 | the memtable becomes the newest table of level 0 and starts over, and its time stamp moves on, unless the zone manager is jammed |
| KVStores.KVStore.CompactionForLevel | src/LSM-Tree/kvstore.cc:125-257 | the recursive compaction terminates and leaves exactly the levels of the specification's cascade, and the zone manager still holds every table, unless it is jammed; it ends with a sweep: no zone stays marked, and none that was marked and less than a fifth live keeps a deleted slot |
| KVStores.KVStore.MergeDown | src/LSM-Tree/kvstore.cc:140-254 | one merge leaves the levels as its steps say; exactly the picked and the selected tables leave the zone manager, and each full zone that loses one is marked for reset |
| KVStores.KVStore.SettleLevels | src/LSM-Tree/kvstore.cc:44-48 | level 0 is compacted exactly when it is over full, and then no zone is marked for reset afterwards |
| KVStores.KVStore.WriteToFile | src/LSM-Tree/kvstore.cc:259-264 | one more table in its level under a number no live table has, unless the zone manager is jammed |
| KVStores.PickSources | src/LSM-Tree/kvstore.cc:140-180 | the two loops choose the first n upper tables and exactly the lower tables that their hull meets, queue them in order, and report the last time stamp |
| KVStores.KVStore.ReadSources | src/LSM-Tree/kvstore.cc:192-198 | the sources are waited for and read in queue order, each by the commands of its own read, and no write of theirs is pending afterwards |
| KVStores.KVStore.DropMerged | src/LSM-Tree/kvstore.cc:251-254 | exactly the merged tables leave their level and the zone manager, each after its write was waited for, and the full zones they were in are marked |
| KVStores.StepsAreCompact | src/LSM-Tree/kvstore.cc:154-254 | filling the lower level, emptying the upper one and erasing the merged tables in turn is the compaction of the specification |
| Leaks.CompactLeakExactly | src/LSM-Tree/kvstore.cc:259-264 | a compaction leaves behind the number of each new table that a table of the lower level turns away, and no other number; it leaves none if and only if none is turned away |
| Leaks.LeakIs | src/LSM-Tree/kvstore.cc:259-264 | tables emplaced one after the other are turned away by the level as it was or not at all |
| KVStores.WithCoherent | src/LSM-Tree/kvstore.cc:259-264 | a table written, even one the ordered set turns away, keeps levels sorted, orders distinct and all numbers known to the zone manager |
| Merge.MergeTables | src/LSM-Tree/kvstore.cc:200-243 | the merge loop writes exactly the packed merge of its sources: non-empty tables that fit, each filled before the next |
| Merge.MergeResultCorrect | src/LSM-Tree/kvstore.cc:218-239 | keys strictly ascend, and each key of the union has the value of the newest source holding it, minus tombstones exactly at the last level |
| Merge.Merger.constructor | src/LSM-Tree/kvstore.cc:200-216 | after the first registration the head map is a bijection between sources that are not exhausted and their cursor keys |
| Merge.Merger.Update | src/LSM-Tree/kvstore.cc:97-113 | the recursive update terminates by decreasing source index and restores that bijection; every entry it skips is superseded by a newer source |
| Merge.Merger.Next | src/LSM-Tree/kvstore.cc:221-237 | one step yields the least key not yet emitted, with its newest value, and skips none in between |
| Merge.LeastHeadIsNewest | src/LSM-Tree/kvstore.cc:219-225 | the least head key is the least key left, and its source is the newest one that has it |
| Merge.PackCorrect | src/LSM-Tree/kvstore.cc:228-243 | packing loses and reorders nothing, every table is non-empty and fits, and a table is closed only when the next pair would overflow it |
| Compaction.MergedLevelGet | src/LSM-Tree/kvstore.cc:150-254 | when the picked tables are newer, a compaction gives every key the answer the two levels gave together, up to tombstones dropped at the last level |
| Compaction.MergedLevelIs | src/LSM-Tree/kvstore.cc:150-254 | whatever the time stamps, a key's answer in the lower level is afterwards that of the table left alone that has it, nothing if its new table was turned away, and else that of the merged sources |
| Compaction.MergedLevelKeeps | src/LSM-Tree/kvstore.cc:172-180 | the lower level stays sorted and pairwise disjoint although overlap is tested only against the hull of the picked tables, and holds exactly the tables left alone and the new ones not turned away |
| Compaction.OutputAvoidsUnmerged | src/LSM-Tree/kvstore.cc:172-180 | no key of the output falls into the range of a table left alone |
| Compaction.NoneTurnedAway | src/LSM-Tree/kvstore.cc:259-264 | when the picked tables are newer, the ordered set accepts every new table |
| Compaction.EnqueueSorted | src/LSM-Tree/kvstore.cc:121-123 | the priority queue with the reversed iterator order pops tables oldest first |
| Compaction.AddedTables | src/LSM-Tree/kvstore.cc:228-243 | each table a compaction writes is well formed, has its exact key range, and carries the last picked time stamp |
| History.CompactKeepsGood | src/LSM-Tree/kvstore.cc:125-254 | every compaction, ties or not, keeps every level sorted and well formed, levels from 1 down disjoint, and each level no older than the ones below |
| History.CascadeKeepsGood | src/LSM-Tree/kvstore.cc:256 | so does every cascade |
| History.PickedReady | src/LSM-Tree/kvstore.cc:154-180 | in every store that keeps the invariants, a compaction into level 2 or deeper meets the two levels as the exact condition asks |
| History.CompactKeepsExactly | src/LSM-Tree/kvstore.cc:125-254 | a compaction leaves what a caller sees of a key unchanged if and only if it does not harm the key: no table in front has it, and its value is stale or its table is turned away and the deeper levels answer otherwise |
| History.NoTieCompact | src/LSM-Tree/kvstore.cc:125-254 | without a tie nothing is harmed; into level 1 nothing ever is |
| History.CascadeKeepsGet | src/LSM-Tree/kvstore.cc:256 | a whole cascade that harms no key changes no answer |
| Cascades.CompactShrinks | src/LSM-Tree/kvstore.cc:154-254 | a compaction never increases the number of stored pairs |
| Cascades.DueIsShallow | src/LSM-Tree/kvstore.cc:127-132 | an over-full level lies above the total number of pairs, which is why the cascade ends |
| Cascades.CascadeBounds | src/LSM-Tree/kvstore.cc:125-132 | if only one level may be over full, the cascade leaves none |
| Ties.KeepsOneExactly | src/LSM-Tree/kvstore.cc:150-254 | into the last level or not, the two levels and what is deeper answer for a key as before if and only if the key is not harmed |
| Ties.KeepsExactly | src/LSM-Tree/kvstore.cc:150-254 | a compaction gives every key the answer the two levels gave if and only if it harms none |
| Ties.MergeWinsExactly | src/LSM-Tree/Table.h:31-43 | the merge prefers the picked tables for a key if and only if no tied lower table with another value sorts after them |
| Ties.LostIs | src/LSM-Tree/kvstore.cc:259-264 | a key's new table is turned away exactly when a table of the lower level has the last picked time stamp and the first key of the chunk that holds the key |
| Ties.LostIsGone | src/LSM-Tree/kvstore.cc:259-264 | such a key leaves both levels, whatever they held for it |
| Ties.SmallestKeyLost | src/LSM-Tree/Table.h:31-36 | the smallest key of a merge is lost if a lower table with the last picked time stamp starts with it |
| LostKeys.LostKeyRun | src/LSM-Tree/kvstore.cc:27-95 | seventeen puts from the empty store and no deletion, after which a lookup of one of the keys finds nothing |
| LostKeys.StaleRun | src/LSM-Tree/kvstore.cc:27-95 | twenty-two puts from the empty store and no deletion, after which a lookup of a key put twice gives the first value and not the second |
| LostKeys.OlderWins | src/LSM-Tree/kvstore.cc:154-198 | the merge behind it: a picked table with the newer value comes before the lower table with the older one, because both have one time stamp and its first key is smaller |
| ThinLevels.ThinMerge | src/LSM-Tree/kvstore.cc:150-254 | with one long value per table a merge stamps every first key of the hull with the last picked time stamp, loses each that had it already, and keeps a short second pair behind its first key |
| Tables.GetValue | src/LSM-Tree/Table.cpp:115-140 | range check, Bloom filter and binary search together answer like a scan of the stored pairs, for any hash, and read that value's bytes only |
| Tables.Search | src/LSM-Tree/Table.cpp:96-110 | the binary search finds a key exactly when it is in the index |
| Tables.BloomExact | src/LSM-Tree/Table.cpp:67-73 | the bits of a table's filter are the four words of its keys' hashes modulo its size, and no others |
| Tables.MayHoldExact | src/LSM-Tree/Table.cpp:119-123 | a key passes the filter exactly when the bits of all four words are set |
| Tables.FromMerge | src/LSM-Tree/Table.cpp:49-94 | the merge constructor builds a well-formed table with its exact key range |
| Tables.FromMemTable | src/LSM-Tree/Table.cpp:4-47 | the flush constructor builds a well-formed table whatever a moved-from string reports |
| Tables.PackedRead | src/LSM-Tree/Table.cpp:133-138 | in a table a compaction wrote a lookup reads exactly the value and its terminator, and the last one ends at the table's size |
| SkipLists.SkipList.Get | src/LSM-Tree/SkipList.cpp:3-19 | the walk over the levels answers like a lookup in the ascending list |
| SkipLists.SkipList.Put | src/LSM-Tree/SkipList.cpp:21-68 | for any coins, put inserts or replaces one key of that list; all levels stay sorted sublists of the ones below with equal values in each tower |
| SkipLists.SkipList.InsertKey | src/LSM-Tree/SkipList.cpp:51-67 | the new tower, of any height and with a new top level if the coins say so, keeps the structure |
| SkipLists.SkipList.Replace | src/LSM-Tree/SkipList.cpp:39-49 | every node of the key's tower gets the new value |
| SkipLists.SkipList.Entries | src/LSM-Tree/SkipList.cpp:70-78 | the lowest level, from its first node on, lists the pairs in ascending order |
| SkipLists.SkipList.Clear | src/LSM-Tree/SkipList.cpp:80-102 | every node is freed exactly once; size, range and memory start over and the time stamp does not |
| SkipLists.InsertStructure | src/LSM-Tree/SkipList.cpp:55-62 | a node put into one level on top of its own node below keeps all levels sublists of one another |
| SkipLists.FlatEachOnce | src/LSM-Tree/SkipList.cpp:84-95 | the levels one after the other hold every node once |
| QueueCaches.QueueCache.constructor | src/include/cache.h:73-82 | every zone is put in its own queue and counted; with a queue for every zone, each queue has exactly its zones, in order |
| QueueCaches.QueueCache.Get | src/include/cache.h:88-97 | takes the front of the first non-empty queue in turn and moves on; size and contents lose exactly that zone |
| QueueCaches.QueueCache.Put | src/include/cache.h:99-103 | the zone joins its own queue and nothing else changes |
| QueueCaches.SameQueue | src/include/cache.h:100 | two zones share a queue if and only if they have the same parity and lie in the same block of twice the queue length |
| QueueCaches.WholeQueues | src/include/utils.h:86-87 | when every zone has a queue, the queues have room for exactly the zones |
| QueueCaches.RoundNext | src/include/cache.h:88-97 | while no queue is empty the queues are served in turn, each from its front |
| QueueCaches.TotalCounts | src/include/cache.h:84-107 | size, the sum of the queue lengths, is the number of zones held |
| QueueCaches.QueuesSuffice | src/include/utils.h:86-87 | every zone has a queue if and only if the number of queues is even or groups are single zones |
| QueueCaches.OddQueuesExample | src/include/cache.h:74-77 | three groups of two zones: zone 5 belongs to a queue that does not exist |
| Units.UnitsApart | src/femu/ftl.c:334-347 | zones with the same LUN number and group lie on the same LUNs, any other two on different ones |
| Units.QueueIsUnit | src/femu/femu.c:101-107 | with two groups and a queue as long as a plane has rows of zones, the queue of a zone is twice its LUN number plus its group |
| Units.QueuesAreUnits | src/femu/femu.c:101-107 | zones share a queue exactly when they share their LUNs, if and only if there are two groups or one row of zones |
| Units.OpenQueues | src/include/utils.h:89-91 | the zones a new manager opens come from the queues in turn, so as many of them as there are queues lie in different ones |
| Units.DeviceIs | src/femu/ftl_config.h:15-24 | the source's device is regular, has 1024 zones of 8 table slots and 8 queues, one for every zone, and meets what is assumed of a device |
| Units.DeviceQueues | src/femu/ftl_config.h:24 | on that device zones 0 and 1 lie on the same LUNs and are in different queues |
| Units.DeviceOpen | src/include/utils.h:83-91 | the sixteen zones a new manager opens on that device lie on the LUNs with an even number only |
| ZoneManager.TakeOpen | src/include/utils.h:89-91 | the open zones are taken from the queues in turn, and are no longer queued |
| ZoneManager.MemoryManager.constructor | src/include/utils.h:68-95 | the initial state satisfies the invariant: each zone open or empty, nothing mapped, nothing issued; fewer than a twentieth of the zones are empty exactly when fewer than a twentieth are not open; the open zone j is zone j / n of queue j % n, in closed form, and the first write goes to open zone 0 |
| ZoneManager.MemoryManager.WriteTable | src/include/utils.cpp:84-105 | the eviction loop ends; it evicts only while less than a twentieth of the zones is empty, each time by a sweep of the marked zones or by collecting a least live one, and not at all otherwise; then the table gets the next slot of the open zone in turn, queued at that position's worker, and the turn goes to the next open zone, round and round; the program exits only jammed: either few zones are empty and every full zone is fully live, or relocation ran out of zones, which needs fewer than 20 zones for each slot of a zone |
| ZoneManager.MemoryManager.MakeRoom | src/include/utils.cpp:85-86 | every eviction starts with less than a twentieth of the zones empty, and the loop stops as soon as that many are |
| ZoneManager.MemoryManager.TakeSlot | src/include/utils.cpp:87-97 | the slot is the next of the open zone in turn; a zone it fills is succeeded by the next one of the queues, which are left alone otherwise; the turn moves on by one, round and round |
| ZoneManager.MemoryManager.WritesInTurn | src/include/utils.cpp:97-104 | in all the commands a manager ever issued, as many queued writes in a row as there are open zones go to as many different workers, and two go to the same worker exactly when their distance is a multiple of that |
| ZoneManager.MemoryManager.PlaceTable | src/include/utils.cpp:87-104 | one slot is taken, a filled zone is replaced by an empty one, and the maps gain exactly that table; the branch for no empty zone is never reached |
| ZoneManager.MemoryManager.DeleteTable | src/include/utils.cpp:48-69 | the slot moves from the live to the deleted ones of its zone, which is marked for reset if it is full |
| ZoneManager.MemoryManager.EvictZone | src/include/utils.cpp:107-125 | either the marked zones are gone over or a full zone with the fewest live tables is reset; the deleted slots decrease in the second case |
| ZoneManager.MemoryManager.TryReset | src/include/utils.cpp:127-132 | of the marked zones exactly those less than a fifth live lose their deleted slots; room never shrinks; it never exits on a device of at least 20 zones for each slot of a zone |
| ZoneManager.MemoryManager.ResetZone | src/include/utils.cpp:134-215 | exactly when a zone is kept, reset or ends the program; a reset keeps the set of tables, moves none of another zone, leaves none in it, and raises the room by exactly its deleted slots; it reads the live tables in slot order, writes them in that order, resets the zone and issues nothing else; when room runs out the maps are still each other's inverse and no table is lost |
| ZoneManager.MemoryManager.Relocate | src/include/utils.cpp:180-205 | relocation succeeds exactly when the empty zones have a slot for every live table; the tables go, in slot order, to zones taken from the queues in turn, which they fill one after the other, and a last zone with slots left goes back to its queue |
| ZoneManager.MemoryManager.Collect | src/include/utils.cpp:165-178 | the slots collected are exactly the complement of the deleted ones, in order, and exactly they are waited for and read |
| ZoneManager.MemoryManager.FewestLive | src/include/utils.cpp:111-122 | the zone chosen has the fewest live tables of all full zones |
| ZoneManager.MemoryManager.Fetch | src/include/utils.cpp:72-75 | a pending write is waited for before its slot is read, and only then |
| ZoneManager.MemoryManager.SafeWithWorkers | src/include/utils.cpp:84-105 | whatever the manager has done, every interleaving with the workers reaches the device in order |
| ZoneState.AllocKeeps | src/include/utils.cpp:87-103 | taking a slot keeps each zone in one of open, empty and full, the maps inverse, and the mapped slots those written and not deleted |
| ZoneState.AllocIssues | src/include/utils.cpp:94-104 | the write it queues is the next of its zone and goes to the one worker that has that zone's pending writes |
| ZoneState.LiveIsCounted | src/include/utils.cpp:179-180 | a zone with a live slot counts it |
| Relocation.MidwayEnd | src/include/utils.cpp:180-213 | after the loop nothing live is left, the reset is allowed, and room grows by exactly the deleted slots |
| Relocation.LiveCount | src/include/utils.cpp:179-180 | the live slots found are as many as the zone counts, so the diagnostic never fires |
| Relocation.FullCount | src/include/utils.cpp:107-122 | zones that are neither open nor empty are full, so the collector has a zone to pick |
| Relocation.AddressBack | src/include/utils.cpp:54-57 | the zone and slot can be read back from a byte address, so distinct slots have distinct addresses |
| Relocation.EndReached | src/include/utils.h:78-80 | a zone's write pointer in bytes reaches the recorded end, its last byte, exactly when all its slots are written |
| Relocation.TablesCounted | src/include/utils.h:31-38 | the zones' valid counts add up to the number of tables mapped |
| Relocation.FullOfTables | src/include/utils.cpp:146-155 | when every full zone is fully live, there are at least as many tables as those zones have slots |
| Protocol.EveryInterleavingSafe | src/include/threadPool.h:46-99 | for every schedule of a disciplined main thread with its FIFO workers each write reaches the device at its zone's write pointer, reads hit written slots and resets full zones |
| Protocol.StepSafe | src/include/threadPool.h:46-65 | every step keeps all pending writes of a zone in one worker's line, in slot order, from the device's pointer to the issued count |
| Protocol.NeverStuck | src/include/threadPool.h:52-63 | while commands are left, the main thread or some worker can move |
| Protocol.WorkersFinish | src/include/threadPool.h:52-63 | each worker step reduces the work left, so every wait ends |
| PageCaches.LargerHoldsMore | src/include/cache.h:22-64 | under the same lookups with insertion and deletions, the list of a smaller cache is always a prefix of a larger one's |
| PageCaches.LRUCache.Put | src/include/cache.h:37-50 | the page comes to the front, the oldest is dropped exactly when a new page meets a full list, and list and index agree |
| PageCaches.LRUCache.Get | src/include/cache.h:26-35 | a hit moves the page to the front, a miss changes nothing |
| PageReads.MissedIntervals | src/include/utils.cpp:12-37 | the intervals are ordered, separated and cover exactly the pages missed in turn; the cache ends as after all lookups |
| PageReads.MaximalRuns | src/include/utils.cpp:24-37 | such intervals are the only ones: the maximal runs of missed pages |
| PageReads.FewerMisses | src/include/utils.cpp:12-37 | a larger cache never misses a page a smaller one has |
| PageReads.ValueCovered | src/include/utils.cpp:12-15 | every byte of a value lies on a page the lookup goes through |
| PageReads.LookupPages | src/include/utils.cpp:12-15 | the pages of a lookup are exactly those with a byte of the value, and the one that starts where the value ends if one does; the first holds the value's first byte |
| PageReads.LookUp | src/include/utils.cpp:7-42 | a lookup reads, in separated intervals, exactly those of these pages that the cache does not have in their turn |
| PageReads.LastPageExact | src/include/utils.cpp:12-15 | the last page is needless exactly when the value ends at a page boundary, and beyond the table exactly when it ends with the table |
| PageReads.LastPageExample | src/include/utils.cpp:12-15 | a table of exactly 64 MiB that a compaction can write, with 16 KiB pages: the lookup of its value goes through the first page of the next slot |
| PageReads.StaysOnDevice | src/include/utils.cpp:12-15 | the pages of a lookup stay on the device if and only if the slot is not the last one or the value ends before its table does |
| PageReads.AlignedRange | src/include/utils.cpp:76-80 | a table read asks for whole pages that cover the value and stay inside the table, no page too many in front, and behind at most the one that starts where the value ends |
| PageReads.DropPages | src/include/utils.cpp:61-65 | after a deletion no page of the table is cached, nor the page after it; all other pages stay, in their order |
| Geometries.LocateBack | src/femu/ftl.c:334-347 | zone and page number can be read back from the physical page: no two zones share a page |
| Geometries.LocateOnto | src/femu/ftl.c:186-215 | every physical page belongs to a zone: the zones tile the flash |
| Geometries.NextPage | src/femu/ftl.c:24-45 | the stepwise pointer goes from page n of the closed form to page n + 1, and reaches the last page exactly at the zone's capacity |
| Geometries.Derived | src/femu/ftl.c:186-215 | zones per LUN and in all come out as rows times groups times LUNs |
| Geometries.BlockStartIs | src/femu/ftl.c:207-211 | a zone starts at a multiple of its height in blocks |
| Flash.Ftl.constructor | src/femu/ftl.c:186-215 | every zone starts at page 0 of the closed form with its write pointer in step |
| Flash.Ftl.AdvanceWritePointer | src/femu/ftl.c:24-45 | the pointer moves to the next page of the closed form; FULL holds exactly from the capacity on |
| Flash.Ftl.Write | src/femu/ftl.c:445-498 | the pages programmed are the next ones of the zone; a faultless write of whole pages puts each logical page in its place and keeps the sector pointer in step; each LUN is busy for exactly its pages |
| Flash.Ftl.Read | src/femu/ftl.c:401-440 | stepping across zones, a read visits for each logical page exactly its physical page |
| Flash.Ftl.Reset | src/femu/ftl.c:349-399 | a FULL zone is reset and its blocks erased, each LUN serving one erase per block from the clock readings on, others are left alone; a zone that is not FULL is untouched |
| Flash.Ftl.AdvanceStatus | src/femu/ftl.c:240-308 | one command makes a LUN available at the maximum of its own and the start time plus the latency; a start time of 0 is what the clock reads |
| Flash.ProperWrite | src/femu/ftl.c:462-498 | a write of whole pages at the pointer and within the zone covers consecutive pages that all fit |
| Flash.TouchedPages | src/femu/ftl.c:478-479 | the pages of a request are exactly those of its sectors |
| Flash.AtNext | src/femu/ftl.c:424-436 | the read iterator stands at the next logical page's place after each step, also into the next zone |
| Flash.ColumnsAll | src/femu/ftl.c:378-398 | the loop over a group's channels makes exactly the zone's LUNs serve an erase for each of their blocks |
| Blocks.ZoneBlocksExact | src/femu/ftl.c:378-398 | the blocks erased are those of the zone's pages, each once, and no block of another zone |
| Latency.IdleRun | src/femu/ftl.c:478-497 | n pages of one zone with its LUNs idle take exactly ceil(n / chips per group) program latencies |
| Latency.RunShare | src/femu/ftl.c:334-347 | how many pages of a run each channel gets, in closed form |
| Latency.TimedNext | src/femu/ftl.c:270-279 | a LUN's available time is the maximum of its own and the start time plus its page count times the latency |
| Dispatch.WriteSlot | src/femu/femu.c:11-40 | the request for a table at the next slot of its zone has no fault, programs that slot's pages, fills the zone exactly at its last slot, changes the time of no LUN outside the zone's group, and takes the known time when idle |
| Dispatch.ReadSlot | src/femu/femu.c:11-40 | reading a slot visits the pages it was written to |
| Dispatch.ResetSlots | src/femu/femu.c:11-40 | resetting a zone with all slots written erases its blocks |
| Dispatch.PageHasZone | src/femu/ftl.c:7-18 | the zone index of a page passes the device's check if and only if the page is before the end of the device |
| Dispatch.TablesApart | src/femu/ftl.c:334-347 | tables in different slots share no physical page |
| Dispatch.Replay | src/include/utils.cpp:84-214 | every interleaving of a disciplined main thread with its workers runs on the flash without a fault, each event visiting the pages of its slot or erasing the blocks of its zone, and ends where the protocol says |
| Dispatch.ReplayManager | src/include/utils.cpp:84-214 | the commands a zone manager has issued run on a new flash, in every interleaving with its workers, without a fault; once all is at rest each zone has written exactly the pages of the slots the manager counts |
| Dispatch.HeldApart | src/include/utils.cpp:102-103 | any two tables the manager holds share no physical page |

## Left out

- Stores.RunsLikeAMap: assumes that no compaction into level 2 or deeper harms a key; the code does not ensure it, History.CompactKeepsExactly gives the exact condition for each compaction, and LostKeys.LostKeyRun and LostKeys.StaleRun break it.
- KVStores.Session: inherits that condition.
- KVStores.KVStore.Get: waits for and reads the table but does not go through the page cache; PageReads models that part on its own.
- KVStores.KVStore.WriteTables: writes the tables after the merge has finished, while the source writes each as soon as it is full; the reads all come before and the deletions after in both.
- Flash.Ftl.Read: gives the latency it computes, which the source then discards.
- Freshness of cached pages after relocation: the collector does not touch the page cache.
- Page data: the backend is disabled and values live with the table, so placement is modelled and not bytes on flash.
- MurmurHash3, workload files, statistics, progress bars, the read thread pool of the tests, real time and busy waiting.
- Mutexes, condition variables, futures and CPU affinity, apart from a wait ending once its write is done; worker shutdown.
- The `stop` flag and the destructors, which come after every operation.
- 32-bit truncation of time stamps, table numbers and data lengths, which needs more flushes than a device can hold.
- Garbage-collection thresholds, `busy`, erase counts and channel times, and the allocation of the NAND tree.
- Two zones of a LUN are told apart by LUN number and block only: the plane is always 0.
