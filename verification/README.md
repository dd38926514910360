# StoneDB memtable: a verified model

StoneDB keeps recent writes in memory, in a table that stands on a skiplist, which stands on a bump arena. This project
models that write path and proves what it promises.

* **Keys.** An internal key is the user key, seven big-endian bytes of the complemented sequence number, and a type
  byte (`ByteStrings`, `Comparators`, `InternalKeys`).
* **Arena and node layout.** Nodes are raw bytes: a 24-byte header, a tower of little-endian words, the key, the value.
  `NodeLayout` says what the bytes of one node mean, `Arenas` is a class over a real byte array whose bytes stand for an
  abstract heap of nodes, `ArenaProtocol` is the allocator's compare-and-swap loop with any number of threads.
* **The skiplist, concurrently.** `Protocol` is a transition system. A step is one atomic load, store or compare-and-swap
  of one call, followed by the local computation up to the next one; any number of puts and seeks are in flight, scheduled
  arbitrarily, and weak compare-and-swaps may fail spuriously. A dereference of something that is not a node, an index
  past a tower and a failing assertion are steps to a fault state, which is proved unreachable. The single-writer mode
  with concurrent readers is the same system with a flag. `ProtocolInvariant` states the invariant, `ProtocolRuns.RunInv`
  proves it for all runs, and `ProtocolTheorems` draws the conclusions: linearizability to an insert-if-absent sorted
  map, sorted chains, one node per key, a bound on failed compare-and-swaps. `Scans` adds traversals among writers,
  `ProtocolRanks` and `ProtocolProgress` bound the steps of every call under every schedule, `ProtocolFailures` its failed
  compare-and-swaps, `ProtocolPanics` says when a put may give up, `ProtocolBacks` says when a
  back pointer can be trusted in the middle of a put (`EarlyBacks` reaches the case where it cannot), `BackScans` and
  `CallScans` follow backward traversals among writers, and `ProtocolBytes` carries the whole system down to the arena's
  bytes.
* **The skiplist, single writer.** `SkipLists` and `Iterators` are classes over the byte arena with the source's loops.
  `ListShape` is the invariant between and during puts, `SequentialRuns` compares whole runs with the map of `MapSpec`,
  whose calls and right answers are also the specification of the concurrent list.
* **The memtable.** `MemTables` is the class, `Versions` the meaning: the history of writes, replayed last-writer-wins.

`Levels`, `Chains` and `Seeks` are shared by the concurrent and the single-writer list. A level is described by the set
of offsets on it; that set is tied to memory by proving that the walk along the stored links visits exactly it.

Conventions. The list is generic in a comparator assumed to be a total order in which only identical keys are equal; the
assumption is discharged for both comparators. Random heights are parameters. A panic of the arena is an outcome.

Two of the source's remarks do not hold of its code, and the model follows the code. The comparator does not quite mirror
`InternalKey`'s `Ord` (key.rs:149-151): `Ord` ignores the type byte, the comparator does not. The search key does not sort
ahead of every real version (memtable.rs:122-124): a tombstone at MAX_SEQUENCE sorts before it. Both are stated as
if-and-only-if lemmas.

## Model

| member | source | states |
|---|---|---|
| `ProtocolRuns.RunInv` | crates/stonedb-core/src/skiplist/mod.rs:244-564 | For every schedule of any number of puts and seeks, one atomic access per step, in both write modes and with spurious weak-CAS failures: every state satisfies the whole invariant (levels in shape, list height, splices, node ownership, log). |
| `ProtocolTheorems.NoFaults` | crates/stonedb-core/src/skiplist/mod.rs:300-347 | No call ever dereferences an offset that is not a node or indexes past a tower; `assert_eq!(i, 0)` never fails; the `prev[i] == 0` search is never entered. |
| `ProtocolTheorems.LevelsAreSortedChains` | crates/stonedb-core/src/skiplist/mod.rs:300-372 | In every reachable state the walk of each level from the head is finite, unique and strictly sorted, and each level is a subsequence of the one below. |
| `ProtocolTheorems.HeightBoundsLinks` | crates/stonedb-core/src/skiplist/mod.rs:280-297 | In every reachable state the list height is at least the height of every linked node, also of one whose upper levels are still to come and after abandoned inserts; above it the head's links are 0. |
| `ProtocolTheorems.RunsOnlyGrow` | crates/stonedb-core/src/skiplist/mod.rs:244-378 | However a run continues, linked nodes stay linked with the same key and value, the list height does not fall, the history is only extended, and answers already settled stand: no linked write is lost. |
| `ProtocolTheorems.LogIsSequentialHistory` | crates/stonedb-core/src/skiplist/mod.rs:244-378 | Linearizability, legality: the calls in the order they took effect form a legal sequential history of the insert-if-absent sorted map, and the entries found by walking level 0 in memory are exactly the map that history ends in. |
| `ProtocolTheorems.AnswersComeFromTheHistory` | crates/stonedb-core/src/skiplist/mod.rs:244-378 | Linearizability, completeness: each answered call is in that history exactly once, with the answer it returns. |
| `ProtocolTheorems.HistoryRespectsRealTime` | crates/stonedb-core/src/skiplist/mod.rs:244-378 | Linearizability, real time: a call answered before another one starts precedes it in the history, whether or not that other one has answered yet. |
| `ProtocolTheorems.PutAnswerMeans` | crates/stonedb-core/src/skiplist/mod.rs:266-272 | What an answered put tells its caller, among any number of writers: None if and only if the key has the value given right after the put's turn in the history, otherwise the pair given. |
| `ProtocolTheorems.GetIsExactLookup` | crates/stonedb-core/src/skiplist/mod.rs:411-425 | `get` among writers, which is `lower_bound` and a byte comparison, is exact lookup in the map at the call's turn in the history; `contains` (mod.rs:567-569) asks whether it found a value. |
| `ProtocolTheorems.AnswersAreExactWhenGiven` | crates/stonedb-core/src/skiplist/mod.rs:428-564 | The single memory access that settles a call's answer (the level-0 CAS, the load that meets an equal key, a seek's last load) is an instant at which the answer is exact for the map level 0 holds, in all four modes of `find_near`, for `lower_bound` and for `find_last`, even while towers are half linked. |
| `ProtocolTheorems.RacersLinkOneNode` | crates/stonedb-core/src/skiplist/mod.rs:331-344 | After any number of racing puts of a key exactly one level-0 node carries it; an answered racer's node is linked on all levels of its tower if its turn in the history inserted the key, and on none otherwise. |
| `ProtocolTheorems.QuietTowersAreComplete` | crates/stonedb-core/src/skiplist/mod.rs:300-372 | When no put is under way, a stored node is linked on level j exactly when j is at most its height: racing never leaves a tower half built. |
| `ProtocolTheorems.OutOfMemoryLeavesNoTrace` | crates/stonedb-core/src/skiplist/mod.rs:277 | A put that runs out of arena has no node and never enters the history. |
| `ProtocolPanics.PutsPanicOnlyWhenFull` | crates/stonedb-core/src/skiplist/arena.rs:63-85 | In every run of concurrent puts, a put that panicked for lack of room has a node that does not fit in what is left: losing the race for the bump pointer is never a reason, it retries. |
| `ProtocolPanics.HeightIsSomeDraw` | crates/stonedb-core/src/skiplist/mod.rs:280-297 | The list height is always 0 or the height drawn by some put that has allocated: it is raised to cover a node and no further. |
| `ProtocolFailures.FailuresArePaidByLinks` | crates/stonedb-core/src/skiplist/mod.rs:248-346 | Progress counted on the run itself: from any moment at which a put has not determined its splice on a level, the splice CASes it fails there plus its own link are at most the nodes the level gains. |
| `ProtocolTheorems.FailuresArePaidFor` | crates/stonedb-core/src/skiplist/mod.rs:302-346 | Per writer and level, failed splice CASes plus the writer's own link never exceed the links made on that level since the writer first determined its splice, including levels above the list height it observed; `links` counts exactly the nodes added. |
| `ProtocolProgress.CallsFinish` | crates/stonedb-core/src/skiplist/mod.rs:244-564 | Wait-freedom for finitely many calls: under any schedule, in both modes, a call that has had more than 20n^2 + 102n + 148 turns (n one more than the number of calls started; the only turns not counted are those in which the weak CAS on the list height fails although the values match) has answered or met the arena's panic. |
| `ProtocolProgress.AloneCallsFinish` | crates/stonedb-core/src/skiplist/mod.rs:244-564 | From every reachable state a call left alone finishes within that bound. |
| `ProtocolProgress.TurnsArePaidFor` | crates/stonedb-core/src/skiplist/mod.rs:244-564 | The turns a call has had and the rank of what it still has to do never exceed the bound. |
| `ProtocolRanks.LimitIsQuadratic` | crates/stonedb-core/src/skiplist/mod.rs:244-564 | The bound, written out. |
| `ProtocolBacks.PrevIsPredecessorIff` | crates/stonedb-core/src/skiplist/mod.rs:356-370 | Single-writer mode, at every moment of every run with concurrent readers: a stored node's back pointer leads to its level-0 predecessor if and only if no put has stored that back pointer and not yet linked its own node; otherwise it leads to a node that is not on level 0. |
| `ProtocolBacks.QuietPrevIsPredecessor` | crates/stonedb-core/src/skiplist/mod.rs:356-370 | With no put under way every stored node's back pointer leads to its level-0 predecessor. |
| `EarlyBacks.EarlyBackIsReached` | crates/stonedb-core/src/skiplist/mod.rs:356-370 | For any order, any two keys and any arena with room, a run that stops a put between its stores: a stored node's back pointer leads to a node that is not stored. |
| `BackScans.BackAndForth` | crates/stonedb-core/src/skiplist/mod.rs:653-680 | Single-writer mode, at every moment: the node a stored node's back pointer leads to (the head for the first) links forward to it again, except exactly when a put has claimed it and not stored its own node's link yet; then that link is 0, and `next` after `prev` ends the iteration although entries follow. |
| `BackScans.BackScansAreFaithful` | crates/stonedb-core/src/skiplist/mod.rs:672-700 | Single-writer mode, `seek_to_last` and repeated `prev`, one load each at any successive moments of any run: strictly descending, no entry stored at the start is missed, and only stored nodes or a claiming put's node are shown. |
| `BackScans.OneClaimerAtMost` | crates/stonedb-core/src/skiplist/mod.rs:356-370 | There is at most one such claiming node, and it is not stored yet. |
| `CallScans.CallScansAreFaithful` | crates/stonedb-core/src/skiplist/mod.rs:662-671 | Among any number of writers, `seek_to_last` and then `find_near(k, true, false)` for each key reached: strictly descending, every entry stored at the first call's turn is shown, and only entries stored at the last call's turn. |
| `ProtocolSteps.SearchStep` | crates/stonedb-core/src/skiplist/mod.rs:256-274 | One load of the first descent keeps everything, records a splice that is right at that instant, and on an equal key takes effect there. |
| `ProtocolSteps.ReadHeightStep` | crates/stonedb-core/src/skiplist/mod.rs:247-258 | Reading the list height sets up splices for the unread levels above it that are right, or will be seen to have failed. |
| `ProtocolPutSteps.AllocCasStep` | crates/stonedb-core/src/skiplist/arena.rs:72-84 | Winning the bump creates a node nobody can reach; everything else is unchanged. |
| `ProtocolPutSteps.RaiseStep` | crates/stonedb-core/src/skiplist/mod.rs:280-294 | Each outcome of the weak CAS on the list height, spurious failure included, keeps everything; the height only rises. |
| `ProtocolPutSteps.SwingStep` | crates/stonedb-core/src/skiplist/mod.rs:316-346 | The CAS on the predecessor's link: on success the level gains exactly the new node, on level 0 the put takes effect; on failure a link by another call is accounted for. |
| `ProtocolPutSteps.ResearchStep` | crates/stonedb-core/src/skiplist/mod.rs:331-347 | Searching again after a failed CAS finds a fresh splice, or on level 0 the winner's node, and then answers for that instant. |
| `ProtocolSeekSteps.FindNearStep` | crates/stonedb-core/src/skiplist/mod.rs:488-539 | Each load of `find_near` keeps its position valid; the last one answers exactly. |
| `ProtocolSeekSteps.LowerBoundStep` | crates/stonedb-core/src/skiplist/mod.rs:433-470 | Each load of `lower_bound` keeps its position valid; the last one answers exactly. |
| `Scans.ConcurrentScansAreFaithful` | crates/stonedb-core/src/skiplist/mod.rs:572-587 | A forward traversal (`seek_to_first`, then `next`) whose loads happen at any successive moments of any run is strictly ascending, misses no entry stored when it began and shows none that is not stored when it ends; so `len` lies between the sizes at its start and end. |
| `Scans.NextIsExact` | crates/stonedb-core/src/skiplist/mod.rs:654-659 | At every moment of every run the link of a stored node leads to the entry with the next greater key, or is 0 when there is none. |
| `ProtocolBytes.BytesStandForHeap` | crates/stonedb-core/src/skiplist/mod.rs:51-157 | After every run, under every schedule, the bytes produced by the steps' own stores, from any initial bytes, stand for the protocol's heap: every node reads back with the key, value, links and back pointer the protocol works with (lengths below 2^32). |
| `ProtocolBytes.SwingOnBytes` | crates/stonedb-core/src/skiplist/mod.rs:317-327 | The compare-and-swap decided and done on the bytes of the tower word is the one decided and done on the heap. |
| `Levels.LevelLink` | crates/stonedb-core/src/skiplist/mod.rs:316-328 | Linking a node between the two neighbours its own link agrees with keeps the level sorted, closed and complete. |
| `Levels.NoKeyBetween` | crates/stonedb-core/src/skiplist/mod.rs:386-409 | Between the two nodes `find_splice_for_level` returns no key of the level lies. |
| `Chains.LevelIsSortedChain` | crates/stonedb-core/src/skiplist/mod.rs:386-409 | The links of a level spell out exactly its nodes, once each, in key order, and end. |
| `Chains.ContentsLink` | crates/stonedb-core/src/skiplist/mod.rs:316-328 | Linking on level 0 adds exactly the node's pair, whose key was absent. |
| `ArenaProtocol.RunInv` | crates/stonedb-core/src/skiplist/arena.rs:48-87 | Every state of every interleaving of allocations keeps the arena's invariant. |
| `ArenaProtocol.RegionsAreAlignedAndInside` | crates/stonedb-core/src/skiplist/arena.rs:48-87 | Every returned region is 8-aligned, starts at 8 or later, holds the requested size and ends within the capacity. |
| `ArenaProtocol.RegionsAreDisjoint` | crates/stonedb-core/src/skiplist/arena.rs:48-87 | Regions of different allocations never overlap. |
| `ArenaProtocol.RegionsTileTheArena` | crates/stonedb-core/src/skiplist/arena.rs:91-118 | The granted regions tile [8, len()) in grant order, one per finished allocation; len() is 8 plus their rounded sizes, or 0 before the first. |
| `ArenaProtocol.FailedCasMeansProgress` | crates/stonedb-core/src/skiplist/arena.rs:72-85 | However a run continues, granted regions stay, and if the pointer no longer has the value an allocation read, another allocation was granted in between. |
| `ArenaProtocol.PanicsOnlyWhenFull` | crates/stonedb-core/src/skiplist/arena.rs:63-85 | In every run an allocation panics only when its rounded size does not fit behind the bump pointer; a lost CAS leads to a retry. |
| `ArenaProtocol.AloneAllocFinishes` | crates/stonedb-core/src/skiplist/arena.rs:54-87 | From every reachable state an allocation left alone is over within three steps, and succeeds, at the bump pointer, if and only if it fits. |
| `NodeSizes.SizeMeans` | crates/stonedb-core/src/skiplist/mod.rs:57-61 | A node takes a 24-byte header, one word for each level of its own tower and the two byte strings, rounded up to the next multiple of 8. |
| `NodeLayout.NodeWritten` | crates/stonedb-core/src/skiplist/mod.rs:139-157 | What the raw writes leave behind for keys and values of any length: lengths modulo 2^32, the height, a zero back pointer, a zero tower, both byte strings in place. |
| `NodeLayout.WrittenNodeEncodes` | crates/stonedb-core/src/skiplist/mod.rs:139-157 | When both lengths fit in 32 bits, the accessors read back exactly the key, value and height given, with zeroed links. |
| `NodeLayout.ReadBackIffLengthsFit` | crates/stonedb-core/src/skiplist/mod.rs:117-132 | The accessors return the key and value given if and only if both lengths are below 2^32. |
| `NodeLayout.WriteNodeOutside` | crates/stonedb-core/src/skiplist/mod.rs:139-157 | Writing a node changes no byte outside it. |
| `NodeLayout.EncodesSetNext` | crates/stonedb-core/src/skiplist/mod.rs:111-113 | A tower store changes that one link of the node and nothing else that its bytes encode. |
| `NodeLayout.EncodesSetPrev` | crates/stonedb-core/src/skiplist/mod.rs:359-362 | A back-pointer store changes the back pointer and nothing else. |
| `NodeLayout.EncodesFrame` | crates/stonedb-core/src/skiplist/mod.rs:63-132 | What is read of a node depends on its own bytes only. |
| `Arenas.NodeAdded` | crates/stonedb-core/src/skiplist/mod.rs:139-157 | Writing a node at the bump pointer adds it to the heap that the bytes stand for and disturbs no other node. |
| `Arenas.NodeChanged` | crates/stonedb-core/src/skiplist/mod.rs:111-113 | A store inside one node leaves every other node's reading unchanged, so the bytes stand for the heap with that node replaced. |
| `Arenas.Arena.Alloc` | crates/stonedb-core/src/skiplist/arena.rs:48-87 | Single-threaded bump: the offset handed out and the new pointer, or the panic, exactly when the rounded size does not fit. |
| `Arenas.Arena.AllocNode` | crates/stonedb-core/src/skiplist/mod.rs:139-157 | Over the real byte array: the heap gains exactly the new node at the bump pointer, or nothing when it does not fit. |
| `Arenas.Arena.SetNext` | crates/stonedb-core/src/skiplist/mod.rs:111-113 | Over the real byte array: the heap changes in that link only. |
| `Arenas.Arena.SetPrev` | crates/stonedb-core/src/skiplist/mod.rs:359-362 | Over the real byte array: the heap changes in that back pointer only. |
| `Arenas.Arena.NextOffset` | crates/stonedb-core/src/skiplist/mod.rs:105-107 | The bytes of the tower word read back as the heap's link. |
| `Arenas.Arena.PrevOffset` | crates/stonedb-core/src/skiplist/mod.rs:92-94 | The bytes of the back pointer read back as the heap's. |
| `Arenas.Arena.Key` | crates/stonedb-core/src/skiplist/mod.rs:117-122 | The inline bytes read back as the heap node's key. |
| `Arenas.Arena.Value` | crates/stonedb-core/src/skiplist/mod.rs:126-132 | The inline bytes read back as the heap node's value. |
| `Arenas.Arena.Len` | crates/stonedb-core/src/skiplist/arena.rs:91-118 | The pointer is 8 plus the rounded sizes of all nodes, each once, or 0 while there are none. |
| `SkipLists.SkipList.WithCapacity` | crates/stonedb-core/src/skiplist/mod.rs:192-209 | An empty, well-formed list with the head at offset 8 and 192 bytes in use, or the panic, exactly below that capacity or above the largest the allocator accepts. |
| `SkipLists.SkipList.FindSplice` | crates/stonedb-core/src/skiplist/mod.rs:386-409 | The two neighbours of an absent key on the level, or the node holding the key twice over; never offset 0. |
| `SkipLists.SkipList.Search` | crates/stonedb-core/src/skiplist/mod.rs:253-274 | Neighbours of the key on all twenty levels, those above the list height included, or a node that already holds it. |
| `SkipLists.SkipList.LinkLevel` | crates/stonedb-core/src/skiplist/mod.rs:348-371 | The stores of one turn, in the source's order (back pointers first), change exactly those words. |
| `ListShape.LinkTurn` | crates/stonedb-core/src/skiplist/mod.rs:348-371 | One turn of the linking loop: this level gains the node, the other levels and the neighbours found for them stay right, and back pointers still mirror level 0. |
| `SkipLists.SkipList.Put` | crates/stonedb-core/src/skiplist/mod.rs:244-378 | Refines insert-if-absent for every height: None if and only if the key has the value given afterwards, otherwise the pair given; exact new contents; the new node with one link per level drawn; panic exactly when the key is absent and its node does not fit; nothing changed on a duplicate or a panic, old nodes never altered. |
| `SkipLists.SkipList.LowerBound` | crates/stonedb-core/src/skiplist/mod.rs:428-471 | The entry with the least key at or after the argument, None exactly when there is none. |
| `SkipLists.SkipList.GetWithKey` | crates/stonedb-core/src/skiplist/mod.rs:417-425 | Exact map lookup: the byte-equality check agrees with the comparator. |
| `SkipLists.SkipList.Get` | crates/stonedb-core/src/skiplist/mod.rs:412-414 | Exact map lookup of the value. |
| `SkipLists.SkipList.Has` | crates/stonedb-core/src/skiplist/mod.rs:567-569 | True exactly for stored keys. |
| `SkipLists.SkipList.FindNear` | crates/stonedb-core/src/skiplist/mod.rs:483-540 | Terminates at the nearest entry on the side and with the equality the flags ask for, 0 exactly when none exists. |
| `SkipLists.SkipList.FindLast` | crates/stonedb-core/src/skiplist/mod.rs:543-564 | The node with the greatest key, 0 exactly for the empty list. |
| `SkipLists.SkipList.Len` | crates/stonedb-core/src/skiplist/mod.rs:572-587 | The number of stored entries. |
| `SkipLists.SkipList.MemSize` | crates/stonedb-core/src/skiplist/mod.rs:595-597 | 192 plus, for each node that holds an entry, its header, its own tower words, key and value, rounded up to 8: single-writer mode leaves no arena garbage, whatever the run of puts. |
| `ListShape.PrevIsInverseOfNext` | crates/stonedb-core/src/skiplist/mod.rs:356-370 | Between puts `prev` is the exact inverse of the level-0 link, in both directions, for every node but the head. |
| `Iterators.IterRef.Next` | crates/stonedb-core/src/skiplist/mod.rs:654-659 | From an entry to the entry with the next greater key, or off the end. |
| `Iterators.IterRef.Prev` | crates/stonedb-core/src/skiplist/mod.rs:672-679 | By back pointer: to the entry with the next smaller key, or off the front. |
| `Iterators.IterRef.PrevBySearch` | crates/stonedb-core/src/skiplist/mod.rs:666-670 | By `find_near(k, true, false)`: the same promise. |
| `Iterators.PrevRoutesAgree` | crates/stonedb-core/src/skiplist/mod.rs:662-680 | The back pointer and `find_near(k, true, false)` lead to the very same node. |
| `Iterators.IterRef.Seek` | crates/stonedb-core/src/skiplist/mod.rs:683-685 | To the first entry at or after the target. |
| `Iterators.IterRef.SeekForPrev` | crates/stonedb-core/src/skiplist/mod.rs:688-690 | To the last entry at or before the target. |
| `Iterators.IterRef.SeekToFirst` | crates/stonedb-core/src/skiplist/mod.rs:693-695 | To the entry with the least key. |
| `Iterators.IterRef.SeekToLast` | crates/stonedb-core/src/skiplist/mod.rs:698-700 | To the entry with the greatest key. |
| `Iterators.CollectForward` | crates/stonedb-core/src/skiplist/mod.rs:654-695 | `seek_to_first` and `next` yield all entries, in ascending key order, once each. |
| `Iterators.CollectBackward` | crates/stonedb-core/src/skiplist/mod.rs:662-700 | `seek_to_last` and `prev` yield them in descending order. |
| `Iterators.BackwardIsForwardReversed` | crates/stonedb-core/src/skiplist/mod.rs:653-700 | The backward traversal is the reverse of the forward one. |
| `MapSpec.InsertMeans` | crates/stonedb-core/src/skiplist/mod.rs:238-244 | Insert-if-absent spelled out: which answer goes with which map afterwards, and that nothing else changes. |
| `MapSpec.SeekModes` | crates/stonedb-core/src/skiplist/mod.rs:473-483 | The four modes of `find_near` spelled out in terms of the comparator. |
| `MapSpec.SeekNothing` | crates/stonedb-core/src/skiplist/mod.rs:473-483 | When each of the four modes finds nothing. |
| `MapSpec.LegalIsUnique` | crates/stonedb-core/src/skiplist/mod.rs:244-564 | Each call has one right answer on a given map. |
| `MapSpec.NearestUnique` | crates/stonedb-core/src/skiplist/mod.rs:428-540 | A seek has one right answer, so `lower_bound` and `seek` agree on every key. |
| `MapSpec.ListingUnique` | crates/stonedb-core/src/skiplist/mod.rs:653-695 | A map has one iteration order. |
| `SequentialRuns.RunCalls` | crates/stonedb-core/src/skiplist/mod.rs:190-607 | Every reply in a run of puts, lookups, seeks, counts and traversals is right for the insert-if-absent map after the requests before it, for an arbitrary sequence of heights; with room for the tallest draws no height can make the run panic. |
| `SequentialRuns.RightRunsAgree` | crates/stonedb-core/src/skiplist/mod.rs:190-607 | Replies that are right for the same requests on the same map are the same. |
| `SequentialRuns.HeightsDoNotMatter` | crates/stonedb-core/src/skiplist/mod.rs:222-230 | Two lists with equal contents, serving the same requests under two sequences of height draws, reply alike as far as both get; with room in both arenas they reply to everything and end with equal contents. |
| `InternalKeys.DecodeNew` | crates/stonedb-core/src/key.rs:25-77 | Decoding an encoded key gives back its user key, sequence and type. |
| `InternalKeys.NewDecode` | crates/stonedb-core/src/key.rs:54-82 | Any byte string with a full trailer and a legal type byte is the encoding of what it decodes to. |
| `InternalKeys.DecodeAny` | crates/stonedb-core/src/key.rs:54-82 | Any byte string with a full trailer decodes to parts whose encoding is the string itself up to the type byte, where 1 means Value and every other byte Delete. |
| `InternalKeys.CompareKeyIsTotalOrder` | crates/stonedb-core/src/key.rs:139-175 | The comparator is a total order on all byte strings, those shorter than a trailer included, and Equal only on identical bytes. |
| `InternalKeys.EncodingPreservesOrder` | crates/stonedb-core/src/key.rs:164-175 | On encoded keys of any lengths the comparator is exactly: user key ascending, sequence descending, Delete before Value. |
| `InternalKeys.EncodedOrder` | crates/stonedb-core/src/key.rs:164-175 | The same order without recursion: user keys as byte slices, a prefix before its extensions, then larger sequence first, then Delete before Value. |
| `InternalKeys.SplitMeans` | crates/stonedb-core/src/key.rs:139-145 | The trailer is the last eight bytes; strings shorter than that are all user key. |
| `InternalKeys.CompareKeyMeans` | crates/stonedb-core/src/key.rs:166-175 | On arbitrary strings, short ones included: the parts before the trailer decide as slices, then the trailers do; `same_key` compares the parts before the trailer. |
| `InternalKeys.OrdMeans` | crates/stonedb-core/src/key.rs:108-123 | `InternalKey`'s `Ord` spelled out: user keys as slices, then larger sequence first, Equal whatever the types. |
| `InternalKeys.OrdAgreesUnlessOnlyTypeDiffers` | crates/stonedb-core/src/key.rs:108-123 | `InternalKey`'s `Ord` and the comparator agree if and only if the keys do not differ in the type alone. |
| `InternalKeys.SearchKeyBoundary` | crates/stonedb-core/src/key.rs:50-52 | A version sorts before its user key's search key if and only if it is a tombstone at MAX_SEQUENCE. |
| `InternalKeys.SameKeyIsSameUserKey` | crates/stonedb-core/src/key.rs:178-180 | On encoded keys `same_key` is equality of user keys. |
| `ByteStrings.LexMeans` | crates/stonedb-core/src/skiplist/key.rs:40-44 | The comparison is slice order: a proper prefix is Less, otherwise the first differing byte decides. |
| `ByteStrings.BigEndianOrder` | crates/stonedb-core/src/key.rs:28-29 | Lexicographic order of fixed-width big-endian numbers is numeric order. |
| `Comparators.BytewiseIsTotalOrder` | crates/stonedb-core/src/skiplist/key.rs:40-50 | The bytewise comparator is slice order and meets the list's assumption. |
| `MemTables.MemTable.WithCapacity` | crates/stonedb-core/src/memtable.rs:28-35 | An empty table whose first sequence number is 1, or the panic for the same capacities. |
| `MemTables.MemTable.Put` | crates/stonedb-core/src/memtable.rs:63-80 | The history gains exactly this value under the next number; overflow and arena panic happen exactly when stated and still use up the number. |
| `MemTables.MemTable.Delete` | crates/stonedb-core/src/memtable.rs:83-98 | The history gains exactly this tombstone under the next number, with the same failures. |
| `MemTables.MemTable.Lookup` | crates/stonedb-core/src/memtable.rs:125-143 | One seek returns exactly the newest visible version of the key, with its value, sequence and type. |
| `MemTables.MemTable.Get` | crates/stonedb-core/src/memtable.rs:102-107 | The value of the key's last visible write, None for a tombstone and for a key never written; visible are all writes but a last tombstone at MAX_SEQUENCE. |
| `MemTables.MemTable.GetEntry` | crates/stonedb-core/src/memtable.rs:115-117 | The newest version, tombstones included, according to the replay, with the same exception. |
| `MemTables.MemTable.Has` | crates/stonedb-core/src/memtable.rs:110-112 | True exactly for keys with a version, tombstones included, with the same exception. |
| `MemTables.MemTable.Len` | crates/stonedb-core/src/memtable.rs:53-55 | The number of successful writes. |
| `MemTables.MemTable.ApproximateSize` | crates/stonedb-core/src/memtable.rs:38-40 | The encoded-key and value bytes of all entries in the list. |
| `MemTables.RunCommands` | crates/stonedb-core/src/memtable.rs:63-98 | After a run of puts and deletes on a fresh table, going on after failures, the history is the commands that succeeded, each under its position in the run; with enough room and numbers all succeed. |
| `MemTables.LoseDeletion` | crates/stonedb-core/src/memtable.rs:83-143 | The boundary case on any table with two sequence numbers left and room for two writes: failing writes use up the others, and the deletion under the last number is not seen, `get` still returns the value. |
| `Versions.NewestKeyIsFresh` | crates/stonedb-core/src/memtable.rs:69-74 | The key of a write is never in the list already: the skiplist's duplicate branch is not taken. |
| `Versions.SeekFindsNewestVisible` | crates/stonedb-core/src/memtable.rs:125-143 | The entry nearest to the search key decodes to the newest visible version of the user key, or to another user key exactly when there is none. |
| `Versions.LookupMeans` | crates/stonedb-core/src/memtable.rs:100-117 | Lookups said on the writes themselves: the last write of the key decides, a tombstone reads as nothing, and so does a key never written. |
| `Versions.LookupIsNewestIff` | crates/stonedb-core/src/memtable.rs:119-143 | A lookup agrees with the last-writer-wins replay if and only if the last write is not this key's tombstone at MAX_SEQUENCE. |
| `Versions.GetIsRightIff` | crates/stonedb-core/src/memtable.rs:102-107 | `get` is wrong exactly when the last write is such a tombstone and the key was live before it. |
| `Versions.ContainsIsRightIff` | crates/stonedb-core/src/memtable.rs:110-112 | `contains` is wrong exactly when the last write is such a tombstone and the key was never written before it. |
| `Versions.RunsAreRightIff` | crates/stonedb-core/src/memtable.rs:63-143 | After any run of writes, failed ones included, lookups of all keys agree with the replay of the successful ones if and only if the last sequence number did not go to a successful delete. |
| `Versions.DeletionLost` | crates/stonedb-core/src/memtable.rs:119-131 | Runs that show the failure: whatever came before, when the last two numbers go to a write of a key and to its deletion, the deletion is not seen and the value stays readable. |
| `Versions.OneEntryPerWrite` | crates/stonedb-core/src/memtable.rs:53-55 | The list holds one entry per write. |
| `Versions.WrittenBytesAreStored` | crates/stonedb-core/src/memtable.rs:76-77 | The running size counter equals the summed sizes of the stored entries. |

## Left out

- Arenas.Arena.AllocNode: requires key and value lengths below 2^32. The source accepts longer ones and stores truncated lengths; `NodeLayout.NodeWritten` and `NodeLayout.ReadBackIffLengthsFit` say what then happens, the classes above the arena do not.
- Arenas.NodeAdded: same bound on lengths.
- ProtocolBytes.BytesStandForHeap: same bound on the lengths of everything put; the protocol itself has no such bound.
- SequentialRuns.RunCalls: same bound on puts.
- SequentialRuns.HeightsDoNotMatter: same bound on puts.
- SkipLists.SkipList.Put: same bound on lengths. The rejected pair is returned as the arguments given, as in the source.
- MemTables.MemTable.Put: same bound, on the encoded key. `Result` is modelled as an outcome; the sequence and size counters are unbounded integers, so their wrap-around at 2^64 is not modelled.
- MemTables.MemTable.Delete: the same remarks.
- MemTables.RunCommands: the same bound on every command.
- Arenas.Arena.Alloc: sums of sizes are unbounded integers, so overflow of `offset + size` in `usize` is not modelled; capacities are at most 2^63 - 8, which is what `Layout::from_size_align` accepts. Failure of the system allocator below that is not modelled.
- ProtocolPutSteps.AllocCasStep: the protocol is proved on the abstract heap and `ProtocolBytes` proves that the bytes follow it. The node's bytes are written in the same step as the winning compare-and-swap on the bump pointer. No other call can reach them before the node is linked, and keys and values never change afterwards; the comparison of a loaded node's key is likewise part of the step that loads its offset.
- Weak memory: every tower and height access is `SeqCst` in the source, and steps are sequentially consistent. Release and relaxed orderings of back-pointer stores are not distinguished.
- `mem_size` under concurrency is one load of the bump pointer; `ArenaProtocol` covers it.
- ProtocolProgress.CallsFinish: a weak compare-and-swap that keeps failing spuriously is not bounded, since nothing in the source bounds it.
- `random_height`: the distribution of heights. Any value in 0..=19 may be drawn.
- `MemTableIterator` and the `Iterator` trait: their movement methods are stubs.
- `InternalKey::decode_from`, `Default` and the conversion from `Entry`: length check and field copies only.
- `ValueType::from_u8`, `Entry` constructors, `Display`, error texts: easy members.
- `Drop`, `Send`/`Sync`, cloning of handles, reference counts of `Bytes`, raw allocation.
- The concurrent test harness, `timeline.rs`, benches, and the parts that exist as design documents only (log, tables on disk, levels, compaction).
