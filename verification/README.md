# A model of the data-oblivious histogram

A histogram of running totals per key is kept in a binary tree of buckets with a stash (a Path
ORAM).  Updates go into the stash; every few updates the blocks of one root-to-leaf path are
merged, laid out again as deep as their routing allows, and written back.  Reads take a key's
blocks out the same way.  Everything happens through fixed networks of conditional swaps.  A
sharded version routes whole batches of updates to several such trees.

The files follow the crate `crates/oram`, from the bottom up:

- comparator networks and sorting: `Networks`, `MergeExchange`, `DjbSort`, `OddEvenMerge`, `Compaction`;
- blocks, runs of equal keys, routing: `Blocks`, `Instances`, `Reduction`, `SortReduce`, `Bits`, `Routing`;
- tree, stash and one access: `Greedy`, `Layout`, `Tree`, `Stash`, `Access`, `Presence`, `Contents`, `Capacity`;
- the histogram over time: `Clock`, `Resize`, `Steps`, `Crypto`, `Histogram`, `Runs`, `Collisions`, `CollidingRun`;
- readouts: `Order`, `Readout`, `TreeReadout`, `Router`, `Loads`, `Subtrees`, `Partition`;
- shards: `Frontend`, `Dispatch`, `Moves`, `Shards`, `Holdings`, `Sharded`, `ShardedRuns`, `LossyRuns`.

`Steps` and `Moves` say of each operation, as a relation between whole states (tree, stash,
counters, estimator), what it may leave behind; the methods are proved to take such steps, and
what the steps bring about is proved of the relations.

Arrays that the program works on in place are arrays here, and its stash, histogram, frontend,
router and sharded histogram are classes whose methods change their fields.

What is assumed, and what is a parameter:

- The cipher is an arbitrary function on blocks.  Random leaves are parameters.  Growth decisions
  come from an oracle for noise and thresholds; suggested quotas and deflated targets are
  parameters.  Every result holds for all of them.
- Values form a commutative monoid with the default value as identity (`Blocks.Lawful`).  This is
  shown for wrapping 64-bit counters and for flow records.
- The bucket size is a power of two, as `tree.rs:50` asserts, and the shard count is a power of
  two up to 64, which the mask in `router.rs:29` and the key layout in `mod.rs:119-124` need.
- A panic is an operation that answers `ok == false`.  Path accesses, appends, evictions, batch
  inserts, the frontends' quota and coordinated growth have exact conditions for it; everything
  else has a condition under which it succeeds, up to whole runs of one and of all shards.
- A tag of zero is the tag of dummies.  An update whose tag comes out as zero is dropped by the
  program; the plain map that runs are compared with drops it too.

## Findings

- **A read can miss part of a key.**  `path_rank_key` leaves out bit 31 of the tag, so two keys
  whose tags differ in that bit only can end up interleaved on a path.  The merge then leaves two
  blocks of the key, and the read returns the last one's value and drops the rest.  `ReachTwins`
  leads to such a state from an empty histogram, by appends and dummy reads, for every pair of
  such tags; `ReadsWholeIffAlone` shows that a key's reads are always exact if and only if no other
  key has such a tag.
- **A flush can drop updates.**  When the batch size is at least the number of frontends but no
  multiple of it, the rest of the division is routed to no shard and leaves the buffer all the
  same.  `LoseLast` is a run of successful appends, for every such batch size and every value,
  after which the value is gone; in `TenByFour` ten increments through the default four frontends
  leave eight.  `FlushKeepsIff` gives the exact condition.  With a batch smaller than the number of
  frontends nothing is lost: the chunk size is zero and no flush of a non-empty buffer succeeds.
- **Long keys can share a payload but not a tag.**  The tag depends on the whole key, the payload
  on its first `K` bytes.  `TagsFollowPayloads` gives the exact limits: at most `K` bytes and at
  most one cipher block.  The longer keys that break it do so under a permutation of the blocks,
  as a cipher under a key is one.

## Model

| member | source | states |
|---|---|---|
| Networks.RunPermutes | crates/oram/src/oblivious/djbsort.rs:59-141 | whatever comparators run, in whatever order and with whatever comparison, elements are neither lost nor duplicated |
| MergeExchangeNetwork.ColumnsAreRows | crates/oram/src/oblivious/djbsort.rs:93-137 | running each column's cascade to the end before the next column gives the same result, on every input, as Batcher's pass-by-pass order |
| MergeExchangeNetwork.MergeExchangeSorts | crates/oram/src/oblivious/djbsort.rs:59-141 | for every length and every total preorder the comparisons stay in bounds and leave a sorted permutation |
| DjbSort.SortBy | crates/oram/src/oblivious/djbsort.rs:59-141 | the in-place loops, with the shrinking start distance of the cascades, have exactly the effect of that network and touch nothing outside the slice |
| DjbSort.SortBySorts | crates/oram/src/oblivious/djbsort.rs:54-59 | what `sort_by` leaves behind is a sorted permutation of its input |
| DjbSort.SortWithPayloadSorts | crates/oram/src/oblivious/djbsort.rs:307-392 | what `sort_with_payload` leaves behind has its keys sorted, and its (key, payload) pairs are a permutation of the input's |
| OddEvenMerge.MergeSorts | crates/oram/src/oblivious/djbsort.rs:159-225 | merging a sorted run of power-of-two length with any sorted run no longer than it gives a sorted permutation |
| OddEvenMerge.OddEvenMergeByRaw | crates/oram/src/oblivious/djbsort.rs:160-225 | the recursion over strided runs in place has exactly the effect of the merge network on those wires |
| OddEvenMerge.MergeSortedBy | crates/oram/src/oblivious/djbsort.rs:233-259 | fails exactly when one of its assertions does, then changing nothing; otherwise the merge network has run on the slice and on nothing else |
| OddEvenMerge.MergeSortedBySorts | crates/oram/src/oblivious/djbsort.rs:227-232 | two adjacent sorted runs have become one sorted permutation of them |
| Compaction.CompactPow2Places | crates/oram/src/oblivious/compaction.rs:22-41 | with offset `z` the marked element of rank `r` ends up at `(z + r) mod n` |
| Compaction.CompactPlaces | crates/oram/src/oblivious/compaction.rs:43-68 | for any length the marked elements end up in front, in their old order |
| Compaction.DistributeUndoesCompact | crates/oram/src/oblivious/compaction.rs:93-115 | with the same marks, distribution and compaction undo each other, in either order, on every input |
| Compaction.DistributePlaces | crates/oram/src/oblivious/compaction.rs:93-115 | the element of rank `r` ends up in the marked slot of rank `r` |
| SortReduce.CompactsSlice | crates/oram/src/oblivious/compaction.rs:117-128 | marks counted from the real blocks make compaction put exactly those in front, in order, and leave only dummies behind |
| SortReduce.SortReduceKeepsTotals | crates/oram/src/oblivious/compaction.rs:132-155 | sorting by any key function and reducing keeps every key's total |
| SortReduce.SortReduceCompact | crates/oram/src/oblivious/compaction.rs:157-175 | the survivors of the reduction end up in front in key order, only dummies follow, and the length returned is their number |
| Reduction.ReduceEqualRuns | crates/oram/src/oblivious/reduction.rs:57-111 | the one-pass scan in place leaves at every slot what the run ending or continuing there prescribes |
| Reduction.ReducedKeepsTotals | crates/oram/src/oblivious/reduction.rs:50-54 | for blocks in any order, sorted or not, reduction keeps every key's total |
| Reduction.Survives | crates/oram/src/oblivious/reduction.rs:84-107 | exactly the last block of each run stays real, with its own key and tag |
| Reduction.SurvivorHoldsRun | crates/oram/src/oblivious/reduction.rs:84-107 | its value is its run's total for the key, its epoch the smallest in the run |
| Reduction.AdjacentLeavesOne | crates/oram/src/oblivious/reduction.rs:50-54 | if a key's real blocks are adjacent, at most one of them is left |
| Instances.CountersLawful | crates/oram/src/lib.rs:75-94 | wrapping addition of 64-bit counters is a commutative monoid with zero |
| Instances.FlowsLawful | crates/oram/src/block.rs:180-195 | so is the addition of flow records, with the default record |
| Routing.NodeOfTag | crates/oram/src/oblivious_histogram/routing.rs:20-24 | a tag's node at a given depth is the same whatever the height of the tree, so that growth leaves blocks on their paths |
| Routing.LeafOfTag | crates/oram/src/oblivious_histogram/routing.rs:17-24 | the leaf of a tag is the one its highest routing bits number: its low 31 bits, divided by the power of two that the height leaves |
| Routing.RoutingBitsAre | crates/oram/src/oblivious_histogram/routing.rs:67-69 | the routing bits are the tag modulo `2^31` |
| Routing.NodeIs | crates/oram/src/oblivious_histogram/tree.rs:32-37 | a leaf's ancestor at a depth is its number divided by the power of two of the distance |
| Routing.SharedLevel | crates/oram/src/oblivious_histogram/stash.rs:66-73 | the leading-zero arithmetic gives the depth down to which the tag's path runs along the path to the leaf |
| Routing.RankOrder | crates/oram/src/oblivious_histogram/routing.rs:77-89 | sorting by rank key puts real blocks before dummies and deeper-sharing blocks before others |
| Routing.RankKeyInjective | crates/oram/src/oblivious_histogram/routing.rs:77-89 | equal rank keys mean tags that are equal modulo `2^31` and equal above bit 31, so that they differ in bit 31 at most |
| Routing.EvictionVisits | crates/oram/src/oblivious_histogram/ops.rs:129-135 | any `2^d` consecutive evictions rewrite every node of depth `d` ... |
| Routing.EvictionVisitsOnce | crates/oram/src/oblivious_histogram/ops.rs:129-135 | ... each of them only once |
| Routing.EvictLeafBit | crates/oram/src/oblivious_histogram/ops.rs:129-135 | bit `i` of the eviction counter chooses the eviction leaf's child at depth `i + 1` |
| Greedy.GreedyIsLegal | crates/oram/src/oblivious_histogram/stash.rs:89-106 | the scan puts no block deeper than its level and no more than `Z` in a bucket |
| Greedy.GreedyIsOptimal | crates/oram/src/oblivious_histogram/stash.rs:89-106 | for blocks in any order, no legal assignment leaves fewer blocks over |
| Greedy.LayoutAgrees | crates/oram/src/oblivious_histogram/stash.rs:269-296 | for blocks in rank order, laying them out by bucket counts alone, deepest bucket first, puts each block where the scan assigned it |
| Layout.BuildLayoutMarks | crates/oram/src/oblivious_histogram/stash.rs:269-296 | the marks fill each bucket's slots from the front, as many as its count, deepest bucket first, then the overflow's |
| Layout.LayoutHolds | crates/oram/src/oblivious_histogram/stash.rs:117-131 | compaction and distribution by those marks permute the stash and put every bucket's stretch of real blocks into that bucket's slots |
| Tree.RewritePath | crates/oram/src/oblivious_histogram/stash.rs:133-142 | when only a path is rewritten, the tree's contents change by exactly the path's old blocks out and its new blocks in |
| Tree.GrowKeepsInvariant | crates/oram/src/oblivious_histogram/resize.rs:340-352 | doubling the storage keeps every block on its own path in the taller tree, and the contents |
| Stash.MergedIsRanked | crates/oram/src/oblivious_histogram/stash.rs:262-266 | after merging for a path, earlier real blocks share at least as much of the path as later ones |
| Stash.ObliviousStash.AssignLevels | crates/oram/src/oblivious_histogram/stash.rs:80-107 | the counting loops over fixed arrays give the greedy assignment's bucket counts and overflow |
| Stash.ObliviousStash.WriteToPath | crates/oram/src/oblivious_histogram/stash.rs:75-149 | fails, changing nothing, exactly when the overflow would leave no free slot; otherwise the stash is permuted, the path's buckets take its laid-out front, nothing off the path changes, and the rest stays |
| Stash.WroteBackConserves | crates/oram/src/oblivious_histogram/stash.rs:75-149 | the path and the overflow afterwards hold exactly the stash's real blocks, as a multiset |
| Stash.WroteBackOnPath | crates/oram/src/oblivious_histogram/stash.rs:75-149 | written back in rank order, every block of the tree sits in a bucket on its own path |
| Stash.ObliviousStash.ReadFromPath | crates/oram/src/oblivious_histogram/stash.rs:241-251 | the path buffer holds the path's buckets, root first; the overflow is untouched |
| Stash.RemovedTotals | crates/oram/src/oblivious_histogram/stash.rs:151-163 | `read_and_remove` takes the key's total to the default and keeps every other key's |
| Stash.LastMatchIsTotal | crates/oram/src/oblivious_histogram/stash.rs:151-163 | if the key has at most one block, the value returned is its total |
| Stash.ObliviousStash.Insert | crates/oram/src/oblivious_histogram/stash.rs:165-177 | the first free overflow slot takes the block; fails, changing nothing, exactly when there is none |
| Stash.ObliviousStash.InsertBatch | crates/oram/src/oblivious_histogram/stash.rs:179-209 | fails, changing nothing, exactly when overflow and real updates together exceed the overflow slots; otherwise the overflow holds the old blocks and then the updates, in order |
| Stash.BatchBlocks | crates/oram/src/oblivious_histogram/stash.rs:179-209 | a block comes in with a batch exactly when it is real, carries the epoch given, and its tag, value and key are those of a real update |
| Stash.ObliviousStash.Occupancy | crates/oram/src/oblivious_histogram/stash.rs:222-226 | the number of real blocks in the overflow |
| Stash.ObliviousStash.CountMatchingBlocks | crates/oram/src/oblivious_histogram/stash.rs:20-30 | the count by which the estimator is fed ... |
| Stash.MatchingIs | crates/oram/src/oblivious_histogram/stash.rs:20-30 | ... is the number of slots with a real block of the epoch whose low 31 tag bits, divided down to the height, number the leaf |
| Contents.AccessDone | crates/oram/src/oblivious_histogram/ops.rs:103-111 | an access (read, merge, optional removal, write-back) keeps the tree well formed, brings in no keys, loses none, and keeps every total, except that what it gathered of a removed key is gone |
| Presence.MergedPresent | crates/oram/src/oblivious_histogram/stash.rs:262-266 | merging loses no key and invents none |
| Presence.AbsentElsewhere | crates/oram/src/oblivious_histogram/ops.rs:103-111 | off the path to its leaf there is no block of a key with one tag |
| Access.NothingElsewhere | crates/oram/src/oblivious_histogram/ops.rs:103-111 | if all blocks of a key carry one tag, there are none of them off the path to its leaf |
| Access.ReadReturnsTotal | crates/oram/src/oblivious_histogram/ops.rs:94-111 | if moreover no other key's tag is ranked like it, the value a read returns is the key's whole total |
| Collisions.ReadIsExactIff | crates/oram/src/oblivious_histogram/stash.rs:151-163 | with given tags and keys on a path, a read returns the path's total for all values exactly when the sorted path has the key's blocks adjacent |
| CollidingRun.ReadsWholeIffAlone | crates/oram/src/oblivious_histogram/ops.rs:94-111 | among given keys, one of which always carries one tag, its read returns its whole total in every state storing such keys, for all parameters, exactly when no other key's tag is ranked like its own |
| CollidingRun.ReachTwins | crates/oram/src/oblivious_histogram/ops.rs:94-111 | for any two nonzero tags ranked alike, any two different keys and any value but the default, appends and dummy reads from an empty histogram reach a state where the key's total is that value and a read, which would succeed, returns the default |
| CollidingRun.TwinTags | crates/oram/src/oblivious_histogram/routing.rs:77-89 | two concrete tags, different in bit 31 only, are ranked alike |
| Capacity.RoomToAccess | crates/oram/src/oblivious_histogram/stash.rs:109-115 | while fewer blocks are stored than there are overflow slots, no access can fail |
| Capacity.AccessLoad | crates/oram/src/oblivious_histogram/ops.rs:103-120 | an access never increases the number of blocks stored |
| Clock.ChunkAdvances | crates/oram/src/oblivious_histogram/ops.rs:41-61 | a chunk of the batch loop moves counters and record of evictions as appending its updates one at a time does |
| Clock.SteadyEvictions | crates/oram/src/oblivious_histogram/ops.rs:72-92 | outside a sweep, `n` appends without growth make as many evictions as there are multiples of `A` among the append counts they pass, each at such a multiple |
| Clock.SweepEvictions | crates/oram/src/oblivious_histogram/ops.rs:85-92 | inside the sweep window the same holds with `A / 2`, at least 1, until the window's end is reached |
| Clock.EpochCountsLevels | crates/oram/src/oblivious_histogram/resize.rs:340-352 | a number of growths raises the epoch by as many, up to 255 |
| Clock.SweepVisitsEachLeafOnce | crates/oram/src/oblivious_histogram/resize.rs:340-352 | in the sweep window after a growth, if the tree does not grow again, exactly one eviction goes through each old leaf |
| Resize.AloneKept | crates/oram/src/oblivious_histogram/resize.rs:397-412 | evictions never change whether a histogram grows by itself, and only one that does ever grows on an eviction |
| Resize.OnlyCounted | crates/oram/src/oblivious_histogram/resize.rs:191-198 | up to the last eviction of a period, and as long as a signal waits to be fetched, evictions are counted and nothing is decided |
| Resize.PeriodEnds | crates/oram/src/oblivious_histogram/resize.rs:196-213 | the last eviction of a period decides by the matching blocks of the whole period plus noise: a signal of the effective target, at most the largest word, or a growth, exactly above the threshold; a new period starts |
| Resize.TargetDoubles | crates/oram/src/oblivious_histogram/resize.rs:221-230 | every growth doubles the target capacity, up to the largest word |
| Resize.GrownAsConfigured | crates/oram/src/oblivious_histogram/resize.rs:221-230 | a growth sets the period that configuring for the doubled target at the new height would |
| Steps.OverflowLeft | crates/oram/src/oblivious_histogram/stash.rs:75-149 | after any path has been rewritten, the overflow holds exactly as many blocks as the greedy assignment of the gathered blocks leaves over ... |
| Steps.OverflowLeast | crates/oram/src/oblivious_histogram/stash.rs:80-107 | ... and no assignment that respects levels and bucket size leaves fewer |
| Steps.EvictionDrains | crates/oram/src/oblivious_histogram/ops.rs:137-158 | so after every eviction, whether or not the tree grows with it |
| Steps.FewBlocksDrain | crates/oram/src/oblivious_histogram/stash.rs:75-149 | with no more blocks than a bucket holds, rewriting any path empties the overflow ... |
| Steps.GrowthDrains | crates/oram/src/oblivious_histogram/resize.rs:370-385 | ... and so does a growth on request |
| Steps.QuietAppend | crates/oram/src/oblivious_histogram/ops.rs:64-81 | between evictions an append changes one slot and one counter |
| Steps.BatchCounts | crates/oram/src/oblivious_histogram/ops.rs:35-62 | every update of a batch counts as an append, masked or not |
| Crypto.PrfTag | crates/oram/src/oblivious/crypto.rs:15-42 | the tag is that of chaining all blocks of the key, the last one padded with zeros, the empty key counting as one block |
| Crypto.ChainedNext | crates/oram/src/oblivious/crypto.rs:15-42 | a key of whole blocks and up to one block more is chained from what the whole blocks leave and that block, padded |
| Crypto.MixedBit | crates/oram/src/oblivious/crypto.rs:15-42 | blocks are mixed in by exclusive or, bit by bit |
| Crypto.TagBytes | crates/oram/src/oblivious/crypto.rs:15-42 | the tag's bytes are the first eight of the chained state, low byte first |
| Crypto.ShortKeysFollow | crates/oram/src/oblivious/crypto.rs:15-42 | keys that exceed neither payload nor block have one tag per stored payload, whatever function the cipher is |
| Crypto.TagsFollowPayloads | crates/oram/src/oblivious/crypto.rs:15-42 | keys up to a length have one tag per stored payload, for every cipher that permutes the 16-byte blocks, exactly when that length exceeds neither payload nor block |
| Histogram.CapacityOfHeight | crates/oram/src/oblivious_histogram/tree.rs:49-54 | the leaves' slots number at most the requested capacity and more than half of it; below two buckets there are two leaves |
| Histogram.ObliviousHistogram.constructor | crates/oram/src/oblivious_histogram/mod.rs:94-121 | a new histogram is well formed, all dummies, at the height for its capacity, with all totals at the default |
| Histogram.ObliviousHistogram.ReadPreparedTotal | crates/oram/src/oblivious_histogram/ops.rs:103-111 | the path of the tag's leaf is written back without the key's blocks; other keys' totals stay; a key with one tag is gone; an unambiguous key's whole total is returned; it fails exactly when the write-back does, and never while there are fewer blocks than overflow slots |
| Histogram.ObliviousHistogram.ReadTotal | crates/oram/src/oblivious_histogram/ops.rs:94-101 | the same for the tag and payload of a key |
| Histogram.ObliviousHistogram.ReadDummy | crates/oram/src/oblivious_histogram/ops.rs:113-120 | no total changes; it fails exactly when the write-back does |
| Histogram.ObliviousHistogram.EvictAfterInsert | crates/oram/src/oblivious_histogram/ops.rs:137-158 | the path of the next eviction leaf is gathered, merged and written back, and the tree is then a level of empty buckets taller exactly when the estimator, fed with the merged path's matching blocks, says so; no total changes; it fails exactly when the write-back does or a tree of the largest height is to grow |
| Histogram.ObliviousHistogram.Append | crates/oram/src/oblivious_histogram/ops.rs:19-30 | the update takes the first free overflow slot, and a due eviction follows; it joins its key's total, no other total changes; it fails exactly when no overflow slot is free or the eviction fails |
| Histogram.ObliviousHistogram.AppendPreparedMaskedBatch | crates/oram/src/oblivious_histogram/ops.rs:35-62 | chunk by chunk, each up to the next eviction, the real updates join the overflow and the eviction that is then due is made; counters and totals end where appending one at a time takes them; it fails only at a chunk that does not fit or whose eviction fails, and not with room for the updates that count |
| Histogram.ObliviousHistogram.GrowPhysicalStorage | crates/oram/src/oblivious_histogram/resize.rs:340-352 | fails exactly at the largest height; otherwise old slots are followed by as many dummies, the stash gains an empty bucket at the end of its path buffer, no total changes, and the sweep window opens |
| Histogram.ObliviousHistogram.Grow | crates/oram/src/oblivious_histogram/resize.rs:370-385 | one level more, and then the path to every new leaf, from left to right, is rewritten; no total changes; it fails only at the largest height or at a rewrite that cannot be made, and below that height not with fewer blocks than overflow slots |
| Histogram.ObliviousHistogram.Readout | crates/oram/src/oblivious_histogram/mod.rs:177-195 | public length; one block per stored key, carrying its running total, in front of dummies |
| Histogram.ObliviousHistogram.ReadoutTreeAware | crates/oram/src/oblivious_histogram/mod.rs:197-212 | the same length and all totals; one block per key when keys determine their tags' order |
| Histogram.ObliviousHistogram.ReadoutSubtreePartitioned | crates/oram/src/oblivious_histogram/mod.rs:214-312 | at or above the tree's height it is the tree-aware readout; below, it returns an error exactly when some inbox is too small and otherwise an output of its public length; what it returns holds all totals, and one block per key when keys determine their tags' order |
| Runs.RunAll | crates/oram/src/oblivious_histogram/ops.rs:19-120 | any run of appends, reads, dummy reads and growths, with automatic growths in between: as long as nothing overflows the histogram holds the keys a plain map holds, with its totals, even if tags collide, and each read of a key alone in its rank returns the map's total; a run with room for all its blocks and levels does not overflow |
| Runs.ReadOutAll | crates/oram/src/oblivious_histogram/mod.rs:177-312 | the plain, the tree-aware and (unless an inbox overflows) the partitioned readout of a histogram that agrees with a map are that map: its keys, each once, with its values |
| Runs.RunFromEmpty | crates/oram/src/oblivious_histogram/mod.rs:94-312 | from a new histogram through any run to its readouts: with room nothing fails, answers are the map's, and every readout is the map the run ends with |
| Runs.BatchAgainstEach | crates/oram/src/oblivious_histogram/ops.rs:35-81 | a batch and the same updates one at a time leave equal totals and, with the same growth decisions, equal counters and evictions; with room for all updates neither fails |
| Order.PayloadSortedAdjacent | crates/oram/src/oblivious_histogram/mod.rs:394-409 | sorted by `payload_gt`, the blocks of every key are adjacent |
| Order.LexFirst | crates/oram/src/oblivious_histogram/mod.rs:394-409 | one byte string is greater than another exactly if it is so at the first place where they differ, or goes on where the other ends |
| Order.TagOrderIs | crates/oram/src/oblivious_histogram/mod.rs:411-433 | the tree order compares the tags' low 31 bits, then their high halves |
| Order.TreeSortedAdjacent | crates/oram/src/oblivious_histogram/mod.rs:411-433 | sorted by `tree_readout_gt`, the blocks of a key are adjacent if their tags agree in routing bits and high half, even when other keys' tags collide with them |
| Readout.ObliviousReadout | crates/oram/src/oblivious_histogram/mod.rs:492-499 | for any blocks: one block per key present, no other, with all totals kept, in front of dummies |
| Readout.ReadoutValue | crates/oram/src/oblivious_histogram/mod.rs:177-195 | in a readout, a key's block carries the key's total, and only keys that were present have one |
| Readout.ReadoutIsMap | crates/oram/src/oblivious_histogram/mod.rs:177-195 | a readout of contents that have a map's keys and totals is the map |
| Readout.ReadoutsAgree | crates/oram/src/oblivious_histogram/mod.rs:197-207 | any two readouts of the same contents, plain or tree-aware, have the same keys with the same values |
| TreeReadout.ObliviousTreeReadout | crates/oram/src/oblivious_histogram/mod.rs:435-490 | for any input all totals are kept; if levels come in routing order and keys determine their tags' order, the result is a readout, on the merging path and on the fallback |
| Partition.TreeBefore | crates/oram/src/oblivious_histogram/mod.rs:197-207 | the path invariant puts every level's buckets in routing order |
| Subtrees.UpperInOrder | crates/oram/src/oblivious_histogram/mod.rs:242-268 | the sorted and reduced blocks above the cut come in order of their subtrees |
| Partition.ChunkBucket | crates/oram/src/oblivious_histogram/mod.rs:294-305 | every local bucket of a copied subtree is the bucket of the tree's node below the subtree's root at the same place |
| Partition.ChunksApart | crates/oram/src/oblivious_histogram/mod.rs:214-220 | no key has blocks in two subtrees, inboxes included |
| Partition.PartitionReads | crates/oram/src/oblivious_histogram/mod.rs:214-312 | reading the subtrees out one by one is reading out the whole tree and overflow: all totals, each key once |
| Partition.ReadoutSubtrees | crates/oram/src/oblivious_histogram/mod.rs:230-312 | an error is returned exactly when some subtree's load exceeds the inbox; otherwise the output has its public length and is such a readout |
| Partition.RouteUpper | crates/oram/src/oblivious_histogram/mod.rs:242-292 | the error names the largest load, the inbox size and the number of subtrees |
| Partition.OverflowIsKeys | crates/oram/src/oblivious_histogram/mod.rs:242-292 | when keys determine their tags' order, some inbox is too small exactly when more keys are routed to its subtree than it has slots: no key takes two |
| Router.CountLoads | crates/oram/src/sharded_oblivious_histogram/router.rs:47-62 | each counter ends up with the number of real blocks of its bin among the active ones |
| Router.ShardIndexIs | crates/oram/src/sharded_oblivious_histogram/router.rs:25-30 | a tag's shard is its high half modulo the number of shards |
| Router.Distributes | crates/oram/src/sharded_oblivious_histogram/router.rs:65-86 | distribution by these marks gives each bin's slots its own stretch of the blocks, in order, and dummies behind |
| Router.RouteToBins | crates/oram/src/sharded_oblivious_histogram/mod.rs:142-150 | each bin's slots hold exactly the real blocks of that bin, in order, in front of dummies |
| Frontend.RouterKeyFits | crates/oram/src/sharded_oblivious_histogram/mod.rs:119-124 | with at most 64 shards the router's key fits a 64-bit word |
| Frontend.RouterKeyOrder | crates/oram/src/sharded_oblivious_histogram/mod.rs:119-124 | sorting by it sorts by shard |
| Frontend.RouterKeyEqual | crates/oram/src/sharded_oblivious_histogram/mod.rs:119-124 | two tags have one sort key exactly when shard and low 57 bits agree and both are real or neither is |
| Frontend.RealFirstInShard | crates/oram/src/sharded_oblivious_histogram/mod.rs:119-124 | in every shard real blocks sort before dummies |
| Frontend.ShardLoad | crates/oram/src/sharded_oblivious_histogram/mod.rs:115-131 | when tags agree in shard and low 57 bits exactly for equal keys, a shard's load is the number of its keys in the batch: one block each |
| Frontend.RouterFrontend.ProcessSubBatch | crates/oram/src/sharded_oblivious_histogram/mod.rs:105-151 | fails exactly when some shard's load exceeds the quota; for a batch whose tags tell its keys apart that is when some shard has more different keys in it; otherwise each shard's slots hold exactly its blocks of the reduced batch |
| Frontend.SubBatchKeeps | crates/oram/src/sharded_oblivious_histogram/mod.rs:115-125 | reducing a batch keeps every key's total, even where the sort does not make its blocks adjacent |
| Dispatch.ColumnsPartition | crates/oram/src/sharded_oblivious_histogram/mod.rs:260-270 | the shards together receive exactly what the frontends have routed |
| Dispatch.RoutedTotals | crates/oram/src/sharded_oblivious_histogram/mod.rs:239-270 | and that carries the totals of the slices the frontends took |
| Moves.FeedCounts | crates/oram/src/sharded_oblivious_histogram/mod.rs:64-83 | what a shard takes in a flush advances its append counter by all its slots, real or not |
| Shards.NotItsShard | crates/oram/src/sharded_oblivious_histogram/router.rs:25-30 | a shard that is not the one of a key's tag holds nothing of the key |
| Shards.ShardsReadOut | crates/oram/src/sharded_oblivious_histogram/mod.rs:497-516 | the shards' readouts side by side are a readout of everything stored |
| Shards.EqualLengths | crates/oram/src/sharded_oblivious_histogram/mod.rs:504-508 | the shards' readouts always have equal lengths, so the assertion never fails |
| Holdings.RoutedHoldings | crates/oram/src/sharded_oblivious_histogram/mod.rs:239-270 | what is routed has exactly the keys of the slices, and no more real blocks |
| Holdings.FedStored | crates/oram/src/sharded_oblivious_histogram/mod.rs:264-269 | shards that have taken their slots store the keys they stored and those of the slots, and no others |
| Holdings.ReadHoldings | crates/oram/src/sharded_oblivious_histogram/mod.rs:462-468 | a read over all shards removes a key with one tag from all of them, keeps every other key, and adds no blocks |
| Sharded.ShardedBatchRouter.RouteBatch | crates/oram/src/sharded_oblivious_histogram/mod.rs:249-258 | fails exactly when in some frontend a shard's load exceeds the quota |
| Sharded.ShardedBatchRouter.RoutesAlways | crates/oram/src/sharded_oblivious_histogram/mod.rs:239-258 | a quota that is at least the slices' length is never exceeded, whatever is pending |
| Sharded.ShardedBatchRouter.WithinQuotaIs | crates/oram/src/sharded_oblivious_histogram/mod.rs:239-258 | when in every slice the tags tell the keys apart, a batch is within the quota exactly when no slice has more different keys of one shard than a frontend's part of the quota |
| Sharded.ShardedBatchRouter.FlushCounts | crates/oram/src/sharded_oblivious_histogram/mod.rs:239-270 | every flush of a buffer that is not empty advances every shard's append counter by the quota less what the frontends cannot share evenly |
| Sharded.ShardedBatchRouter.Flush | crates/oram/src/sharded_oblivious_histogram/mod.rs:228-277 | every shard takes its slots from every frontend as batches, in turn; the shards' totals and keys grow by exactly the slices' updates while the whole batch leaves the buffer; if batches divide evenly, sums and keys over shards and buffer stay; of a non-empty buffer it succeeds only within the quota, never when the batch is smaller than the number of frontends, and within the quota always with room in the shards |
| Sharded.FlushKeepsIff | crates/oram/src/sharded_oblivious_histogram/mod.rs:239-276 | for batches no smaller than the number of frontends, what a successful flush of a full batch leaves in shards and buffer is what they held before, whatever is stored and pending, exactly when the batch size is a multiple of that number |
| LossyRuns.AppendFull | crates/oram/src/sharded_oblivious_histogram/mod.rs:560-568 | appends that fill one batch of a new histogram all succeed, and the key is left with the sum of the values that the slices cover |
| LossyRuns.LoseLast | crates/oram/src/sharded_oblivious_histogram/mod.rs:228-277 | for every batch size that is no multiple of the number of frontends, and any value, appends that all succeed add up to that value and leave the key with the default |
| LossyRuns.TenByFour | crates/oram/src/sharded_oblivious_histogram/mod.rs:175-184 | ten increments of one key through four frontends all succeed and leave it with eight |
| Sharded.ShardedObliviousHistogram.HandleDeferredResize | crates/oram/src/sharded_oblivious_histogram/mod.rs:583-602 | exactly when the first shard has a signal pending and resizing is on, every shard starts a new period and is a level taller, and the sizes double; otherwise nothing changes; it fails exactly when they are to grow at the largest height |
| Sharded.ShardedObliviousHistogram.Append | crates/oram/src/sharded_oblivious_histogram/mod.rs:560-568 | short of a full batch it cannot fail and only the buffer changes; a full batch is flushed; if batches divide evenly, the update joins its key's total over shards and buffer and no other total or key changes; with room it succeeds |
| Sharded.ShardedObliviousHistogram.ReadTotal | crates/oram/src/sharded_oblivious_histogram/mod.rs:453-471 | after the flush the key's own shard is read and every other one rewrites the path of its random leaf; other keys' totals stay; a key with one tag is gone from all shards; an unambiguous key's whole total, pending updates included, is returned; with room it succeeds |
| Sharded.ShardedObliviousHistogram.Grow | crates/oram/src/sharded_oblivious_histogram/mod.rs:445-451 | every shard has grown on request, rewriting all its paths; the epoch is raised, the sizes double, totals and keys stay; never at the largest height, and below it with room |
| Sharded.ShardedObliviousHistogram.EnableAutoResize | crates/oram/src/sharded_oblivious_histogram/mod.rs:403-416 | every shard gets the deferred estimator for its height and target, the first one with signals, and nothing else changes |
| Sharded.ShardedObliviousHistogram.Readout | crates/oram/src/sharded_oblivious_histogram/mod.rs:478-495 | public length, all totals, real blocks in front; one block per key when keys determine their tags' order; with room it succeeds |
| Sharded.ShardedObliviousHistogram.ReadoutTreeAware | crates/oram/src/sharded_oblivious_histogram/mod.rs:497-516 | public length and all totals; one block per key when keys determine their tags' order; with room it succeeds |
| Sharded.NewSharded | crates/oram/src/sharded_oblivious_histogram/mod.rs:323-355 | a new sharded histogram is sound, at the height for its shards' capacity, with the cipher, quota and at least one frontend as given, every shard as a new histogram with its own oracle, and with no key and nothing pending |
| ShardedRuns.RunAll | crates/oram/src/sharded_oblivious_histogram/mod.rs:445-581 | any run of appends, reads, flushes and growths, with coordinated growths in between, on batches that divide evenly: as long as nothing fails, shards and buffer together hold the keys a plain map holds, with its totals, even if tags collide, and each read of a key alone in its rank returns the map's total; with frontends that route any batch and room for the run's blocks and levels nothing fails |
| ShardedRuns.ReadOutAll | crates/oram/src/sharded_oblivious_histogram/mod.rs:478-516 | both readouts of a sharded histogram that agrees with a map are that map |
| ShardedRuns.RunFromEmpty | crates/oram/src/sharded_oblivious_histogram/mod.rs:323-581 | from a new sharded histogram through any run to its readouts: with room nothing fails, answers are the map's, and both readouts are the map the run ends with |

## Left out

- Histogram.ObliviousHistogram.AppendPreparedMaskedBatch: a failure is traced to a chunk that cannot be taken from a state the chunks before it lead to, but that state is fixed only up to the places of dummies.
- Histogram.ObliviousHistogram.Grow: the same, for the paths rewritten after the growth.
- Sharded.ShardedBatchRouter.Flush: the quota is an exact condition, room in the shards a sufficient one.
- Sharded.ShardedObliviousHistogram.Append: the same.
- Sharded.ShardedObliviousHistogram.ReadTotal: the same, and for the accesses to the shards.
- Sharded.ShardedObliviousHistogram.Grow: the height is an exact condition, room in the shards a sufficient one.
- Sharded.ShardedObliviousHistogram.Readout: as for a flush.
- Sharded.ShardedObliviousHistogram.ReadoutTreeAware: as for a flush.
- ShardedRuns.RunAll: gives a sufficient condition for a run not to fail, with all blocks counted against one shard's overflow slots.
- Runs.BatchAgainstEach: does not show that batch and single appends decide alike on growth, since the merged paths the estimator counts may hold different blocks.
- The noise sampler, the threshold arithmetic in floating point and the binomial solver (`resize.rs:75-160`, `resize.rs:232-257`, `binomial_solver.rs`): their results are parameters.
- `AutoResizeState` is a value here, held in a field; its random generator is a counter of draws.
- `into_readout_tree_aware`, `into_readout_subtree_partitioned` and `export_entries`: variants of modelled readouts that reuse storage or are diagnostic.
- `increment_blocks` and `OramShard` implementations other than the histogram.
- `force_leaf_routing` and `set_sweep_window_active`: for benchmarks and test data.
- `read_sibling_bucket`: copies into scratch space that nothing reads.
- Constant-time execution and memory traces; only results are modelled.  Conditional moves are ordinary choices.
- Scratch vectors kept between calls are local here; metrics, `Debug`, `Clone` and the check in `Drop` are absent.
- Parallel iteration over frontends and shards is sequential here; the parts share no storage.
- The counters `append_ctr`, `evict_ctr`, `sweep_end` and `capacity` are unbounded, where the program has 64 bits; the epoch saturates as in the program.
- The padding field of a flow record, which is always zero.
- Inner attempts at `j + q == n` in the sort (`djbsort.rs:99-102`): proved unreachable.
