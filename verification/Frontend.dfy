/**
  A routing frontend: it sorts its part of a batch by shard, reduces equal keys, checks
  the loads against its quota, and lays the blocks out in fixed slots per shard.
 */
module Frontend {
  import opened OddEvenMerge
  import opened Blocks
  import opened Reduction
  import opened SortReduce
  import opened Router
  import opened Access
  import opened Subtrees
  import opened Partition
  import opened Loads

  const MAX_SHARDS: nat := 64

  /** The frontend's sort key: the shard, a bit for dummies, and the low 57 bits of the tag. */
  function RouterKey(tag: Tag, shardCount: nat): nat
    requires IsPowerOfTwo(shardCount)
  {
    ShardIndexForTag(tag, shardCount) * 0x400_0000_0000_0000 + (if tag == 0 then 0x200_0000_0000_0000 else 0)
      + tag % 0x200_0000_0000_0000
  }

  /** With at most 64 shards the key fits a 64-bit word. */
  lemma RouterKeyFits(tag: Tag, shardCount: nat)
    requires IsPowerOfTwo(shardCount) && shardCount <= MAX_SHARDS
    ensures RouterKey(tag, shardCount) < 0x1_0000_0000_0000_0000
  {
    hide ShardIndexForTag;
  }

  /** Sorting by key sorts by shard. */
  lemma RouterKeyOrder(a: Tag, b: Tag, shardCount: nat)
    requires IsPowerOfTwo(shardCount) && RouterKey(a, shardCount) <= RouterKey(b, shardCount)
    ensures ShardIndexForTag(a, shardCount) <= ShardIndexForTag(b, shardCount)
  {
    hide ShardIndexForTag;
  }

  /** The tags agree in what a sort key keeps of them: the shard, and the low 57 bits. */
  predicate SameRoute(a: Tag, b: Tag, shardCount: nat)
    requires shardCount >= 1
  {
    && a / 0x1_0000_0000 % shardCount == b / 0x1_0000_0000 % shardCount
    && a % 0x200_0000_0000_0000 == b % 0x200_0000_0000_0000
  }

  /** Sort keys are equal exactly for tags that agree that far, both real or both of dummies. */
  lemma RouterKeyEqual(a: Tag, b: Tag, shardCount: nat)
    requires IsPowerOfTwo(shardCount)
    ensures shardCount >= 1
    ensures RouterKey(a, shardCount) == RouterKey(b, shardCount) <==>
            SameRoute(a, b, shardCount) && (a == 0 <==> b == 0)
  {
    hide ShardIndexForTag, IsPowerOfTwo;
    ShardIndexIs(a, shardCount);
    ShardIndexIs(b, shardCount);
    KeyParts(ShardIndexForTag(a, shardCount), a, ShardIndexForTag(b, shardCount), b);
  }

  lemma KeyParts(s: nat, a: Tag, t: nat, b: Tag)
    ensures var x, y := a % 0x200_0000_0000_0000, b % 0x200_0000_0000_0000;
      s * 0x400_0000_0000_0000 + (if a == 0 then 0x200_0000_0000_0000 else 0) + x
        == t * 0x400_0000_0000_0000 + (if b == 0 then 0x200_0000_0000_0000 else 0) + y
      <==> s == t && x == y && (a == 0 <==> b == 0)
  {
  }

  /** In each shard the dummies come last. */
  lemma RealFirstInShard(a: Tag, shardCount: nat)
    requires IsPowerOfTwo(shardCount) && a != 0
    requires ShardIndexForTag(a, shardCount) == ShardIndexForTag(0, shardCount)
    ensures RouterKey(a, shardCount) < RouterKey(0, shardCount)
  {
    hide ShardIndexForTag;
  }

  function KeyFor<V>(shardCount: nat): Block<V> -> nat
    requires IsPowerOfTwo(shardCount)
  {
    (b: Block<V>) => RouterKey(b.tag, shardCount)
  }

  function ShardOf<V>(shardCount: nat): Block<V> -> nat
    requires IsPowerOfTwo(shardCount)
  {
    (b: Block<V>) => ShardIndexForTag(b.tag, shardCount)
  }

  /** The blocks a frontend routes: its batch sorted and reduced. */
  ghost function SubBatch<V>(m: Values<V>, batch: seq<Block<V>>, shardCount: nat): seq<Block<V>>
    requires IsPowerOfTwo(shardCount)
  {
    Live(Reduced(m, SortedByKey(batch, KeyFor(shardCount))))
  }

  lemma SubBatchInOrder<V(!new)>(m: Values<V>, batch: seq<Block<V>>, shardCount: nat)
    requires IsPowerOfTwo(shardCount)
    ensures InBinOrder(SubBatch(m, batch, shardCount), ShardOf(shardCount), shardCount)
  {
    hide Reduced, Live, SortedByKey, RouterKey, ShardIndexForTag, IsPowerOfTwo;
    var t := SortedByKey(batch, KeyFor(shardCount));
    SortedByKeyIsSorted(batch, KeyFor(shardCount));
    var r := Reduced(m, t);
    var l := Live(r);
    forall i | 0 <= i < |l| ensures l[i].Real() && ShardOf(shardCount)(l[i]) < shardCount { assert l[i] in l; }
    forall i, j | 0 <= i < j < |l| ensures ShardOf(shardCount)(l[i]) <= ShardOf(shardCount)(l[j]) {
      var a := LiveOrigin(r, i);
      var b := LiveOrigin(r, j);
      if a > b { LivePrefixes(r, b, a); }
      Survives(m, t, a);
      Survives(m, t, b);
      assert KeyFor(shardCount)(t[a]) <= KeyFor(shardCount)(t[b]);
      RouterKeyOrder(t[a].tag, t[b].tag, shardCount);
    }
  }

  /** Sorting and reducing a batch keeps its totals and brings in no keys. */
  lemma SubBatchKeeps<V(!new)>(m: Values<V>, batch: seq<Block<V>>, shardCount: nat, p: Payload)
    requires IsPowerOfTwo(shardCount) && Lawful(m)
    ensures Total(m, SubBatch(m, batch, shardCount), p) == Total(m, batch, p)
  {
    hide Reduced, Live, SortedByKey, RouterKey, Lawful, Total, IsPowerOfTwo;
    var r := Reduced(m, SortedByKey(batch, KeyFor(shardCount)));
    SortReduceKeepsTotals(m, batch, KeyFor(shardCount), p);
    TotalLive(m, r, p);
  }

  lemma SubBatchKnown<V(!new)>(m: Values<V>, batch: seq<Block<V>>, shardCount: nat, ids: Ids)
    requires IsPowerOfTwo(shardCount) && Known(batch, ids)
    ensures Known(SubBatch(m, batch, shardCount), ids)
  {
    hide Reduced, Live, SortedByKey, RouterKey, Known, IsPowerOfTwo;
    var t := SortedByKey(batch, KeyFor(shardCount));
    SortedByKeyIsSorted(batch, KeyFor(shardCount));
    LivePermutes(t, batch);
    KnownSubset(t, batch, ids);
    ReducedKnown(m, t, ids);
    KnownLive(Reduced(m, t), ids);
  }

  /** Some shard's load exceeds the quota. */
  ghost predicate QuotaExceeded<V>(l: seq<Block<V>>, shardCount: nat, quota: nat)
    requires IsPowerOfTwo(shardCount)
  {
    exists s: nat :: s < shardCount && |BinBlocks(l, ShardOf(shardCount), s)| > quota
  }

  // ---- Loads in terms of keys -----------------------------------------------------------------------------

  /** The keys of a batch that belong to shard `s`. */
  ghost function KeysOfShard<V>(batch: seq<Block<V>>, shardCount: nat, s: nat): set<Payload>
    requires shardCount >= 1
  {
    set i | 0 <= i < |batch| && batch[i].Real() && batch[i].tag / 0x1_0000_0000 % shardCount == s :: batch[i].payload
  }

  /** The real tags of a batch agree in shard and low 57 bits exactly when their keys are the same. */
  ghost predicate Separable<V>(batch: seq<Block<V>>, shardCount: nat)
    requires shardCount >= 1
  {
    forall i, j :: 0 <= i < |batch| && 0 <= j < |batch| && batch[i].Real() && batch[j].Real() ==>
        (batch[i].payload == batch[j].payload <==> SameRoute(batch[i].tag, batch[j].tag, shardCount))
  }

  /** Some shard has more keys in the batch than the quota. */
  ghost predicate TooManyKeys<V>(batch: seq<Block<V>>, shardCount: nat, quota: nat)
    requires shardCount >= 1
  {
    exists s: nat :: s < shardCount && |KeysOfShard(batch, shardCount, s)| > quota
  }

  lemma SeparablePermutes<V>(s: seq<Block<V>>, t: seq<Block<V>>, shardCount: nat)
    requires shardCount >= 1 && multiset(s) == multiset(t) && Separable(s, shardCount)
    ensures Separable(t, shardCount)
  {
    hide SameRoute;
    forall i, j | 0 <= i < |t| && 0 <= j < |t| && t[i].Real() && t[j].Real()
      ensures t[i].payload == t[j].payload <==> SameRoute(t[i].tag, t[j].tag, shardCount)
    {
      assert t[i] in multiset(s) && t[j] in multiset(s);
      var a :| 0 <= a < |s| && s[a] == t[i];
      var b :| 0 <= b < |s| && s[b] == t[j];
    }
  }

  /** Sorted by router keys, the blocks of a separable batch's keys are adjacent. */
  lemma RouterSortedAdjacent<V>(t: seq<Block<V>>, shardCount: nat, p: Payload)
    requires IsPowerOfTwo(shardCount) && shardCount >= 1 && Separable(t, shardCount)
    requires forall i, j :: 0 <= i < j < |t| ==> RouterKey(t[i].tag, shardCount) <= RouterKey(t[j].tag, shardCount)
    ensures Adjacent(t, p)
  {
    hide RouterKey, IsPowerOfTwo, SameRoute;
    forall i, j, k | 0 <= i < j < k < |t| && Matches(t[i], p) && Matches(t[k], p) ensures Matches(t[j], p) {
      RouterKeyEqual(t[i].tag, t[k].tag, shardCount);
      RouterKeyEqual(t[i].tag, t[j].tag, shardCount);
      assert RouterKey(t[i].tag, shardCount) <= RouterKey(t[j].tag, shardCount) <= RouterKey(t[k].tag, shardCount);
    }
  }

  lemma SeparableBins<V(!new)>(t: seq<Block<V>>, shardCount: nat)
    requires IsPowerOfTwo(shardCount) && shardCount >= 1 && Separable(t, shardCount)
    ensures KeysHaveBins(t, ShardOf(shardCount))
  {
    hide IsPowerOfTwo, ShardIndexForTag;
    forall i, j | 0 <= i < |t| && 0 <= j < |t| && t[i].Real() && t[j].Real() && t[i].payload == t[j].payload
      ensures ShardOf(shardCount)(t[i]) == ShardOf(shardCount)(t[j])
    {
      assert SameRoute(t[i].tag, t[j].tag, shardCount);
      ShardIndexIs(t[i].tag, shardCount);
      ShardIndexIs(t[j].tag, shardCount);
    }
  }

  lemma KeysAre<V>(batch: seq<Block<V>>, shardCount: nat, s: nat)
    requires IsPowerOfTwo(shardCount) && shardCount >= 1
    ensures KeysOfShard(batch, shardCount, s) == KeysIn(batch, ShardOf(shardCount), s)
  {
    hide IsPowerOfTwo, ShardIndexForTag;
    forall i | 0 <= i < |batch| ensures ShardOf(shardCount)(batch[i]) == batch[i].tag / 0x1_0000_0000 % shardCount {
      ShardIndexIs(batch[i].tag, shardCount);
    }
  }

  /** A separable batch loads each shard with one block for each of its keys. */
  lemma ShardLoad<V(!new)>(m: Values<V>, batch: seq<Block<V>>, shardCount: nat, s: nat)
    requires IsPowerOfTwo(shardCount) && shardCount >= 1 && Separable(batch, shardCount)
    ensures |BinBlocks(SubBatch(m, batch, shardCount), ShardOf(shardCount), s)| == |KeysOfShard(batch, shardCount, s)|
  {
    hide IsPowerOfTwo, ShardIndexForTag, Separable, RouterKey, Reduced, Live, SortedByKey, BinBlocks, KeysIn,
         KeysOfShard, Adjacent, KeysHaveBins;
    var t := SortedByKey(batch, KeyFor(shardCount));
    SortedByKeyIsSorted(batch, KeyFor(shardCount));
    SeparablePermutes(batch, t, shardCount);
    forall i, j | 0 <= i < j < |t| ensures RouterKey(t[i].tag, shardCount) <= RouterKey(t[j].tag, shardCount) {
      assert KeyFor(shardCount)(t[i]) <= KeyFor(shardCount)(t[j]);
    }
    forall p ensures Adjacent(t, p) { RouterSortedAdjacent(t, shardCount, p); }
    SeparableBins(t, shardCount);
    LoadIsKeys(m, batch, t, ShardOf(shardCount), s);
    KeysAre(batch, shardCount, s);
  }

  /** Such a batch is refused exactly when some shard has more keys in it than the quota. */
  lemma QuotaIsKeys<V(!new)>(m: Values<V>, batch: seq<Block<V>>, shardCount: nat, quota: nat)
    requires IsPowerOfTwo(shardCount) && shardCount >= 1 && Separable(batch, shardCount)
    ensures QuotaExceeded(SubBatch(m, batch, shardCount), shardCount, quota)
       <==> TooManyKeys(batch, shardCount, quota)
  {
    hide IsPowerOfTwo, Separable, SubBatch, BinBlocks, KeysOfShard;
    forall s: nat | s < shardCount
      ensures |BinBlocks(SubBatch(m, batch, shardCount), ShardOf(shardCount), s)|
           == |KeysOfShard(batch, shardCount, s)|
    {
      ShardLoad(m, batch, shardCount, s);
    }
  }

  class RouterFrontend<V(!new)> {
    const dummy: Block<V>
    var routerBlocks: array<Block<V>>

    constructor (dummy: Block<V>, length: nat)
      ensures this.dummy == dummy && fresh(routerBlocks)
    {
      this.dummy := dummy;
      routerBlocks := new Block<V>[length](_ => dummy);
    }

    /**
      `process_sub_batch`.  It fails exactly when a shard's load exceeds the quota.  Otherwise
      slots `s * quota .. (s + 1) * quota` hold the reduced batch's blocks of shard `s`, dummies
      behind them, whichever of batch and routed length is larger.
     */
    method ProcessSubBatch(m: Values<V>, batch: seq<Block<V>>, shardCount: nat, quota: nat) returns (ok: bool)
      requires IsPowerOfTwo(shardCount) && !dummy.Real()
      modifies this
      ensures fresh(routerBlocks)
      ensures ok <==> !QuotaExceeded(SubBatch(m, batch, shardCount), shardCount, quota)
      ensures shardCount >= 1 && (Separable(batch, shardCount) ==> (ok <==> !TooManyKeys(batch, shardCount, quota)))
      ensures ok ==> Routed(SubBatch(m, batch, shardCount), routerBlocks[..], ShardOf(shardCount), shardCount, quota)
    {
      hide Reduced, Live, SortedByKey, RouterKey, IsPowerOfTwo, Packed, InBinOrder, BinBlocks, Routed, Tallied,
           CompactedSlice, ShardIndexForTag, Separable, TooManyKeys;
      ShardIndexIs(0, shardCount);
      if Separable(batch, shardCount) { QuotaIsKeys(m, batch, shardCount, quota); }
      ghost var l := SubBatch(m, batch, shardCount);
      SubBatchInOrder(m, batch, shardCount);
      var blocks := new Block<V>[|batch|](i requires 0 <= i < |batch| => batch[i]);
      assert blocks[..] == batch;
      routerBlocks := blocks;
      var reducedLen := SortReduceCompact(m, blocks, KeyFor(shardCount));
      WholePacked(Reduced(m, SortedByKey(batch, KeyFor(shardCount))), blocks[..]);
      PackedFront(blocks[..], l);
      var counts := new nat[shardCount](_ => 0);
      CountLoads(counts, blocks, reducedLen, ShardOf(shardCount));
      var maxLoad := MaxLoad(counts);
      LoadDecides(counts[..], l, shardCount, maxLoad, quota);
      ok := maxLoad <= quota;
      if !ok {
        return;
      }
      routerBlocks := RouteToBins(blocks, counts, quota, dummy, l, ShardOf(shardCount));
    }
  }

  /** The largest load decides. */
  lemma LoadDecides<V>(c: seq<nat>, l: seq<Block<V>>, shardCount: nat, maxLoad: nat, quota: nat)
    requires IsPowerOfTwo(shardCount) && |c| == shardCount && Tallied(c, l, ShardOf(shardCount))
    requires (forall s :: 0 <= s < |c| ==> c[s] <= maxLoad) && (maxLoad == 0 || maxLoad in c)
    ensures QuotaExceeded(l, shardCount, quota) <==> maxLoad > quota
    ensures maxLoad <= quota ==> forall s :: 0 <= s < |c| ==> c[s] <= quota
    ensures forall s: nat :: s < |c| ==> c[s] == |BinBlocks(l, ShardOf(shardCount), s)|
  {
    hide IsPowerOfTwo, ShardIndexForTag, BinBlocks, Tallied;
    TalliedIs(c, l, ShardOf(shardCount));
    if maxLoad > quota {
      var s: nat :| s < |c| && c[s] == maxLoad;
      assert |BinBlocks(l, ShardOf(shardCount), s)| > quota;
    }
  }

  lemma TalliedIs<V>(c: seq<nat>, l: seq<Block<V>>, binOf: Block<V> -> nat)
    requires Tallied(c, l, binOf)
    ensures forall b: nat :: b < |c| ==> c[b] == |BinBlocks(l, binOf, b)|
  {
  }
}
