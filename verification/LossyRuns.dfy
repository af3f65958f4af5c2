/**
  Runs that fill the batch of a new sharded histogram exactly once: what the flush keeps,
  and what it loses when the batch size is no multiple of the number of frontends.
 */
module LossyRuns {
  import opened OddEvenMerge
  import opened Blocks
  import opened Instances
  import opened Routing
  import opened Tree
  import opened Stash
  import opened Access
  import opened Crypto
  import opened Resize
  import opened Histogram
  import opened Frontend
  import opened Shards
  import opened Sharded
  import opened Readout
  import opened Holdings

  ghost function SumAll<V>(m: Values<V>, values: seq<V>): V {
    if values == [] then m.zero else m.plus(SumAll(m, values[..|values| - 1]), values[|values| - 1])
  }

  /** The pending updates after these values have been appended under one key. */
  ghost function Updates<V>(tag: Tag, payload: Payload, values: seq<V>): (us: seq<Block<V>>)
    ensures |us| == |values|
  {
    seq(|values|, i requires 0 <= i < |values| => Block(tag, 0, values[i], payload))
  }

  lemma {:induction false} UpdatesTotal<V>(m: Values<V>, tag: Tag, payload: Payload, values: seq<V>)
    requires tag != 0
    ensures Total(m, Updates(tag, payload, values), payload) == SumAll(m, values)
  {
    if values != [] {
      var n := |values| - 1;
      UpdatesTotal(m, tag, payload, values[..n]);
      assert Updates(tag, payload, values)[..n] == Updates(tag, payload, values[..n]);
    }
  }

  /** What one flush of a full batch leaves of its key. */
  /** How many of `n` values the slices of `f` frontends cover. */
  function CoveredLength(n: nat, f: nat): (r: nat)
    requires f >= 1
    ensures r <= n && r == f * (n / f)
  {
    SlicesFit(n, f);
    Slots(f, n / f)
  }

  lemma FlushedUpdates<V(!new)>(m: Values<V>, tag: Tag, payload: Payload, values: seq<V>, f: nat, dummy: Block<V>)
    requires Lawful(m) && tag != 0 && 1 <= f <= |values|
    ensures AfterFlush(m, m.zero, Updates(tag, payload, values), |values|, f, dummy, payload)
         == SumAll(m, values[..CoveredLength(|values|, f)])
  {
    hide Lawful, Total, SumAll;
    var n := |values|;
    SlicesFit(n, f);
    var c := Slots(f, n / f);
    hide Slots;
    assert Updates(tag, payload, values)[..c] == Updates(tag, payload, values[..c]);
    UpdatesTotal(m, tag, payload, values[..c]);
    NothingTotal(m, payload);
    Laws(m, SumAll(m, values[..c]), m.zero, m.zero);
  }

  lemma UpdatesPush<V>(tag: Tag, payload: Payload, values: seq<V>, i: nat)
    requires i < |values|
    ensures Updates(tag, payload, values[..i]) + [Block(tag, 0, values[i], payload)]
         == Updates(tag, payload, values[..i + 1])
  {
  }

  lemma UpdatesEnds<V>(tag: Tag, payload: Payload, values: seq<V>)
    ensures Updates(tag, payload, values[..0]) == [] && values[..|values|] == values
  {
  }

  /** A histogram that has stored nothing yet and has these updates pending. */
  ghost predicate Filling<V(!new)>(h: ShardedObliviousHistogram<V>, us: seq<Block<V>>, height: nat, ids: Ids)
    reads h, h.router, Owned(h.router.shards)
    reads set i | 0 <= i < |h.router.shards| :: h.router.shards[i]
    reads set i | 0 <= i < |h.router.shards| :: h.router.shards[i].stash
  {
    && h.Valid(height, ids) && h.router.pending == us && h.epoch == 0 && !h.autoResize && h.Held() <= |us|
    && forall p :: h.router.ShardSum(p) == h.router.cfg.values.zero
  }

  method Fresh<V(!new)>(shardCount: nat, totalCapacity: nat, batchSize: nat, perShardQuota: nat, frontendCount: nat,
                        cfg: Config<V>, prf: Cipher, oracles: nat -> Oracle, sizeInBytes: nat, ghost ids: Ids)
      returns (h: ShardedObliviousHistogram<V>)
    requires 1 <= shardCount <= MAX_SHARDS && IsPowerOfTwo(shardCount) && Lawful(cfg.values) && cfg.a >= 1
    requires IsPowerOfTwo(cfg.z) && totalCapacity / shardCount >= 1 && frontendCount >= 1
    requires TreeHeightForCapacity(totalCapacity / shardCount, cfg.z) <= MAX_TREE_HEIGHT
    ensures Filling(h, [], TreeHeightForCapacity(totalCapacity / shardCount, cfg.z), ids)
    ensures fresh(h) && fresh(h.router) && fresh(h.router.repr)
    ensures h.router.cfg == cfg && h.router.prf == prf && h.router.batchCapacity == batchSize
    ensures h.router.perShardQuota == perShardQuota && |h.router.frontends| == frontendCount
  {
    hide Lawful, TreeHeightForCapacity, h.router.Valid, h.router.ShardSum, h.SumOf, h.Held, h.Stores, States, NewState;
    h := NewSharded(shardCount, totalCapacity, batchSize, perShardQuota, frontendCount, cfg, prf, oracles, sizeInBytes,
                    ids);
  }

  /** An append that does not fill the batch. */
  method AppendShort<V(!new)>(h: ShardedObliviousHistogram<V>, key: seq<Byte>, value: V, ghost us: seq<Block<V>>,
                              ghost height: nat, ghost ids: Ids)
    requires Filling(h, us, height, ids) && |us| + 1 < h.router.batchCapacity
    requires (TagOf(Chained(h.router.prf, key)), Padded(key, h.router.cfg.k)) in ids
    modifies h, h.router, h.router.repr
    ensures fresh(h.router.repr - old(h.router.repr))
    ensures var block := Block(TagOf(Chained(h.router.prf, key)), 0, value, Padded(key, h.router.cfg.k));
      Filling(h, us + [block], height, ids)
  {
    hide AfterFlush, TagOf, Chained, Padded, AppendShare, h.router.Valid, h.router.ShardSum, h.SumOf, h.Held, h.Stores,
         h.router.AlwaysRoutes, h.router.Covers, h.router.Flushed, States;
    var ok;
    ghost var now;
    ok, now := h.Append(key, value, height, ids);
  }

  /** The append that fills the batch. */
  method AppendLast<V(!new)>(h: ShardedObliviousHistogram<V>, key: seq<Byte>, value: V, ghost us: seq<Block<V>>,
                             ghost height: nat, ghost ids: Ids)
    requires Filling(h, us, height, ids) && |us| + 1 == h.router.batchCapacity && |h.router.frontends| >= 1
    requires h.router.AlwaysRoutes() && |us| + 1 < h.router.cfg.s
    requires (TagOf(Chained(h.router.prf, key)), Padded(key, h.router.cfg.k)) in ids
    modifies h, h.router, h.router.repr
    ensures h.router.pending == []
    ensures var block := Block(TagOf(Chained(h.router.prf, key)), 0, value, Padded(key, h.router.cfg.k));
      forall p :: h.SumOf(p) == AfterFlush(h.router.cfg.values, h.router.cfg.values.zero, us + [block], |us| + 1,
                                           |h.router.frontends|, h.router.cfg.Dummy(), p)
  {
    hide AfterFlush, TagOf, Chained, Padded, AppendShare, h.router.Valid, h.router.ShardSum, h.SumOf, h.Held, h.Stores,
         h.router.AlwaysRoutes, h.router.Covers, h.router.Flushed, States;
    var ok;
    ghost var now;
    ok, now := h.Append(key, value, height, ids);
    assert ok;
  }

  /**
    Appends the values under one key to a new histogram whose batch they just fill.  No append
    fails, and after the last one the key's sum is that of the values the slices cover.
   */
  method AppendFull<V(!new)>(shardCount: nat, totalCapacity: nat, perShardQuota: nat, frontendCount: nat,
                             cfg: Config<V>, prf: Cipher, oracles: nat -> Oracle, sizeInBytes: nat, key: seq<Byte>,
                             values: seq<V>)
      returns (h: ShardedObliviousHistogram<V>)
    requires 1 <= shardCount <= MAX_SHARDS && IsPowerOfTwo(shardCount) && Lawful(cfg.values) && cfg.a >= 1
    requires IsPowerOfTwo(cfg.z) && totalCapacity / shardCount >= 1
    requires TreeHeightForCapacity(totalCapacity / shardCount, cfg.z) <= MAX_TREE_HEIGHT
    requires 1 <= frontendCount <= |values| < cfg.s && |values| / frontendCount <= perShardQuota / frontendCount
    requires TagOf(Chained(prf, key)) != 0
    ensures h.router.cfg == cfg && h.router.pending == []
    ensures h.SumOf(Padded(key, cfg.k))
         == SumAll(cfg.values, values[..CoveredLength(|values|, frontendCount)])
  {
    hide Sound, Known, Lawful, Total, MatchCount, Live, AllStored, AllLoad, AllSum, TreeHeightForCapacity, AfterFlush,
         TagOf, Chained, Padded, SumAll, Filling, Updates, CoveredLength;
    ghost var tag, payload := TagOf(Chained(prf, key)), Padded(key, cfg.k);
    ghost var ids: Ids := iset{(tag, payload)};
    ghost var height := TreeHeightForCapacity(totalCapacity / shardCount, cfg.z);
    var n := |values|;
    h := Fresh(shardCount, totalCapacity, n, perShardQuota, frontendCount, cfg, prf, oracles, sizeInBytes, ids);
    UpdatesEnds(tag, payload, values);
    for i := 0 to n - 1
      invariant Filling(h, Updates(tag, payload, values[..i]), height, ids) && fresh(h.router.repr)
    {
      AppendShort(h, key, values[i], Updates(tag, payload, values[..i]), height, ids);
      UpdatesPush(tag, payload, values, i);
    }
    AppendLast(h, key, values[n - 1], Updates(tag, payload, values[..n - 1]), height, ids);
    UpdatesPush(tag, payload, values, n - 1);
    FlushedUpdates(cfg.values, tag, payload, values, frontendCount, cfg.Dummy());
  }

  // ---- What is lost --------------------------------------------------------------------------------------

  lemma {:induction false} ZerosSum<V(!new)>(m: Values<V>, n: nat)
    requires Lawful(m)
    ensures SumAll(m, seq(n, _ => m.zero)) == m.zero
  {
    hide Lawful;
    Laws(m, m.zero, m.zero, m.zero);
    if n > 0 {
      ZerosSum(m, n - 1);
      assert seq(n, _ => m.zero)[..n - 1] == seq(n - 1, _ => m.zero);
    }
  }

  /** Of zeros and a last value, all but the last are worth nothing. */
  lemma LastCounts<V(!new)>(m: Values<V>, n: nat, c: nat, v: V)
    requires Lawful(m) && c < n
    ensures var values := seq(n - 1, _ => m.zero) + [v]; SumAll(m, values) == v && SumAll(m, values[..c]) == m.zero
  {
    hide Lawful;
    var values := seq(n - 1, _ => m.zero) + [v];
    ZerosSum(m, n - 1);
    ZerosSum(m, c);
    assert values[..n - 1] == seq(n - 1, _ => m.zero) && values[..c] == seq(c, _ => m.zero);
    Laws(m, v, m.zero, m.zero);
  }

  /**
    For any batch size that is no multiple of the number of frontends, and any value: a run of
    appends that all succeed, whose values add up to that value, and whose key ends up with the
    default, in shards and buffer together.
   */
  method LoseLast<V(!new)>(shardCount: nat, totalCapacity: nat, batchSize: nat, perShardQuota: nat, frontendCount: nat,
                           cfg: Config<V>, prf: Cipher, oracles: nat -> Oracle, sizeInBytes: nat, key: seq<Byte>, v: V)
      returns (h: ShardedObliviousHistogram<V>, values: seq<V>)
    requires 1 <= shardCount <= MAX_SHARDS && IsPowerOfTwo(shardCount) && Lawful(cfg.values) && cfg.a >= 1
    requires IsPowerOfTwo(cfg.z) && totalCapacity / shardCount >= 1
    requires TreeHeightForCapacity(totalCapacity / shardCount, cfg.z) <= MAX_TREE_HEIGHT
    requires 1 <= frontendCount <= batchSize < cfg.s && batchSize / frontendCount <= perShardQuota / frontendCount
    requires TagOf(Chained(prf, key)) != 0 && batchSize % frontendCount != 0
    ensures |values| == batchSize && SumAll(cfg.values, values) == v
    ensures h.router.cfg == cfg && h.router.pending == [] && h.SumOf(Padded(key, cfg.k)) == cfg.values.zero
  {
    hide Lawful, TreeHeightForCapacity, TagOf, Chained, Padded, SumAll, h.SumOf;
    values := seq(batchSize - 1, _ => cfg.values.zero) + [v];
    h := AppendFull(shardCount, totalCapacity, perShardQuota, frontendCount, cfg, prf, oracles, sizeInBytes, key,
                    values);
    SlicesFit(batchSize, frontendCount);
    LastCounts(cfg.values, batchSize, CoveredLength(batchSize, frontendCount), v);
  }

  lemma {:induction false} OnesSum(n: nat)
    requires n <= 10
    ensures SumAll(COUNTERS, seq(n, _ => 1 as U64)) == n
  {
    if n > 0 {
      OnesSum(n - 1);
      assert seq(n, _ => 1 as U64)[..n - 1] == seq(n - 1, _ => 1 as U64);
    }
  }

  /** Ten increments of one key through four frontends, all successful: the key is left with eight. */
  method TenByFour(shardCount: nat, totalCapacity: nat, perShardQuota: nat, cfg: Config<U64>, prf: Cipher,
                   oracles: nat -> Oracle, sizeInBytes: nat, key: seq<Byte>)
      returns (h: ShardedObliviousHistogram<U64>)
    requires 1 <= shardCount <= MAX_SHARDS && IsPowerOfTwo(shardCount) && cfg.values == COUNTERS && cfg.a >= 1
    requires IsPowerOfTwo(cfg.z) && totalCapacity / shardCount >= 1
    requires TreeHeightForCapacity(totalCapacity / shardCount, cfg.z) <= MAX_TREE_HEIGHT
    requires cfg.s > 10 && perShardQuota >= 8 && TagOf(Chained(prf, key)) != 0
    ensures h.router.cfg == cfg && h.router.pending == [] && h.SumOf(Padded(key, cfg.k)) == 8
  {
    hide Lawful, TreeHeightForCapacity, TagOf, Chained, Padded, SumAll, h.SumOf;
    CountersLawful();
    var values := seq(10, _ => 1 as U64);
    h := AppendFull(shardCount, totalCapacity, perShardQuota, 4, cfg, prf, oracles, sizeInBytes, key, values);
    assert CoveredLength(10, 4) == 8 && values[..8] == seq(8, _ => 1 as U64);
    OnesSum(8);
  }
}
