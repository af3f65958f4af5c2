/**
  The sharded histogram: updates wait in a batch, a flush routes them through the
  frontends to the shards, reads flush first and then visit every shard, and the shards
  grow together.
 */
module Sharded {
  import opened Arithmetic
  import opened Wrappers
  import opened OddEvenMerge
  import opened Blocks
  import opened Reduction
  import opened Routing
  import opened SortReduce
  import opened Tree
  import opened Stash
  import opened Access
  import opened Contents
  import opened Resize
  import Clock
  import opened Crypto
  import opened Histogram
  import opened Readout
  import opened Presence
  import opened Capacity
  import opened Holdings
  import opened Router
  import opened Partition
  import opened Frontend
  import opened Dispatch
  import opened Steps
  import opened Moves
  import opened Shards

  // ---- The batch --------------------------------------------------------------------------------------------

  /** The pending updates, padded with dummies to a full batch. */
  ghost function Batch<V>(pending: seq<Block<V>>, n: nat, dummy: Block<V>): (b: seq<Block<V>>)
    ensures |b| >= n
  {
    if |pending| < n then pending + Dummies(n - |pending|, dummy) else pending
  }

  /** `f` slices of `n / f` updates lie within a batch of `n`. */
  lemma SlicesFit(n: nat, f: nat)
    requires f >= 1
    ensures Slots(f, n / f) <= n && (Slots(f, n / f) == n <==> n % f == 0)
    ensures n / f >= 1 ==> n >= f
  {
    assert n == f * (n / f) + n % f;
  }

  /** A batch that is covered by its slices keeps the totals. */
  lemma CoveredBatch<V(!new)>(m: Values<V>, pending: seq<Block<V>>, n: nat, dummy: Block<V>, p: Payload)
    requires Lawful(m) && !dummy.Real()
    ensures m.plus(Total(m, Batch(pending, n, dummy)[..n], p), Total(m, if |pending| > n then pending[n..] else [], p))
              == Total(m, pending, p)
  {
    hide Lawful, Total;
    NothingTotal(m, p);
    if |pending| < n {
      var d := Dummies(n - |pending|, dummy);
      assert Batch(pending, n, dummy)[..n] == pending + d;
      TotalConcat(m, pending, d, p);
      TotalAbsent(m, d, p);
      Laws(m, Total(m, pending, p), m.zero, m.zero);
    } else {
      assert pending == pending[..n] + pending[n..];
      TotalConcat(m, pending[..n], pending[n..], p);
      if |pending| == n { assert pending[n..] == []; }
    }
  }

  lemma FlushedSum<V(!new)>(m: Values<V>, pending: seq<Block<V>>, n: nat, dummy: Block<V>, rest: seq<Block<V>>,
                            shardSum: V, p: Payload)
    requires Lawful(m) && !dummy.Real() && rest == if |pending| > n then pending[n..] else []
    ensures m.plus(m.plus(shardSum, Total(m, Batch(pending, n, dummy)[..n], p)), Total(m, rest, p))
              == m.plus(shardSum, Total(m, pending, p))
  {
    hide Lawful, Total, Batch;
    CoveredBatch(m, pending, n, dummy, p);
    Laws(m, shardSum, Total(m, Batch(pending, n, dummy)[..n], p), Total(m, rest, p));
  }

  /** The part of the batch that `f` frontends' slices cover. */
  ghost function CoveredOf<V>(pending: seq<Block<V>>, n: nat, f: nat, dummy: Block<V>): seq<Block<V>>
    requires f >= 1
  {
    SlicesFit(n, f);
    if pending == [] then [] else Batch(pending, n, dummy)[..Slots(f, n / f)]
  }

  /** What a flush leaves in the buffer. */
  ghost function RestOf<V>(pending: seq<Block<V>>, n: nat): seq<Block<V>> {
    if |pending| > n then pending[n..] else []
  }

  /** What shards and buffer hold together after a flush, the shards having held `shardSum` before. */
  ghost function AfterFlush<V>(m: Values<V>, shardSum: V, pending: seq<Block<V>>, n: nat, f: nat, dummy: Block<V>,
                               p: Payload): V
    requires f >= 1
  {
    m.plus(m.plus(shardSum, Total(m, CoveredOf(pending, n, f, dummy), p)), Total(m, RestOf(pending, n), p))
  }

  /** Flushing full batches of this size through so many frontends keeps every sum, whatever is stored and pending. */
  ghost predicate FlushKeepsAll<V(!new)>(m: Values<V>, n: nat, f: nat, dummy: Block<V>)
    requires f >= 1
  {
    forall shardSum: V, pending: seq<Block<V>>, p: Payload :: |pending| == n ==>
        AfterFlush(m, shardSum, pending, n, f, dummy, p) == m.plus(shardSum, Total(m, pending, p))
  }

  /** A flush of full batches keeps every sum exactly when the batch size is a multiple of the number of frontends. */
  lemma FlushKeepsIff<V(!new)>(m: Values<V>, n: nat, f: nat, dummy: Block<V>, v: V)
    requires Lawful(m) && v != m.zero && 1 <= f <= n && !dummy.Real()
    ensures FlushKeepsAll(m, n, f, dummy) <==> n % f == 0
  {
    hide Lawful, Total, AfterFlush;
    SlicesFit(n, f);
    if n % f == 0 {
      forall shardSum: V, pending: seq<Block<V>>, p: Payload | |pending| == n
        ensures AfterFlush(m, shardSum, pending, n, f, dummy, p) == m.plus(shardSum, Total(m, pending, p))
      {
        CoveredFlush(m, shardSum, pending, n, f, dummy, p);
      }
    } else {
      LastLost(m, n, f, dummy, v);
    }
  }

  /** When the slices cover the batch, a flush keeps the sum. */
  lemma CoveredFlush<V(!new)>(m: Values<V>, shardSum: V, pending: seq<Block<V>>, n: nat, f: nat, dummy: Block<V>,
                              p: Payload)
    requires Lawful(m) && f >= 1 && n % f == 0 && !dummy.Real()
    ensures AfterFlush(m, shardSum, pending, n, f, dummy, p) == m.plus(shardSum, Total(m, pending, p))
  {
    hide Lawful, Total;
    SlicesFit(n, f);
    if pending == [] {
      NothingTotal(m, p);
      Laws(m, shardSum, m.zero, m.zero);
    } else {
      FlushedSum(m, pending, n, dummy, RestOf(pending, n), shardSum, p);
    }
  }

  /** Otherwise the last update of a full batch is lost. */
  lemma LastLost<V(!new)>(m: Values<V>, n: nat, f: nat, dummy: Block<V>, v: V)
    requires Lawful(m) && v != m.zero && 1 <= f <= n && n % f != 0
    ensures !FlushKeepsAll(m, n, f, dummy)
  {
    hide Lawful, Total;
    SlicesFit(n, f);
    var c := Slots(f, n / f);
    hide Slots;
    var d, last := Block(0, 0, m.zero, []), Block(1, 0, v, []);
    var front: seq<Block<V>> := Dummies(n - 1, d);
    var pending := front + [last];
    assert CoveredOf(pending, n, f, dummy) == front[..c];
    TotalAbsent(m, front[..c], []);
    TotalAbsent(m, front, []);
    TotalAppend(m, front, last, []);
    NothingTotal(m, []);
    Laws(m, v, m.zero, m.zero);
    Laws(m, m.zero, m.zero, m.zero);
    assert AfterFlush(m, m.zero, pending, n, f, dummy, []) != m.plus(m.zero, Total(m, pending, []));
  }

  /** A flush takes no more real blocks from the buffer than leave it. */
  lemma FlushedLoads<V>(pending: seq<Block<V>>, n: nat, f: nat, dummy: Block<V>)
    requires f >= 1 && !dummy.Real()
    ensures |Live(CoveredOf(pending, n, f, dummy))| + |Live(RestOf(pending, n))| <= |Live(pending)|
  {
    hide Live;
    SlicesFit(n, f);
    LiveNone<V>([]);
    var b, c := Batch(pending, n, dummy), Slots(f, n / f);
    if |pending| < n {
      LiveConcat(pending, Dummies(n - |pending|, dummy));
      LiveNone(Dummies(n - |pending|, dummy));
    }
    assert b == b[..n] + b[n..] && b[..n] == b[..c] + b[c..n];
    LiveConcat(b[..n], b[n..]);
    LiveConcat(b[..c], b[c..n]);
    assert RestOf(pending, n) == b[n..];
  }

  /** When the slices cover the batch, a flush keeps every key. */
  lemma CoveredKeys<V>(pending: seq<Block<V>>, n: nat, f: nat, dummy: Block<V>, p: Payload)
    requires f >= 1 && n % f == 0 && !dummy.Real()
    ensures MatchCount(CoveredOf(pending, n, f, dummy), p) > 0 || MatchCount(RestOf(pending, n), p) > 0
       <==> MatchCount(pending, p) > 0
  {
    hide MatchCount, Slots;
    SlicesFit(n, f);
    DummiesAbsent<V>([], p);
    if pending != [] {
      var b := Batch(pending, n, dummy);
      if |pending| < n {
        CountConcat(pending, Dummies(n - |pending|, dummy), p);
        DummiesAbsent(Dummies(n - |pending|, dummy), p);
      }
      assert b == b[..n] + b[n..] && RestOf(pending, n) == b[n..];
      CountConcat(b[..n], b[n..], p);
    }
  }

  lemma NothingTotal<V>(m: Values<V>, p: Payload)
    ensures Total(m, [], p) == m.zero
  {
  }

  lemma BatchKnown<V>(pending: seq<Block<V>>, n: nat, dummy: Block<V>, subN: nat, f: nat, ids: Ids)
    requires Known(pending, ids) && !dummy.Real()
    ensures forall i :: 0 <= i < f ==> Known(Slices(Batch(pending, n, dummy), subN, f)[i], ids)
  {
    hide Slots;
    var b := Batch(pending, n, dummy);
    forall i: nat | i < f ensures Known(Slices(b, subN, f)[i], ids) {
      var s := Slices(b, subN, f)[i];
      forall j | 0 <= j < |s| && s[j].Real() ensures (s[j].tag, s[j].payload) in ids {
        assert s[j] == b[Slots(i, subN) + j];
      }
    }
  }

  class ShardedBatchRouter<V(!new)> {
    const cfg: Config<V>
    const prf: Cipher
    const shards: seq<ObliviousHistogram<V>>
    const frontends: seq<RouterFrontend<V>>
    const batchCapacity: nat
    const perShardQuota: nat
    var pending: seq<Block<V>>
    ghost var repr: set<object>

    ghost function Frontends(): set<object> { set f | 0 <= f < |frontends| :: frontends[f] }

    /** All shards stand at this height. */
    ghost function Heights(height: nat): seq<nat> { seq(|shards|, _ => height) }

    /** The shards are sound and equally high, and no block carries a key outside `ids`. */
    ghost predicate Valid(height: nat, ids: Ids)
      reads this, Owned(shards)
      reads set i | 0 <= i < |shards| :: shards[i]
      reads set i | 0 <= i < |shards| :: shards[i].stash
    {
      && Sound(shards, cfg, Heights(height), ids) && Lawful(cfg.values)
      && |frontends| >= 1 && (forall f :: 0 <= f < |frontends| ==> frontends[f].dummy == cfg.Dummy())
      && Known(pending, ids)
      && Frontends() !! Owned(shards) && Owned(shards) + Frontends() <= repr && this !in repr
    }

    /** What the shards together hold for `p`. */
    ghost function ShardSum(p: Payload): V
      reads Owned(shards)
      reads set i | 0 <= i < |shards| :: shards[i]
      reads set i | 0 <= i < |shards| :: shards[i].stash
    {
      AllSum(cfg.values, Mems(shards), Stashes(shards), p)
    }

    /** What shards and pending updates together hold for `p`. */
    ghost function SumOf(p: Payload): V
      reads this, Owned(shards)
      reads set i | 0 <= i < |shards| :: shards[i]
      reads set i | 0 <= i < |shards| :: shards[i].stash
    {
      cfg.values.plus(ShardSum(p), Total(cfg.values, pending, p))
    }

    /** Some shard or some pending update carries the key. */
    ghost predicate Stores(p: Payload)
      reads this, Owned(shards)
      reads set i | 0 <= i < |shards| :: shards[i]
      reads set i | 0 <= i < |shards| :: shards[i].stash
    {
      AllStored(Mems(shards), Stashes(shards), p) || MatchCount(pending, p) > 0
    }

    /** The number of real blocks in the shards. */
    ghost function ShardHeld(): nat
      reads Owned(shards)
      reads set i | 0 <= i < |shards| :: shards[i]
      reads set i | 0 <= i < |shards| :: shards[i].stash
    {
      AllLoad(Mems(shards), Stashes(shards))
    }

    /** The same, with those among the pending updates. */
    ghost function Held(): nat
      reads this, Owned(shards)
      reads set i | 0 <= i < |shards| :: shards[i]
      reads set i | 0 <= i < |shards| :: shards[i].stash
    {
      ShardHeld() + |Live(pending)|
    }

    /** Compared with contents before, the shards have taken these blocks, and nothing else has changed. */
    ghost predicate Took(mems: seq<seq<Block<V>>>, stashes: seq<seq<Block<V>>>, taken: seq<Block<V>>)
      requires |mems| == |stashes|
      reads Owned(shards)
      reads set i | 0 <= i < |shards| :: shards[i]
      reads set i | 0 <= i < |shards| :: shards[i].stash
    {
      && (forall p :: ShardSum(p) == cfg.values.plus(AllSum(cfg.values, mems, stashes, p), Total(cfg.values, taken, p)))
      && (forall p :: AllStored(Mems(shards), Stashes(shards), p)
                 <==> AllStored(mems, stashes, p) || MatchCount(taken, p) > 0)
      && AllLoad(Mems(shards), Stashes(shards)) <= AllLoad(mems, stashes) + |Live(taken)|
    }

    /** No frontend finds more blocks for a shard in its slice of this batch than its part of the quota. */
    ghost predicate WithinQuota(batch: seq<Block<V>>, subN: nat, subQuota: nat)
      requires IsPowerOfTwo(|shards|)
    {
      forall f :: 0 <= f < |frontends| ==>
        !QuotaExceeded(SubBatch(cfg.values, Slices(batch, subN, |frontends|)[f], |shards|), |shards|, subQuota)
    }

    /** What the frontends make of their slices of a batch. */
    ghost predicate RoutedAs(batch: seq<Block<V>>, subN: nat, subQuota: nat, rs: seq<seq<Block<V>>>)
      requires IsPowerOfTwo(|shards|)
    {
      && |rs| == |frontends|
      && forall f :: 0 <= f < |frontends| ==>
           Routed(SubBatch(cfg.values, Slices(batch, subN, |frontends|)[f], |shards|), rs[f], ShardOf(|shards|),
                  |shards|, subQuota)
    }

    /** A batch has gone through the frontends, and every shard has taken its slots from every frontend. */
    ghost predicate Delivered(batch: seq<Block<V>>, subN: nat, subQuota: nat, before: seq<State<V>>,
                              after: seq<State<V>>)
      requires IsPowerOfTwo(|shards|)
    {
      exists rs :: RoutedAs(batch, subN, subQuota, rs)
                   && AllMoved(cfg, Oracles(shards), Feed(rs, subQuota), before, after)
    }

    lemma DeliveredAs(batch: seq<Block<V>>, subN: nat, subQuota: nat, rs: seq<seq<Block<V>>>, before: seq<State<V>>,
                      after: seq<State<V>>)
      requires IsPowerOfTwo(|shards|) && RoutedAs(batch, subN, subQuota, rs)
      requires AllMoved(cfg, Oracles(shards), Feed(rs, subQuota), before, after)
      ensures Delivered(batch, subN, subQuota, before, after)
    {
      hide RoutedAs, AllMoved, IsPowerOfTwo;
    }

    /** A flush of this buffer: nothing, or the delivery of the padded batch at its head. */
    ghost predicate FlushStep(pending: seq<Block<V>>, before: seq<State<V>>, after: seq<State<V>>)
      requires IsPowerOfTwo(|shards|) && |frontends| >= 1
    {
      if pending == [] then after == before
      else Delivered(Batch(pending, batchCapacity, cfg.Dummy()), batchCapacity / |frontends|,
                     perShardQuota / |frontends|, before, after)
    }

    /** A flush, and the growth of all shards that follows it on the first one's signal. */
    ghost predicate Flushed(resizing: bool, pending: seq<Block<V>>, before: seq<State<V>>, grew: bool,
                            after: seq<State<V>>)
      requires IsPowerOfTwo(|shards|) && |frontends| >= 1
    {
      exists mid :: FlushStep(pending, before, mid) && ResizeStep(cfg, Oracles(shards), resizing, mid, grew, after)
    }

    lemma FlushedBy(resizing: bool, pending: seq<Block<V>>, before: seq<State<V>>, mid: seq<State<V>>, grew: bool,
                    after: seq<State<V>>)
      requires IsPowerOfTwo(|shards|) && |frontends| >= 1 && FlushStep(pending, before, mid)
      requires ResizeStep(cfg, Oracles(shards), resizing, mid, grew, after)
      ensures Flushed(resizing, pending, before, grew, after)
    {
      hide FlushStep, ResizeStep, IsPowerOfTwo;
    }

    /** A flush, the growth it may lead to, and then a read for a key. */
    ghost predicate FlushedAndRead(resizing: bool, pending: seq<Block<V>>, tag: Tag, payload: Payload,
                                   indices: nat -> nat, before: seq<State<V>>, grew: bool, after: seq<State<V>>)
      requires IsPowerOfTwo(|shards|) && |frontends| >= 1
    {
      exists mid :: Flushed(resizing, pending, before, grew, mid)
                    && AllMoved(cfg, Oracles(shards), Visit(ShardIndexForTag(tag, |shards|), tag, payload, indices),
                                mid, after)
    }

    lemma ReadAfter(resizing: bool, pending: seq<Block<V>>, tag: Tag, payload: Payload, indices: nat -> nat,
                    before: seq<State<V>>, mid: seq<State<V>>, grew: bool, after: seq<State<V>>)
      requires IsPowerOfTwo(|shards|) && |frontends| >= 1 && Flushed(resizing, pending, before, grew, mid)
      requires AllMoved(cfg, Oracles(shards), Visit(ShardIndexForTag(tag, |shards|), tag, payload, indices), mid, after)
      ensures FlushedAndRead(resizing, pending, tag, payload, indices, before, grew, after)
    {
      hide Flushed, AllMoved, IsPowerOfTwo;
    }

    /** The frontends can route the batch at the head of the buffer. */
    ghost predicate CanRoute()
      requires IsPowerOfTwo(|shards|) && |frontends| >= 1
      reads this
    {
      && batchCapacity >= |frontends|
      && WithinQuota(Batch(pending, batchCapacity, cfg.Dummy()), batchCapacity / |frontends|,
                     perShardQuota / |frontends|)
    }

    /** The frontends can route any batch: no slice has more blocks than the quota for one shard. */
    predicate AlwaysRoutes()
      requires |frontends| >= 1
    {
      batchCapacity >= |frontends| && batchCapacity / |frontends| <= perShardQuota / |frontends|
    }

    /** What can be said of a valid router without its shards' contents. */
    lemma Outline(height: nat, ids: Ids)
      requires Valid(height, ids)
      ensures |shards| >= 1 && |frontends| >= 1 && IsPowerOfTwo(|shards|) && Lawful(cfg.values)
      ensures height <= MAX_TREE_HEIGHT && Owned(shards) + Frontends() <= repr && this !in repr
    {
      hide Sound, Known, Lawful, IsPowerOfTwo, Owned;
      HeightBound(shards, cfg, Heights(height), ids);
      assert Heights(height)[0] == height;
      SoundShards(shards, cfg, Heights(height), ids);
    }

    lemma CanRouteFrontends()
      requires IsPowerOfTwo(|shards|) && |frontends| >= 1
      ensures CanRoute() ==> batchCapacity >= |frontends|
    {
    }

    lemma CanRouteIs()
      requires IsPowerOfTwo(|shards|) && |frontends| >= 1
      ensures CanRoute() <==>
              batchCapacity / |frontends| > 0
              && WithinQuota(Batch(pending, batchCapacity, cfg.Dummy()), batchCapacity / |frontends|,
                             perShardQuota / |frontends|)
    {
      hide WithinQuota, IsPowerOfTwo, Batch;
    }

    lemma RoutesAlways()
      requires IsPowerOfTwo(|shards|) && |frontends| >= 1 && AlwaysRoutes()
      ensures CanRoute()
    {
      hide IsPowerOfTwo, QuotaExceeded, SubBatch, Slots;
      var batch, subN := Batch(pending, batchCapacity, cfg.Dummy()), batchCapacity / |frontends|;
      forall f | 0 <= f < |frontends|
        ensures !QuotaExceeded(SubBatch(cfg.values, Slices(batch, subN, |frontends|)[f], |shards|), |shards|,
                               perShardQuota / |frontends|)
      {
        QuotaSuffices(cfg.values, Slices(batch, subN, |frontends|)[f], |shards|, perShardQuota / |frontends|);
      }
    }

    /** Every slice of the batch has tags that tell its keys apart. */
    ghost predicate Tells(batch: seq<Block<V>>, subN: nat)
      requires |shards| >= 1
    {
      forall f :: 0 <= f < |frontends| ==> Separable(Slices(batch, subN, |frontends|)[f], |shards|)
    }

    /** Such a batch is within the quota exactly when no slice has more keys of one shard than a frontend's part. */
    lemma WithinQuotaIs(batch: seq<Block<V>>, subN: nat, subQuota: nat)
      requires IsPowerOfTwo(|shards|) && |shards| >= 1 && Tells(batch, subN)
      ensures WithinQuota(batch, subN, subQuota)
         <==> forall f :: 0 <= f < |frontends| ==>
                !TooManyKeys(Slices(batch, subN, |frontends|)[f], |shards|, subQuota)
    {
      hide IsPowerOfTwo, QuotaExceeded, SubBatch, Slots, Separable, TooManyKeys;
      forall f | 0 <= f < |frontends|
        ensures QuotaExceeded(SubBatch(cfg.values, Slices(batch, subN, |frontends|)[f], |shards|), |shards|, subQuota)
           <==> TooManyKeys(Slices(batch, subN, |frontends|)[f], |shards|, subQuota)
      {
        QuotaIsKeys(cfg.values, Slices(batch, subN, |frontends|)[f], |shards|, subQuota);
      }
    }

    /** A flush counts as many appends in every shard, whatever the batch is. */
    lemma DeliveryCounts(batch: seq<Block<V>>, subN: nat, subQuota: nat, before: seq<State<V>>, after: seq<State<V>>,
                         s: nat)
      requires IsPowerOfTwo(|shards|) && Delivered(batch, subN, subQuota, before, after) && s < |shards|
      ensures s < |before| == |after|
      ensures after[s].c.appendCtr == before[s].c.appendCtr + Slots(|frontends|, subQuota)
    {
      hide IsPowerOfTwo, Routed, SubBatch, Slots, Moved;
      var rs :| RoutedAs(batch, subN, subQuota, rs)
                && AllMoved(cfg, Oracles(shards), Feed(rs, subQuota), before, after);
      forall f | 0 <= f < |rs| ensures Slots(s, subQuota) + subQuota <= |rs[f]| {
        RoutedIs(SubBatch(cfg.values, Slices(batch, subN, |frontends|)[f], |shards|), rs[f], ShardOf(|shards|),
                 |shards|, subQuota);
        SlotsMonotone(s, |shards|, subQuota);
      }
      FeedCounts(cfg, Oracles(shards)[s], rs, subQuota, s, before[s], after[s]);
    }

    /** Every flush of a buffer that is not empty uses up the quota, as far as the frontends share it evenly. */
    lemma FlushCounts(pending: seq<Block<V>>, before: seq<State<V>>, after: seq<State<V>>, s: nat)
      requires IsPowerOfTwo(|shards|) && |frontends| >= 1 && pending != [] && FlushStep(pending, before, after)
      requires s < |shards|
      ensures s < |before| == |after|
      ensures after[s].c.appendCtr == before[s].c.appendCtr + perShardQuota - perShardQuota % |frontends|
    {
      hide IsPowerOfTwo, Delivered;
      DeliveryCounts(Batch(pending, batchCapacity, cfg.Dummy()), batchCapacity / |frontends|,
                     perShardQuota / |frontends|, before, after, s);
      assert perShardQuota == |frontends| * (perShardQuota / |frontends|) + perShardQuota % |frontends|;
    }

    constructor (shards: seq<ObliviousHistogram<V>>, cfg: Config<V>, prf: Cipher, batchSize: nat, perShardQuota: nat,
                 frontendCount: nat, ghost height: nat, ghost ids: Ids)
      requires Sound(shards, cfg, seq(|shards|, _ => height), ids) && Lawful(cfg.values)
      ensures this.shards == shards && this.cfg == cfg && this.prf == prf && batchCapacity == batchSize
      ensures this.perShardQuota == perShardQuota
      ensures |frontends| == (if frontendCount < 1 then 1 else frontendCount) && pending == []
      ensures Valid(height, ids) && fresh(this) && fresh(repr - Owned(shards))
    {
      hide ShardOk, Lawful, IsPowerOfTwo;
      var count := if frontendCount < 1 then 1 else frontendCount;
      var dummy := cfg.Dummy();
      var fs: seq<RouterFrontend<V>> := [];
      for f := 0 to count
        invariant |fs| == f && forall g :: 0 <= g < f ==> fresh(fs[g]) && fs[g].dummy == dummy
        invariant Sound(shards, cfg, seq(|shards|, _ => height), ids)
      {
        assert forall i :: 0 <= i < |shards| ==> allocated(shards[i].Footprint());
        var frontend := new RouterFrontend<V>(dummy, batchSize / count);
        fs := fs + [frontend];
      }
      this.shards, this.cfg, this.prf, this.frontends := shards, cfg, prf, fs;
      this.batchCapacity, this.perShardQuota, this.pending := batchSize, perShardQuota, [];
      this.repr := Owned(shards) + set f | 0 <= f < |fs| :: fs[f];
      assert forall i :: 0 <= i < |shards| ==> allocated(shards[i].Footprint());
      new;
      assert Heights(height) == seq(|shards|, _ => height);
    }

    /** The frontends cover the whole batch: it is a multiple of their number. */
    predicate Covers()
      requires |frontends| >= 1
    {
      batchCapacity % |frontends| == 0
    }

    /** The first half of a flush: every frontend routes its slice of the batch. */
    method RouteBatch(batch: seq<Block<V>>, subN: nat, subQuota: nat) returns (ok: bool, rs: seq<seq<Block<V>>>)
      requires IsPowerOfTwo(|shards|) && Slots(|frontends|, subN) <= |batch| && !cfg.Dummy().Real()
      requires forall f :: 0 <= f < |frontends| ==> frontends[f].dummy == cfg.Dummy()
      modifies Frontends()
      ensures ok <==> WithinQuota(batch, subN, subQuota)
      ensures ok ==> RoutedAs(batch, subN, subQuota, rs)
    {
      hide IsPowerOfTwo, Slots, Routed, SubBatch, QuotaExceeded;
      rs := [];
      for f := 0 to |frontends|
        invariant |rs| == f
        invariant forall g :: 0 <= g < f ==>
                    !QuotaExceeded(SubBatch(cfg.values, Slices(batch, subN, |frontends|)[g], |shards|), |shards|,
                                   subQuota)
        invariant forall g :: 0 <= g < f ==>
                    Routed(SubBatch(cfg.values, Slices(batch, subN, |frontends|)[g], |shards|), rs[g],
                           ShardOf(|shards|), |shards|, subQuota)
      {
        SlotsMonotone(f, |frontends|, subN);
        assert frontends[f] in Frontends();
        var slice := batch[Slots(f, subN)..Slots(f, subN) + subN];
        assert slice == Slices(batch, subN, |frontends|)[f];
        ok := frontends[f].ProcessSubBatch(cfg.values, slice, |shards|, subQuota);
        if !ok {
          return;
        }
        rs := rs + [frontends[f].routerBlocks[..]];
      }
      ok := true;
    }

    /** The second half of a flush: the shards take their slots. */
    method TakeRouted(batch: seq<Block<V>>, subN: nat, subQuota: nat, rs: seq<seq<Block<V>>>, ghost height: nat,
                      ghost ids: Ids)
        returns (ok: bool)
      requires Sound(shards, cfg, Heights(height), ids) && Lawful(cfg.values) && Slots(|frontends|, subN) <= |batch|
      requires forall f :: 0 <= f < |frontends| ==> Known(Slices(batch, subN, |frontends|)[f], ids)
      requires IsPowerOfTwo(|shards|) && RoutedAs(batch, subN, subQuota, rs)
      modifies Owned(shards)
      ensures ok ==> Sound(shards, cfg, Heights(height), ids) && forall s :: 0 <= s < |shards| ==>
                fresh(shards[s].Footprint() - old(shards[s].Footprint()))
      ensures ok ==> Took(old(Mems(shards)), old(Stashes(shards)), batch[..Slots(|frontends|, subN)])
      ensures ok ==> Delivered(batch, subN, subQuota, old(States(shards)), States(shards))
      ensures old(ShardHeld()) + |Live(batch[..Slots(|frontends|, subN)])| < cfg.s ==> ok
    {
      hide AllMoved, Delivered, IsPowerOfTwo, Slots, Routed, SubBatch, Lawful, Known, Total, Absorbed, ShardIds,
           AsUpdates, Owned, AllSum, AllStored, AllLoad, MatchCount, Live, Columns, Flat, Load, EffectiveCount, Fits;
      ghost var mems, stashes, cols := Mems(shards), Stashes(shards), Columns(rs, subQuota, |shards|, |rs|);
      ghost var states := States(shards);
      forall s: nat | s < |shards|
        ensures Known(Column(rs, subQuota, s, |rs|), ids) && Known(Column(rs, subQuota, s, |rs|), ShardIds(s, |shards|))
      {
        ColumnKnown(cfg.values, Slices(batch, subN, |frontends|), rs, |shards|, subQuota, s, |rs|);
      }
      forall f | 0 <= f < |rs| ensures |rs[f]| == Slots(|shards|, subQuota) {
        RoutedIs(SubBatch(cfg.values, Slices(batch, subN, |frontends|)[f], |shards|), rs[f], ShardOf(|shards|),
                 |shards|, subQuota);
      }
      RoutedHoldings(cfg.values, batch, subN, rs, |shards|, subQuota);
      ColumnsAre(rs, subQuota, |shards|);
      if AllLoad(mems, stashes) + |Live(Flat(cols))| < cfg.s { FedFits(mems, stashes, cols, cfg.s); }
      ok := DispatchAll(shards, rs, subQuota, cfg, Heights(height), ids, states);
      if ok {
        DeliveredAs(batch, subN, subQuota, rs, states, States(shards));
        AllAbsorbed(shards, mems, stashes, cols, cfg, Heights(height), ids);
        FedLoad(mems, stashes, Mems(shards), Stashes(shards), cols);
        forall p ensures AllStored(Mems(shards), Stashes(shards), p)
                    <==> AllStored(mems, stashes, p) || MatchCount(batch[..Slots(|frontends|, subN)], p) > 0
        {
          FedStored(cfg.values, mems, stashes, Mems(shards), Stashes(shards), cols, p);
        }
        forall p ensures AllSum(cfg.values, Mems(shards), Stashes(shards), p)
                      == cfg.values.plus(AllSum(cfg.values, mems, stashes, p),
                                         Total(cfg.values, batch[..Slots(|frontends|, subN)], p))
        {
          FedSums(cfg.values, mems, stashes, Mems(shards), Stashes(shards), cols, p);
          RoutedTotals(cfg.values, batch, subN, rs, |shards|, subQuota, p);
        }
      }
    }

    /** The part of the batch that the frontends' slices cover. */
    ghost function Covered(): seq<Block<V>>
      requires |frontends| >= 1
      reads this
    {
      CoveredOf(pending, batchCapacity, |frontends|, cfg.Dummy())
    }

    /** A batch through the frontends into the shards. */
    method RouteAndTake(batch: seq<Block<V>>, subN: nat, subQuota: nat, ghost height: nat, ghost ids: Ids)
        returns (ok: bool)
      requires Valid(height, ids) && Slots(|frontends|, subN) <= |batch|
      requires forall f :: 0 <= f < |frontends| ==> Known(Slices(batch, subN, |frontends|)[f], ids)
      modifies Frontends(), Owned(shards)
      ensures ok ==> Sound(shards, cfg, Heights(height), ids) && forall s :: 0 <= s < |shards| ==>
                fresh(shards[s].Footprint() - old(shards[s].Footprint()))
      ensures ok ==> Took(old(Mems(shards)), old(Stashes(shards)), batch[..Slots(|frontends|, subN)])
      ensures IsPowerOfTwo(|shards|) && (ok ==> WithinQuota(batch, subN, subQuota))
      ensures ok ==> Delivered(batch, subN, subQuota, old(States(shards)), States(shards))
      ensures var taken := batch[..Slots(|frontends|, subN)];
        WithinQuota(batch, subN, subQuota) && old(ShardHeld()) + |Live(taken)| < cfg.s ==> ok
    {
      hide IsPowerOfTwo, Slots, Lawful, ShardIds, ShardOk, Owned, Known, Took, AllLoad, Live, WithinQuota, RoutedAs,
           Delivered;
      ghost var mems, stashes, states, feet := Mems(shards), Stashes(shards), States(shards), Feet(shards);
      OwnsShards(shards);
      assert forall i :: 0 <= i < |shards| ==> shards[i].Footprint() !! Frontends() && allocated(shards[i].Footprint());
      var rs;
      ok, rs := RouteBatch(batch, subN, subQuota);
      if ok {
        assert Mems(shards) == mems && Stashes(shards) == stashes && States(shards) == states && Feet(shards) == feet;
        ok := TakeRouted(batch, subN, subQuota, rs, height, ids);
      }
    }

    /** The same, with the shards' new storage taken into `repr`. */
    method FlushBatch(batch: seq<Block<V>>, subN: nat, subQuota: nat, ghost height: nat, ghost ids: Ids)
        returns (ok: bool)
      requires Valid(height, ids) && Slots(|frontends|, subN) <= |batch|
      requires forall f :: 0 <= f < |frontends| ==> Known(Slices(batch, subN, |frontends|)[f], ids)
      modifies this`repr, repr
      ensures ok ==> Valid(height, ids) && fresh(repr - old(repr))
      ensures ok ==> Took(old(Mems(shards)), old(Stashes(shards)), batch[..Slots(|frontends|, subN)])
      ensures IsPowerOfTwo(|shards|) && (ok ==> WithinQuota(batch, subN, subQuota))
      ensures ok ==> Delivered(batch, subN, subQuota, old(States(shards)), States(shards))
      ensures var taken := batch[..Slots(|frontends|, subN)];
        WithinQuota(batch, subN, subQuota) && old(ShardHeld()) + |Live(taken)| < cfg.s ==> ok
    {
      hide IsPowerOfTwo, Slots, Lawful, Total, ShardIds, AllSum, Sound, Owned, Known, AllStored, AllLoad, Live,
           MatchCount, WithinQuota, Delivered, States;
      ghost var feet := Feet(shards);
      OwnsShards(shards);
      ok := RouteAndTake(batch, subN, subQuota, height, ids);
      if ok {
        OwnedApart(shards, feet, Frontends() + {this});
        ghost var added := Owned(shards) - repr;
        forall o | o in added ensures fresh(o) { var s := OwnerOf(shards, o); }
        repr := repr + added;
      }
    }

    lemma NothingTaken()
      requires Lawful(cfg.values)
      ensures Took(Mems(shards), Stashes(shards), [])
    {
      hide Lawful, Total, AllSum, AllStored, AllLoad;
      forall p ensures ShardSum(p) == cfg.values.plus(ShardSum(p), Total(cfg.values, [], p)) {
        NothingTotal(cfg.values, p);
        Laws(cfg.values, ShardSum(p), cfg.values.zero, cfg.values.zero);
      }
    }

    /** Shards that have taken no blocks hold what they held. */
    lemma NothingMore(mems: seq<seq<Block<V>>>, stashes: seq<seq<Block<V>>>)
      requires Lawful(cfg.values) && |mems| == |stashes| && Took(mems, stashes, [])
      ensures forall p :: ShardSum(p) == AllSum(cfg.values, mems, stashes, p)
      ensures forall p :: AllStored(Mems(shards), Stashes(shards), p) <==> AllStored(mems, stashes, p)
      ensures ShardHeld() <= AllLoad(mems, stashes)
    {
      hide Lawful, AllSum, AllStored, AllLoad, Flat;
      forall p ensures ShardSum(p) == AllSum(cfg.values, mems, stashes, p) {
        assert ShardSum(p) == cfg.values.plus(AllSum(cfg.values, mems, stashes, p), Total(cfg.values, [], p));
        Laws(cfg.values, AllSum(cfg.values, mems, stashes, p), cfg.values.zero, cfg.values.zero);
      }
    }

    /** The batch at the head of the buffer, padded if need be, goes to the shards. */
    method FlushHead(ghost height: nat, ghost ids: Ids) returns (ok: bool)
      requires Valid(height, ids) && pending != []
      modifies this`repr, repr
      ensures ok ==> Valid(height, ids) && fresh(repr - old(repr))
      ensures ok ==> Took(old(Mems(shards)), old(Stashes(shards)), old(Covered()))
      ensures IsPowerOfTwo(|shards|) && (ok ==> old(CanRoute()))
      ensures |frontends| >= 1
      ensures ok ==> FlushStep(old(pending), old(States(shards)), States(shards))
      ensures old(CanRoute()) && old(ShardHeld()) + |Live(old(Covered()))| < cfg.s ==> ok
    {
      hide IsPowerOfTwo, Slots, Lawful, ShardIds, Sound, Batch, Owned, Known, Took, AllLoad, Live, WithinQuota,
           Delivered, States, CanRoute;
      SoundShards(shards, cfg, Heights(height), ids);
      CanRouteIs();
      var n, fCount := batchCapacity, |frontends|;
      var subN, subQuota := n / fCount, perShardQuota / fCount;
      var batch := pending;
      if |pending| < n { batch := pending + seq(n - |pending|, _ => cfg.Dummy()); }
      BatchIs(pending, batch, n, cfg.Dummy());
      if subN == 0 {
        return false;
      }
      SlicesFit(n, fCount);
      BatchKnown(pending, n, cfg.Dummy(), subN, fCount, ids);
      ok := FlushBatch(batch, subN, subQuota, height, ids);
    }

    /**
      `flush`.  The shards gain exactly the updates that the frontends' slices cover, and the
      whole batch leaves the buffer; so nothing is lost when the slices cover the batch.  Of a
      non-empty buffer it only succeeds when the frontends can route the batch, and then it
      does while fewer blocks are held than a shard has overflow slots.
     */
    method Flush(ghost height: nat, ghost ids: Ids) returns (ok: bool)
      requires Valid(height, ids)
      modifies this, repr
      ensures ok ==> Valid(height, ids) && fresh(repr - old(repr))
      ensures IsPowerOfTwo(|shards|) && (ok && old(pending) != [] ==> old(CanRoute()))
      ensures old(pending) != [] && batchCapacity < |frontends| ==> !ok
      ensures ok ==> FlushStep(old(pending), old(States(shards)), States(shards))
      ensures old(pending == [] || CanRoute()) && old(Held()) < cfg.s ==> ok
      ensures ok ==> pending == RestOf(old(pending), batchCapacity)
      ensures ok ==> Took(old(Mems(shards)), old(Stashes(shards)), old(Covered()))
      ensures ok ==> forall p ::
                SumOf(p) == AfterFlush(cfg.values, old(ShardSum(p)), old(pending), batchCapacity, |frontends|,
                                       cfg.Dummy(), p)
      ensures ok ==> Held() <= old(Held())
      ensures ok && Covers() ==> forall p :: SumOf(p) == old(SumOf(p)) && Stores(p) == old(Stores(p))
    {
      hide IsPowerOfTwo, Slots, Lawful, Total, ShardIds, AllSum, Sound, Batch, Owned, Known, Took, AllLoad, Live,
           AllStored, MatchCount, WithinQuota, CanRoute, CoveredOf, RestOf, Delivered;
      SoundShards(shards, cfg, Heights(height), ids);
      FlushedLoads(pending, batchCapacity, |frontends|, cfg.Dummy());
      CanRouteFrontends();
      ghost var mems, stashes, pending0 := Mems(shards), Stashes(shards), pending;
      if pending == [] {
        NothingTaken();
        NothingCovered(batchCapacity, |frontends|, cfg.Dummy());
        ok := true;
      } else {
        ok := FlushHead(height, ids);
      }
      if !ok {
        return;
      }
      pending := if |pending| > batchCapacity then pending[batchCapacity..] else [];
      RestIs(pending0, batchCapacity, pending);
      RestKnown(pending0, batchCapacity, cfg.Dummy(), ids);
      TookThen(mems, stashes, pending0);
    }

    /** What the contents are once the batch has been taken out of the buffer. */
    lemma TookThen(mems: seq<seq<Block<V>>>, stashes: seq<seq<Block<V>>>, before: seq<Block<V>>)
      requires |frontends| >= 1 && Lawful(cfg.values) && |mems| == |stashes|
      requires Took(mems, stashes, CoveredOf(before, batchCapacity, |frontends|, cfg.Dummy()))
      requires pending == RestOf(before, batchCapacity)
      ensures forall p ::
                SumOf(p) == AfterFlush(cfg.values, AllSum(cfg.values, mems, stashes, p), before, batchCapacity,
                                       |frontends|, cfg.Dummy(), p)
      ensures Held() <= AllLoad(mems, stashes) + |Live(before)|
      ensures Covers() ==> forall p ::
                SumOf(p) == cfg.values.plus(AllSum(cfg.values, mems, stashes, p), Total(cfg.values, before, p))
                && (Stores(p) <==> AllStored(mems, stashes, p) || MatchCount(before, p) > 0)
    {
      hide Lawful, Total, AllSum, AllStored, AllLoad, Live, MatchCount, CoveredOf, RestOf;
      FlushedLoads(before, batchCapacity, |frontends|, cfg.Dummy());
      if Covers() {
        forall p ensures SumOf(p) == cfg.values.plus(AllSum(cfg.values, mems, stashes, p), Total(cfg.values, before, p))
                 ensures Stores(p) <==> AllStored(mems, stashes, p) || MatchCount(before, p) > 0
        {
          CoveredFlush(cfg.values, AllSum(cfg.values, mems, stashes, p), before, batchCapacity, |frontends|,
                       cfg.Dummy(), p);
          CoveredKeys(before, batchCapacity, |frontends|, cfg.Dummy(), p);
        }
      }
    }

    /** The coordinator's signal, taken from the first shard. */
    method TakeGrowSignal(ghost height: nat, ghost ids: Ids) returns (signal: Option<nat>)
      requires Valid(height, ids)
      modifies repr
      ensures Valid(height, ids)
      ensures Mems(shards) == old(Mems(shards)) && Stashes(shards) == old(Stashes(shards))
      ensures States(shards) == SignalTaken(old(States(shards)))
      ensures |shards| >= 1
      ensures signal == if old(shards[0].autoResize).None? then None else old(shards[0].autoResize).value.pendingGrow
    {
      hide IsPowerOfTwo, Lawful, Sound, Owned, Known, AllSum, Feet, Union;
      SoundShards(shards, cfg, Heights(height), ids);
      OwnsShards(shards);
      assert shards[0] in shards[0].Footprint();
      OwnedIs(shards);
      signal := TakeSignal(shards, cfg, Heights(height), ids);
      OwnedIs(shards);
    }

    /** Every shard gets the deferred estimator, the first one with signals. */
    method EnableDeferred(tCapacity: nat, ghost height: nat, ghost ids: Ids)
      requires Valid(height, ids)
      modifies repr
      ensures Valid(height, ids)
      ensures Mems(shards) == old(Mems(shards)) && Stashes(shards) == old(Stashes(shards))
      ensures forall s :: 0 <= s < |shards| ==>
                States(shards)[s] == ConfiguredTo(old(States(shards))[s], shards[s].oracle, tCapacity, cfg.z, height,
                                                  s == 0)
    {
      hide IsPowerOfTwo, Lawful, Sound, Owned, Known, AllSum, Feet, Union, States;
      OwnedIs(shards);
      ConfigureAll(shards, tCapacity, cfg, Heights(height), ids);
      OwnedIs(shards);
    }

    /** All that the shards hold, slot by slot. */
    ghost function Stored(): seq<Block<V>>
      reads Owned(shards)
      reads set i | 0 <= i < |shards| :: shards[i]
      reads set i | 0 <= i < |shards| :: shards[i].stash
    {
      Flat(Both(Mems(shards), Stashes(shards)))
    }

    /** The shards' readouts side by side: one block per key, since no key is in two shards. */
    method ReadAllShards(treeAware: bool, ghost height: nat, ghost ids: Ids) returns (flat: seq<Block<V>>)
      requires Valid(height, ids)
      ensures |flat| == Slots(|shards|, Slots(Pow2(height + 1), cfg.z) + cfg.s)
      ensures forall p :: Total(cfg.values, flat, p) == ShardSum(p)
      ensures IdsCoherent(ids) ==> IsReadout(cfg.values, Stored(), flat)
    {
      hide IsPowerOfTwo, Lawful, Sound, Owned, Known, Feet, ReadsOut, Slots, Pow2, Total, IsReadout, IdsCoherent,
           ShardIds, Flat, Both;
      SoundShards(shards, cfg, Heights(height), ids);
      AllKnown(shards, cfg, Heights(height), ids);
      var rows := ReadShards(shards, treeAware, cfg, height, ids);
      ghost var ss := Both(Mems(shards), Stashes(shards));
      BothKnown(Mems(shards), Stashes(shards), ids);
      ShardsReadOut(cfg.values, ss, rows, ids);
      flat := Flatten(rows);
      FlatLength(rows, Slots(Pow2(height + 1), cfg.z) + cfg.s);
    }

    /** The shards' readouts side by side, compacted. */
    method PackedReadout(ghost height: nat, ghost ids: Ids) returns (result: array<Block<V>>)
      requires Valid(height, ids)
      ensures fresh(result) && result.Length == Slots(|shards|, Slots(Pow2(height + 1), cfg.z) + cfg.s)
      ensures RealFirst(result[..])
      ensures forall p :: Total(cfg.values, result[..], p) == ShardSum(p)
      ensures IdsCoherent(ids) ==> IsReadout(cfg.values, Stored(), result[..])
    {
      hide Known, Lawful, AllSum, Total, IsReadout, IdsCoherent, Slots, Pow2, RealFirst, ShardOk, Flat, Both;
      assert forall i :: 0 <= i < |shards| ==> allocated(shards[i].Footprint());
      ghost var stored, mems, stashes := Stored(), Mems(shards), Stashes(shards);
      var flat := ReadAllShards(false, height, ids);
      assert Mems(shards) == mems && Stashes(shards) == stashes;
      assert forall i :: 0 <= i < |shards| ==> allocated(shards[i].Footprint());
      result := PackAll(cfg.values, flat, stored);
      assert Mems(shards) == mems && Stashes(shards) == stashes;
    }

    /** Growing all shards moves nothing between keys. */
    method GrowEach(onSignal: bool, ghost height: nat, ghost ids: Ids) returns (ok: bool)
      requires Valid(height, ids)
      modifies Owned(shards)
      ensures ok ==> Sound(shards, cfg, Heights(height + 1), ids)
      ensures ok ==> forall s :: 0 <= s < |shards| ==> fresh(shards[s].Footprint() - old(shards[s].Footprint()))
      ensures ok ==> Took(old(Mems(shards)), old(Stashes(shards)), [])
      ensures ok ==> AllMoved(cfg, Oracles(shards), Rise(onSignal), old(States(shards)), States(shards))
      ensures ok ==> height < MAX_TREE_HEIGHT
      ensures height < MAX_TREE_HEIGHT && (onSignal || old(ShardHeld()) < cfg.s) ==> ok
    {
      hide IsPowerOfTwo, Slots, Lawful, Total, ShardIds, Sound, Owned, Known, AllSum, Absorbed, AsUpdates, AllLoad,
           AllStored, Load, EffectiveCount, Fits, AllMoved;
      SoundShards(shards, cfg, Heights(height), ids);
      ghost var mems, stashes := Mems(shards), Stashes(shards);
      OwnsShards(shards);
      ghost var states := States(shards);
      if AllLoad(mems, stashes) < cfg.s { AllFit(states, mems, stashes, cfg.s); }
      ok := GrowAll(shards, onSignal, cfg, height, ids, states);
      if ok { GrownSums(shards, mems, stashes, cfg, Heights(height + 1), ids); }
    }

    method GrowShards(onSignal: bool, ghost height: nat, ghost ids: Ids) returns (ok: bool)
      requires Valid(height, ids)
      modifies this`repr, repr
      ensures ok ==> Valid(height + 1, ids) && fresh(repr - old(repr))
      ensures ok ==> Took(old(Mems(shards)), old(Stashes(shards)), [])
      ensures ok ==> AllMoved(cfg, Oracles(shards), Rise(onSignal), old(States(shards)), States(shards))
      ensures ok ==> height < MAX_TREE_HEIGHT
      ensures height < MAX_TREE_HEIGHT && (onSignal || old(ShardHeld()) < cfg.s) ==> ok
    {
      hide Lawful, Sound, Owned, Known, Took, AllLoad, AllMoved, States, Union;
      ghost var feet := Feet(shards);
      OwnsShards(shards);
      ok := GrowEach(onSignal, height, ids);
      if ok {
        OwnedApart(shards, feet, Frontends() + {this});
        ghost var added := Owned(shards) - repr;
        forall o | o in added ensures fresh(o) { var s := OwnerOf(shards, o); }
        repr := repr + added;
      }
    }

    /** The shards' part of a read: the key's own shard is read, the others get dummy reads. */
    method ReadShardsFor(tag: Tag, payload: Payload, indices: nat -> nat, ghost height: nat, ghost ids: Ids)
        returns (ok: bool, result: V)
      requires Valid(height, ids)
      modifies repr
      ensures ok ==> Valid(height, ids)
      ensures ok ==> forall p :: p != payload ==> ShardSum(p) == old(ShardSum(p))
      ensures ok && OneTag(ids, tag, payload) ==> ShardSum(payload) == cfg.values.zero
      ensures ok && Unambiguous(ids, tag, payload) ==> result == old(ShardSum(payload))
      ensures ok ==> forall p :: p != payload ==>
                (AllStored(Mems(shards), Stashes(shards), p) <==> AllStored(old(Mems(shards)), old(Stashes(shards)), p))
      ensures ok && OneTag(ids, tag, payload) ==> !AllStored(Mems(shards), Stashes(shards), payload)
      ensures ok ==> ShardHeld() <= old(ShardHeld())
      ensures IsPowerOfTwo(|shards|)
      ensures ok ==> AllMoved(cfg, Oracles(shards), Visit(ShardIndexForTag(tag, |shards|), tag, payload, indices),
                              old(States(shards)), States(shards))
      ensures old(ShardHeld()) < cfg.s ==> ok
    {
      hide IsPowerOfTwo, Slots, Lawful, Total, ShardIds, Sound, Owned, Known, AllSum, Unambiguous, OneTag, ReadSeqs,
           ShardIndexForTag, AllStored, AllLoad, Fits, AllMoved, States;
      ghost var mems, stashes, feet := Mems(shards), Stashes(shards), Feet(shards);
      OwnsShards(shards);
      SoundShards(shards, cfg, Heights(height), ids);
      AllKnown(shards, cfg, Heights(height), ids);
      var target := ShardIndexForTag(tag, |shards|);
      OwnedIs(shards);
      ghost var states := States(shards);
      if AllLoad(mems, stashes) < cfg.s { AllFit(states, mems, stashes, cfg.s); }
      ok, result := AccessAll(shards, target, tag, payload, indices, cfg.values.zero, cfg, Heights(height), ids,
                               states);
      if ok {
        OwnedIs(shards);
        AllRead(shards, mems, stashes, target, cfg, Heights(height), ids, tag, payload, result);
        ReadHoldings(cfg.values, mems, stashes, Mems(shards), Stashes(shards), target, ids, tag, payload, result);
        AllSumsRead(cfg.values, mems, stashes, Mems(shards), Stashes(shards), target, ids, tag, payload, result);
      }
    }
  }

  lemma AllSumsRead<V(!new)>(m: Values<V>, mems: seq<seq<Block<V>>>, stashes: seq<seq<Block<V>>>,
                             mems': seq<seq<Block<V>>>, stashes': seq<seq<Block<V>>>, target: nat, ids: Ids, tag: Tag,
                             payload: Payload, result: V)
    requires Lawful(m) && |mems| == |stashes| == |mems'| == |stashes'| && IsPowerOfTwo(|mems|)
    requires target == ShardIndexForTag(tag, |mems|)
    requires forall s :: 0 <= s < |mems| ==>
               ReadSeqs(m, mems[s], stashes[s], mems'[s], stashes'[s], s == target, ids, tag, payload, result)
    requires forall s :: 0 <= s < |mems| ==>
               (Known(mems[s], ids) && Known(stashes[s], ids) && Known(mems[s], ShardIds(s, |mems|))
                && Known(stashes[s], ShardIds(s, |mems|)))
    ensures forall p :: p != payload ==> AllSum(m, mems', stashes', p) == AllSum(m, mems, stashes, p)
    ensures OneTag(ids, tag, payload) ==> AllSum(m, mems', stashes', payload) == m.zero
    ensures Unambiguous(ids, tag, payload) ==> result == AllSum(m, mems, stashes, payload)
  {
    hide IsPowerOfTwo, Lawful, ShardIds, Known, AllSum, Unambiguous, OneTag, ReadSeqs, ShardIndexForTag;
    forall p ensures p != payload ==> AllSum(m, mems', stashes', p) == AllSum(m, mems, stashes, p) {
      ReadSums(m, mems, stashes, mems', stashes', target, ids, tag, payload, result, p);
    }
    ReadSums(m, mems, stashes, mems', stashes', target, ids, tag, payload, result, payload);
  }

  lemma BothKnown<V>(mems: seq<seq<Block<V>>>, stashes: seq<seq<Block<V>>>, ids: Ids)
    requires |mems| == |stashes| && IsPowerOfTwo(|mems|)
    requires forall s :: 0 <= s < |mems| ==>
               (Known(mems[s], ids) && Known(stashes[s], ids) && Known(mems[s], ShardIds(s, |mems|))
                && Known(stashes[s], ShardIds(s, |mems|)))
    ensures forall s :: 0 <= s < |mems| ==>
              Known(Both(mems, stashes)[s], ids) && Known(Both(mems, stashes)[s], ShardIds(s, |mems|))
  {
    hide Known, ShardIds, IsPowerOfTwo;
    forall s: nat | s < |mems|
      ensures Known(Both(mems, stashes)[s], ids) && Known(Both(mems, stashes)[s], ShardIds(s, |mems|))
    {
      KnownBoth(mems[s], stashes[s], ids);
      KnownBoth(mems[s], stashes[s], ShardIds(s, |mems|));
    }
  }

  method Flatten<T>(rows: seq<seq<T>>) returns (flat: seq<T>)
    ensures flat == Flat(rows)
  {
    flat := [];
    assert rows[..0] == [];
    for i := 0 to |rows|
      invariant flat == Flat(rows[..i])
    {
      assert rows[..i + 1][..i] == rows[..i];
      flat := flat + rows[i];
    }
    assert rows[..|rows|] == rows;
  }

  lemma {:induction false} FlatLength<T>(rows: seq<seq<T>>, n: nat)
    requires forall i :: 0 <= i < |rows| ==> |rows[i]| == n
    ensures |Flat(rows)| == Slots(|rows|, n)
  {
    hide Slots;
    SlotsNext(0, n);
    if rows != [] {
      FlatLength(rows[..|rows| - 1], n);
      SlotsNext(|rows| - 1, n);
    }
  }

  lemma GrownSums<V(!new)>(shards: seq<ObliviousHistogram<V>>, mems: seq<seq<Block<V>>>, stashes: seq<seq<Block<V>>>,
                           cfg: Config<V>, heights: seq<nat>, ids: Ids)
    requires Sound(shards, cfg, heights, ids) && |mems| == |stashes| == |shards| && Lawful(cfg.values)
    requires forall s :: 0 <= s < |shards| ==> Fed(shards[s], mems[s], stashes[s], AsUpdates([]))
    ensures forall p ::
              AllSum(cfg.values, Mems(shards), Stashes(shards), p)
                == cfg.values.plus(AllSum(cfg.values, mems, stashes, p), Total(cfg.values, [], p))
    ensures forall p :: AllStored(Mems(shards), Stashes(shards), p) <==> AllStored(mems, stashes, p)
    ensures AllLoad(Mems(shards), Stashes(shards)) <= AllLoad(mems, stashes)
  {
    hide IsPowerOfTwo, Lawful, Total, Sound, AllSum, Absorbed, AsUpdates, Flat, AllStored, AllLoad, MatchCount, Live,
         Load, EffectiveCount;
    var cols: seq<seq<Block<V>>> := seq(|shards|, _ => []);
    AllAbsorbed(shards, mems, stashes, cols, cfg, heights, ids);
    EmptyFlat(cols);
    LiveNone<V>([]);
    FedLoad(mems, stashes, Mems(shards), Stashes(shards), cols);
    forall p
      ensures AllSum(cfg.values, Mems(shards), Stashes(shards), p)
           == cfg.values.plus(AllSum(cfg.values, mems, stashes, p), Total(cfg.values, [], p))
      ensures AllStored(Mems(shards), Stashes(shards), p) <==> AllStored(mems, stashes, p)
    {
      FedSums(cfg.values, mems, stashes, Mems(shards), Stashes(shards), cols, p);
      FedStored(cfg.values, mems, stashes, Mems(shards), Stashes(shards), cols, p);
      DummiesAbsent<V>([], p);
    }
  }

  lemma AllKnown<V(!new)>(shards: seq<ObliviousHistogram<V>>, cfg: Config<V>, heights: seq<nat>, ids: Ids)
    requires Sound(shards, cfg, heights, ids)
    ensures forall s :: 0 <= s < |shards| ==>
              (Known(Mems(shards)[s], ids) && Known(Stashes(shards)[s], ids)
               && Known(Mems(shards)[s], ShardIds(s, |shards|)) && Known(Stashes(shards)[s], ShardIds(s, |shards|)))
  {
    hide IsPowerOfTwo, Known, ShardIds;
    forall s | 0 <= s < |shards|
      ensures Known(Mems(shards)[s], ids) && Known(Stashes(shards)[s], ids)
      ensures Known(Mems(shards)[s], ShardIds(s, |shards|)) && Known(Stashes(shards)[s], ShardIds(s, |shards|))
    {
      assert ShardOk(shards[s], s, |shards|, cfg, heights[s], ids);
    }
  }

  lemma AllRead<V(!new)>(shards: seq<ObliviousHistogram<V>>, mems: seq<seq<Block<V>>>, stashes: seq<seq<Block<V>>>,
                         target: nat, cfg: Config<V>, heights: seq<nat>, ids: Ids, tag: Tag, payload: Payload,
                         result: V)
    requires Sound(shards, cfg, heights, ids) && |mems| == |stashes| == |shards|
    requires forall s :: 0 <= s < |shards| ==>
               ReadFrom(shards[s], mems[s], stashes[s], s == target, ids, tag, payload, result)
    ensures forall s :: 0 <= s < |shards| ==>
              ReadSeqs(cfg.values, mems[s], stashes[s], Mems(shards)[s], Stashes(shards)[s], s == target, ids, tag,
                       payload, result)
  {
    hide IsPowerOfTwo, Known, ShardIds, Unambiguous, OneTag, StateTotal;
    forall s | 0 <= s < |shards|
      ensures ReadSeqs(cfg.values, mems[s], stashes[s], Mems(shards)[s], Stashes(shards)[s], s == target, ids, tag,
                       payload, result)
    {
      assert ShardOk(shards[s], s, |shards|, cfg, heights[s], ids);
      assert ReadFrom(shards[s], mems[s], stashes[s], s == target, ids, tag, payload, result);
    }
  }

  lemma OwnedApart<V(!new)>(shards: seq<ObliviousHistogram<V>>, feet: seq<set<object>>, others: set<object>)
    requires |feet| == |shards|
    requires forall s :: 0 <= s < |shards| ==> feet[s] !! others && (shards[s].Footprint() - feet[s]) !! others
    ensures Owned(shards) !! others
  {
  }

  lemma RestIs<V>(pending: seq<Block<V>>, n: nat, rest: seq<Block<V>>)
    requires rest == if |pending| > n then pending[n..] else []
    ensures rest == RestOf(pending, n)
  {
  }

  lemma NothingCovered<V>(n: nat, f: nat, dummy: Block<V>)
    requires f >= 1
    ensures CoveredOf([], n, f, dummy) == []
  {
  }

  /** A shard's column, as an entry of the row of columns. */
  lemma ColumnsAre<V>(rs: seq<seq<Block<V>>>, q: nat, shards: nat)
    ensures |Columns(rs, q, shards, |rs|)| == shards
    ensures forall s: nat :: s < shards ==> Columns(rs, q, shards, |rs|)[s] == Column(rs, q, s, |rs|)
  {
  }

  lemma RestKnown<V>(pending: seq<Block<V>>, n: nat, dummy: Block<V>, ids: Ids)
    requires Known(pending, ids)
    ensures |pending| > n ==> Known(pending[n..], ids)
    ensures Known<V>([], ids)
  {
    if |pending| > n {
      assert pending == pending[..n] + pending[n..];
      KnownBoth(pending[..n], pending[n..], ids);
    }
  }

  lemma BatchIs<V>(pending: seq<Block<V>>, batch: seq<Block<V>>, n: nat, dummy: Block<V>)
    requires batch == if |pending| < n then pending + seq(n - |pending|, _ => dummy) else pending
    ensures batch == Batch(pending, n, dummy) && |batch| >= n
  {
    if |pending| < n { assert seq(n - |pending|, _ => dummy) == Dummies(n - |pending|, dummy); }
  }

  lemma SoundShards<V(!new)>(shards: seq<ObliviousHistogram<V>>, cfg: Config<V>, heights: seq<nat>, ids: Ids)
    requires Sound(shards, cfg, heights, ids)
    ensures IsPowerOfTwo(|shards|) && |shards| <= MAX_SHARDS && |shards| >= 1
  {
  }

  lemma HeightBound<V(!new)>(shards: seq<ObliviousHistogram<V>>, cfg: Config<V>, heights: seq<nat>, ids: Ids)
    requires Sound(shards, cfg, heights, ids)
    ensures |shards| == |heights| >= 1 && forall s :: 0 <= s < |heights| ==> heights[s] <= MAX_TREE_HEIGHT
  {
    hide IsPowerOfTwo, WellFormed, Lawful, Known, ShardIds;
    SoundShards(shards, cfg, heights, ids);
    forall s | 0 <= s < |heights| ensures heights[s] <= MAX_TREE_HEIGHT {
      assert ShardOk(shards[s], s, |shards|, cfg, heights[s], ids);
    }
  }

  lemma AllAbsorbed<V(!new)>(shards: seq<ObliviousHistogram<V>>, mems: seq<seq<Block<V>>>, stashes: seq<seq<Block<V>>>,
                             cols: seq<seq<Block<V>>>, cfg: Config<V>, heights: seq<nat>, ids: Ids)
    requires Sound(shards, cfg, heights, ids) && |mems| == |stashes| == |cols| == |shards|
    requires forall s :: 0 <= s < |shards| ==> Fed(shards[s], mems[s], stashes[s], AsUpdates(cols[s]))
    ensures forall s :: 0 <= s < |shards| ==>
              Absorbed(cfg.values, mems[s], stashes[s], Mems(shards)[s], Stashes(shards)[s], AsUpdates(cols[s]))
  {
    hide Absorbed, AsUpdates, IsPowerOfTwo, Known, ShardIds;
    forall s: nat | s < |shards|
      ensures Absorbed(cfg.values, mems[s], stashes[s], Mems(shards)[s], Stashes(shards)[s], AsUpdates(cols[s]))
    {
      assert ShardOk(shards[s], s, |shards|, cfg, heights[s], ids);
      assert Fed(shards[s], mems[s], stashes[s], AsUpdates(cols[s]));
    }
  }

  /** An update's share of a key's total; one whose tag is that of dummies has none. */
  function AppendShare<V>(m: Values<V>, tag: Tag, payload: Payload, value: V, p: Payload): V {
    if tag != 0 && payload == p then value else m.zero
  }

  class ShardedObliviousHistogram<V(!new)> {
    const router: ShardedBatchRouter<V>
    var epoch: Byte
    var capacity: nat
    var sizeInBytes: nat
    var autoResize: bool

    /** All shards sound and at the same height; no key outside `ids`; less than a full batch of pending updates. */
    ghost predicate Valid(height: nat, ids: Ids)
      reads this, router, Owned(router.shards)
      reads set i | 0 <= i < |router.shards| :: router.shards[i]
      reads set i | 0 <= i < |router.shards| :: router.shards[i].stash
    {
      && router.Valid(height, ids) && this !in router.repr
      && (router.pending == [] || |router.pending| < router.batchCapacity)
    }

    constructor (router: ShardedBatchRouter<V>, totalCapacity: nat, sizeInBytes: nat, ghost height: nat, ghost ids: Ids)
      requires router.Valid(height, ids) && router.pending == []
      ensures this.router == router && capacity == totalCapacity && this.sizeInBytes == sizeInBytes && epoch == 0
      ensures !autoResize
      ensures Valid(height, ids)
    {
      hide ShardOk, Known, Lawful;
      this.router, this.epoch, this.capacity, this.sizeInBytes, this.autoResize := router, 0, totalCapacity,
          sizeInBytes, false;
      assert forall i :: 0 <= i < |router.shards| ==> allocated(router.shards[i].Footprint());
      new;
    }

    /** What the histogram holds for a key: in all shards and among the pending updates. */
    ghost function SumOf(p: Payload): V
      reads router, Owned(router.shards)
      reads set i | 0 <= i < |router.shards| :: router.shards[i]
      reads set i | 0 <= i < |router.shards| :: router.shards[i].stash
    {
      router.SumOf(p)
    }

    /** Some shard or some pending update carries the key. */
    ghost predicate Stores(p: Payload)
      reads router, Owned(router.shards)
      reads set i | 0 <= i < |router.shards| :: router.shards[i]
      reads set i | 0 <= i < |router.shards| :: router.shards[i].stash
    {
      router.Stores(p)
    }

    /** The number of real blocks in all shards and among the pending updates. */
    ghost function Held(): nat
      reads router, Owned(router.shards)
      reads set i | 0 <= i < |router.shards| :: router.shards[i]
      reads set i | 0 <= i < |router.shards| :: router.shards[i].stash
    {
      router.Held()
    }

    /** The shards are to grow at the next flush. */
    ghost predicate GrowthDue()
      reads this, Owned(router.shards)
      reads set i | 0 <= i < |router.shards| :: router.shards[i]
      reads set i | 0 <= i < |router.shards| :: router.shards[i].stash
    {
      && autoResize && router.shards != [] && router.shards[0].autoResize.Some?
      && router.shards[0].autoResize.value.pendingGrow.Some?
    }

    /** `handle_deferred_resize`: on the coordinator's signal all shards grow; it fails at the largest height only. */
    method HandleDeferredResize(ghost height: nat, ghost ids: Ids) returns (ok: bool, ghost now: nat)
      requires router.Valid(height, ids) && this !in router.repr
      modifies this, router`repr, router.repr
      ensures ok ==> router.Valid(now, ids) && fresh(router.repr - old(router.repr))
      ensures ok ==> now == if old(GrowthDue()) then height + 1 else height
      ensures ok ==> capacity == (if now == height then old(capacity) else 2 * old(capacity))
      ensures ok ==> sizeInBytes == (if now == height then old(sizeInBytes) else 2 * old(sizeInBytes))
      ensures ok ==> ResizeStep(router.cfg, Oracles(router.shards), old(autoResize), old(States(router.shards)),
                                now != height, States(router.shards))
      ensures ok ==> autoResize == old(autoResize) && epoch == old(epoch)
      ensures ok ==> router.Took(old(Mems(router.shards)), old(Stashes(router.shards)), [])
      ensures ok <==> !(old(GrowthDue()) && height == MAX_TREE_HEIGHT)
    {
      hide Lawful, IsPowerOfTwo, Owned, router.Valid, router.Took, AllMoved, States;
      now := height;
      StatesAre(router.shards);
      router.Outline(height, ids);
      if !autoResize {
        router.NothingTaken();
        return true, now;
      }
      var growSignal := router.TakeGrowSignal(height, ids);
      if growSignal.None? {
        router.NothingTaken();
        return true, now;
      }
      ok := GrowTogether(true, height, ids);
      now := height + 1;
    }

    /** All shards grow, and the record of their capacity with them. */
    method GrowTogether(onSignal: bool, ghost height: nat, ghost ids: Ids) returns (ok: bool)
      requires router.Valid(height, ids) && this !in router.repr
      modifies this`capacity, this`sizeInBytes, router`repr, router.repr
      ensures ok ==> router.Valid(height + 1, ids) && fresh(router.repr - old(router.repr))
      ensures ok ==> capacity == 2 * old(capacity) && sizeInBytes == 2 * old(sizeInBytes)
      ensures ok ==> router.Took(old(Mems(router.shards)), old(Stashes(router.shards)), [])
      ensures ok ==> AllMoved(router.cfg, Oracles(router.shards), Rise(onSignal), old(States(router.shards)),
                              States(router.shards))
      ensures ok ==> height < MAX_TREE_HEIGHT
      ensures height < MAX_TREE_HEIGHT && (onSignal || old(router.ShardHeld()) < router.cfg.s) ==> ok
    {
      hide Owned, router.Valid, router.Took, AllMoved, States, AllLoad;
      ok := router.GrowShards(onSignal, height, ids);
      if ok {
        router.Outline(height + 1, ids);
        capacity := capacity * 2;
        sizeInBytes := sizeInBytes * 2;
      }
    }

    /** `flush`. */
    method Flush(ghost height: nat, ghost ids: Ids) returns (ok: bool, ghost now: nat)
      requires router.Valid(height, ids) && this !in router.repr
      modifies this, router, router.repr
      ensures ok ==> router.Valid(now, ids) && fresh(router.repr - old(router.repr))
      ensures ok ==> (now == height || now == height + 1) && autoResize == old(autoResize) && epoch == old(epoch)
      ensures ok && !old(autoResize) ==> now == height
      ensures IsPowerOfTwo(|router.shards|) && (ok && old(router.pending) != [] ==> old(router.CanRoute()))
      ensures |router.frontends| >= 1
      ensures ok ==> router.Flushed(old(autoResize), old(router.pending), old(States(router.shards)), now != height,
                                    States(router.shards))
      ensures ok ==> capacity == (if now == height then old(capacity) else 2 * old(capacity))
      ensures ok ==> sizeInBytes == (if now == height then old(sizeInBytes) else 2 * old(sizeInBytes))
      ensures var routes := old(router.pending == [] || router.CanRoute());
        routes && old(Held()) < router.cfg.s && (old(autoResize) ==> height < MAX_TREE_HEIGHT) ==> ok
      ensures ok ==> router.pending == RestOf(old(router.pending), router.batchCapacity)
      ensures ok ==> forall p ::
                SumOf(p) == AfterFlush(router.cfg.values, old(router.ShardSum(p)), old(router.pending),
                                       router.batchCapacity, |router.frontends|, router.cfg.Dummy(), p)
      ensures ok ==> Held() <= old(Held())
      ensures ok && router.Covers() ==> forall p :: SumOf(p) == old(SumOf(p)) && Stores(p) == old(Stores(p))
    {
      hide Sound, Known, Lawful, AllSum, Owned, Total, IsPowerOfTwo, AllStored, AllLoad, Live, MatchCount, AfterFlush,
           RestOf, router.CanRoute, router.Took, ResizeStep, router.FlushStep, router.Flushed, States;
      ghost var pending, states, resizing := router.pending, States(router.shards), autoResize;
      now := height;
      ok := router.Flush(height, ids);
      if ok {
        ghost var mems, stashes, mid := Mems(router.shards), Stashes(router.shards), States(router.shards);
        ok, now := HandleDeferredResize(height, ids);
        if ok {
          router.NothingMore(mems, stashes);
          router.FlushedBy(resizing, pending, states, mid, now != height, States(router.shards));
        }
      }
    }

    /** An update joins the batch. */
    method Push(block: Block<V>, ghost height: nat, ghost ids: Ids)
      requires router.Valid(height, ids) && this !in router.repr && (block.Real() ==> (block.tag, block.payload) in ids)
      modifies router`pending
      ensures router.Valid(height, ids) && router.pending == old(router.pending) + [block]
      ensures IsPowerOfTwo(|router.shards|) && |router.frontends| >= 1
      ensures Held() <= old(Held()) + 1 && forall p :: router.ShardSum(p) == old(router.ShardSum(p))
      ensures States(router.shards) == old(States(router.shards))
      ensures forall p ::
                SumOf(p) == router.cfg.values.plus(old(SumOf(p)),
                                                   AppendShare(router.cfg.values, block.tag, block.payload, block.value,
                                                               p))
      ensures forall p :: Stores(p) <==> old(Stores(p)) || Matches(block, p)
    {
      hide Sound, Known, Lawful, AllSum, Owned, Total, AllStored, AllLoad, Live, MatchCount, AppendShare, IsPowerOfTwo;
      SoundShards(router.shards, router.cfg, router.Heights(height), ids);
      PushKnown(router.pending, block, ids);
      PushHeld(router.pending, block);
      forall p ensures router.cfg.values.plus(router.ShardSum(p), Total(router.cfg.values, router.pending + [block], p))
                    == router.cfg.values.plus(SumOf(p), AppendShare(router.cfg.values, block.tag, block.payload,
                                                                    block.value, p))
      {
        PushTotal(router.cfg.values, router.pending, block, router.ShardSum(p), p);
      }
      router.pending := router.pending + [block];
    }

    /** An update joins the batch, and a full batch is flushed. */
    method AppendBlock(block: Block<V>, ghost height: nat, ghost ids: Ids) returns (ok: bool, ghost now: nat)
      requires Valid(height, ids) && (block.Real() ==> (block.tag, block.payload) in ids)
      modifies this, router, router.repr
      ensures ok ==> router.Valid(now, ids) && fresh(router.repr - old(router.repr))
      ensures ok ==> now == height || now == height + 1
      ensures ok ==> autoResize == old(autoResize) && epoch == old(epoch) && (!autoResize ==> now == height)
      ensures |old(router.pending)| + 1 < router.batchCapacity ==>
                (ok && router.pending == old(router.pending) + [block] && now == height
                 && States(router.shards) == old(States(router.shards))
                 && forall p :: router.ShardSum(p) == old(router.ShardSum(p)))
      ensures |router.frontends| >= 1 && IsPowerOfTwo(|router.shards|)
      ensures ok && |old(router.pending)| + 1 >= router.batchCapacity ==>
                router.Flushed(old(autoResize), old(router.pending) + [block], old(States(router.shards)),
                               now != height, States(router.shards))
      ensures ok && |old(router.pending)| + 1 >= router.batchCapacity ==>
                (router.pending == RestOf(old(router.pending) + [block], router.batchCapacity)
                 && router.batchCapacity >= |router.frontends|
                 && forall p :: SumOf(p) == AfterFlush(router.cfg.values, old(router.ShardSum(p)),
                                                       old(router.pending) + [block], router.batchCapacity,
                                                       |router.frontends|, router.cfg.Dummy(), p))
      ensures var grows := old(autoResize) ==> height < MAX_TREE_HEIGHT;
        router.AlwaysRoutes() && old(Held()) + 1 < router.cfg.s && grows ==> ok
      ensures ok ==> Held() <= old(Held()) + 1
      ensures ok && router.Covers() ==> forall p ::
                (SumOf(p) == router.cfg.values.plus(old(SumOf(p)),
                                                    AppendShare(router.cfg.values, block.tag, block.payload,
                                                                block.value, p)))
      ensures ok && router.Covers() ==> forall p :: Stores(p) <==> old(Stores(p)) || Matches(block, p)
    {
      hide AfterFlush, RestOf, router.AlwaysRoutes, AppendShare, router.Valid, SumOf, Stores, Held, router.ShardSum,
           Matches, router.CanRoute, router.Flushed, States;
      Push(block, height, ids);
      if router.AlwaysRoutes() { router.RoutesAlways(); }
      ok, now := true, height;
      router.CanRouteFrontends();
      if |router.pending| >= router.batchCapacity { ok, now := Flush(height, ids); }
    }

    /**
      `append`: the update joins the batch; a full batch is flushed.  Short of a full batch it
      cannot fail.
     */
    method Append(key: seq<Byte>, value: V, ghost height: nat, ghost ids: Ids) returns (ok: bool, ghost now: nat)
      requires Valid(height, ids)
      requires TagOf(Chained(router.prf, key)) != 0 ==>
                (TagOf(Chained(router.prf, key)), Padded(key, router.cfg.k)) in ids
      modifies this, router, router.repr
      ensures ok ==> Valid(now, ids) && fresh(router.repr - old(router.repr)) && (now == height || now == height + 1)
      ensures ok ==> autoResize == old(autoResize) && epoch == old(epoch) && (!autoResize ==> now == height)
      ensures var block := Block(TagOf(Chained(router.prf, key)), old(epoch), value, Padded(key, router.cfg.k));
        (|old(router.pending)| + 1 < router.batchCapacity ==>
           ok && router.pending == old(router.pending) + [block] && now == height
           && States(router.shards) == old(States(router.shards))
           && forall p :: router.ShardSum(p) == old(router.ShardSum(p)))
      ensures |router.frontends| >= 1 && IsPowerOfTwo(|router.shards|)
      ensures var block := Block(TagOf(Chained(router.prf, key)), old(epoch), value, Padded(key, router.cfg.k));
        (ok && |old(router.pending)| + 1 >= router.batchCapacity ==>
           router.pending == []
           && router.Flushed(old(autoResize), old(router.pending) + [block], old(States(router.shards)), now != height,
                             States(router.shards))
           && forall p :: SumOf(p) == AfterFlush(router.cfg.values, old(router.ShardSum(p)),
                                                 old(router.pending) + [block], router.batchCapacity,
                                                 |router.frontends|, router.cfg.Dummy(), p))
      ensures var grows := old(autoResize) ==> height < MAX_TREE_HEIGHT;
        router.AlwaysRoutes() && old(Held()) + 1 < router.cfg.s && grows ==> ok
      ensures ok ==> Held() <= old(Held()) + 1
      ensures ok && router.Covers() ==> forall p ::
                (SumOf(p) == router.cfg.values.plus(old(SumOf(p)),
                                                    AppendShare(router.cfg.values, TagOf(Chained(router.prf, key)),
                                                                Padded(key, router.cfg.k), value, p)))
      ensures ok && router.Covers() ==> forall p ::
                (Stores(p) <==> old(Stores(p))
                                || (TagOf(Chained(router.prf, key)) != 0 && Padded(key, router.cfg.k) == p))
    {
      hide Sound, Known, Lawful, AllSum, Owned, Total, Chained, TagOf, AllStored, AllLoad, Live, MatchCount, AfterFlush,
           router.AlwaysRoutes, Padded, AppendShare, router.Flushed, States;
      var tag := PrfTag(router.prf, key);
      var payload := CopyPrefix(key, router.cfg.k);
      ok, now := AppendBlock(Block(tag, epoch, value, payload), height, ids);
    }

    /** `read_total`: flushes, reads the key's own shard, and gives every other shard a dummy read. */
    method ReadTotal(key: seq<Byte>, indices: nat -> nat, ghost height: nat, ghost ids: Ids)
        returns (ok: bool, result: V, ghost now: nat)
      requires Valid(height, ids)
      modifies this, router, router.repr
      ensures ok ==> Valid(now, ids) && fresh(router.repr - old(router.repr)) && (now == height || now == height + 1)
      ensures ok ==> autoResize == old(autoResize) && (!autoResize ==> now == height) && router.pending == []
      ensures IsPowerOfTwo(|router.shards|) && |router.frontends| >= 1
      ensures ok ==> router.FlushedAndRead(old(autoResize), old(router.pending), TagOf(Chained(router.prf, key)),
                                           Padded(key, router.cfg.k), indices, old(States(router.shards)),
                                           now != height, States(router.shards))
      ensures var routes := old(router.pending == [] || router.CanRoute());
        routes && old(Held()) < router.cfg.s && (old(autoResize) ==> height < MAX_TREE_HEIGHT) ==> ok
      ensures ok ==> Held() <= old(Held())
      ensures ok && router.Covers() ==> forall p :: p != Padded(key, router.cfg.k) ==>
                SumOf(p) == old(SumOf(p)) && Stores(p) == old(Stores(p))
      ensures ok && OneTag(ids, TagOf(Chained(router.prf, key)), Padded(key, router.cfg.k)) ==>
                SumOf(Padded(key, router.cfg.k)) == router.cfg.values.zero && !Stores(Padded(key, router.cfg.k))
      ensures ok && router.Covers() && Unambiguous(ids, TagOf(Chained(router.prf, key)), Padded(key, router.cfg.k)) ==>
                result == old(SumOf(Padded(key, router.cfg.k)))
    {
      hide Sound, Known, Lawful, AllSum, Owned, Total, Chained, TagOf, Padded, Unambiguous, OneTag, IsPowerOfTwo,
           AllStored, AllLoad, Live, MatchCount, AfterFlush, RestOf, router.CanRoute, router.FlushedAndRead, States,
           ShardIndexForTag;
      assert forall i :: 0 <= i < |router.shards| ==> allocated(router.shards[i].Footprint());
      var preparedKey := PrfTag(router.prf, key);
      var payload := CopyPrefix(key, router.cfg.k);
      ok, result, now := ReadPrepared(preparedKey, payload, indices, height, ids);
    }

    /** The read for a key's tag and payload. */
    method ReadPrepared(tag: Tag, payload: Payload, indices: nat -> nat, ghost height: nat, ghost ids: Ids)
        returns (ok: bool, result: V, ghost now: nat)
      requires Valid(height, ids)
      modifies this, router, router.repr
      ensures ok ==> Valid(now, ids) && fresh(router.repr - old(router.repr)) && (now == height || now == height + 1)
      ensures ok ==> autoResize == old(autoResize) && (!autoResize ==> now == height) && router.pending == []
      ensures IsPowerOfTwo(|router.shards|) && |router.frontends| >= 1
      ensures ok ==> router.FlushedAndRead(old(autoResize), old(router.pending), tag, payload, indices,
                                           old(States(router.shards)), now != height, States(router.shards))
      ensures var routes := old(router.pending == [] || router.CanRoute());
        routes && old(Held()) < router.cfg.s && (old(autoResize) ==> height < MAX_TREE_HEIGHT) ==> ok
      ensures ok ==> Held() <= old(Held())
      ensures ok && router.Covers() ==> forall p :: p != payload ==>
                SumOf(p) == old(SumOf(p)) && Stores(p) == old(Stores(p))
      ensures ok && OneTag(ids, tag, payload) ==> SumOf(payload) == router.cfg.values.zero && !Stores(payload)
      ensures ok && router.Covers() && Unambiguous(ids, tag, payload) ==> result == old(SumOf(payload))
    {
      hide Unambiguous, OneTag, IsPowerOfTwo, AfterFlush, router.CanRoute, router.Valid, SumOf, Stores, Held,
           router.ShardSum, router.Flushed, router.FlushedAndRead, AllMoved, States;
      ghost var pending, states, resizing := router.pending, States(router.shards), autoResize;
      ok, now := Flush(height, ids);
      result := router.cfg.values.zero;
      if ok {
        ghost var mid := States(router.shards);
        ok, result := ReadFlushed(tag, payload, indices, now, ids);
        if ok {
          router.ReadAfter(resizing, pending, tag, payload, indices, states, mid, now != height,
                           States(router.shards));
        }
      }
    }

    /** The read, nothing being pending. */
    method ReadFlushed(tag: Tag, payload: Payload, indices: nat -> nat, ghost height: nat, ghost ids: Ids)
        returns (ok: bool, result: V)
      requires router.Valid(height, ids) && this !in router.repr && router.pending == []
      modifies router.repr
      ensures ok ==> router.Valid(height, ids) && router.pending == [] && router.repr == old(router.repr)
      ensures ok ==> autoResize == old(autoResize)
      ensures IsPowerOfTwo(|router.shards|)
      ensures ok ==> AllMoved(router.cfg, Oracles(router.shards),
                              Visit(ShardIndexForTag(tag, |router.shards|), tag, payload, indices),
                              old(States(router.shards)), States(router.shards))
      ensures old(Held()) < router.cfg.s ==> ok
      ensures ok ==> Held() <= old(Held())
      ensures ok ==> forall p :: p != payload ==> SumOf(p) == old(SumOf(p)) && Stores(p) == old(Stores(p))
      ensures ok && OneTag(ids, tag, payload) ==> SumOf(payload) == router.cfg.values.zero && !Stores(payload)
      ensures ok && Unambiguous(ids, tag, payload) ==> result == old(SumOf(payload))
    {
      hide Sound, Known, Lawful, AllSum, Owned, Total, Unambiguous, OneTag, IsPowerOfTwo, AllStored, AllLoad, Live,
           MatchCount, AllMoved, States;
      NonePending(router.cfg.values);
      forall p ensures SumOf(p) == router.ShardSum(p) { EmptyPending(router.cfg.values, router.ShardSum(p), p); }
      ok, result := router.ReadShardsFor(tag, payload, indices, height, ids);
      forall p ensures SumOf(p) == router.ShardSum(p) { EmptyPending(router.cfg.values, router.ShardSum(p), p); }
    }

    /** `grow`: all shards grow by a level. */
    method Grow(ghost height: nat, ghost ids: Ids) returns (ok: bool)
      requires Valid(height, ids)
      modifies this, router`repr, router.repr
      ensures ok ==> Valid(height + 1, ids) && fresh(router.repr - old(router.repr))
      ensures ok ==> capacity == 2 * old(capacity) && sizeInBytes == 2 * old(sizeInBytes)
      ensures ok ==> autoResize == old(autoResize) && height < MAX_TREE_HEIGHT && epoch == Clock.NextEpoch(old(epoch))
      ensures ok ==> router.pending == old(router.pending)
      ensures ok ==> AllMoved(router.cfg, Oracles(router.shards), Rise(false), old(States(router.shards)),
                              States(router.shards))
      ensures height < MAX_TREE_HEIGHT && old(Held()) < router.cfg.s ==> ok
      ensures ok ==> Held() <= old(Held())
      ensures ok ==> forall p :: SumOf(p) == old(SumOf(p)) && Stores(p) == old(Stores(p))
    {
      hide Sound, Known, Lawful, AllSum, Owned, Total, AllStored, AllLoad, Live, MatchCount, router.Took,
           AllMoved, States;
      ghost var mems, stashes := Mems(router.shards), Stashes(router.shards);
      epoch := Clock.NextEpoch(epoch);
      ok := GrowTogether(false, height, ids);
      if ok { router.NothingMore(mems, stashes); }
    }

    /** `enable_auto_resize`; the deflated per-shard target is a parameter. */
    method EnableAutoResize(deflatedTarget: nat, ghost height: nat, ghost ids: Ids)
      requires Valid(height, ids)
      modifies this`autoResize, router.repr
      ensures Valid(height, ids) && autoResize && router.pending == old(router.pending)
      ensures forall s :: 0 <= s < |router.shards| ==>
                States(router.shards)[s] == ConfiguredTo(old(States(router.shards))[s], router.shards[s].oracle,
                                                         deflatedTarget, router.cfg.z, height, s == 0)
      ensures forall p :: SumOf(p) == old(SumOf(p)) && Stores(p) == old(Stores(p))
      ensures Held() == old(Held())
    {
      hide Sound, Known, Lawful, AllSum, Owned, Total, AllStored, AllLoad, Live, MatchCount, States;
      autoResize := true;
      router.EnableDeferred(deflatedTarget, height, ids);
    }

    /**
      `readout`: flushes, reads every shard out, and compacts.  Its length is that of all shards'
      readouts; with keys that determine their tags' order there is one block per key, carrying
      the key's running total.
     */
    method Readout(ghost height: nat, ghost ids: Ids) returns (ok: bool, result: array<Block<V>>, ghost now: nat)
      requires Valid(height, ids)
      modifies this, router, router.repr
      ensures ok ==> Valid(now, ids) && router.pending == [] && (now == height || now == height + 1)
      ensures ok ==> fresh(router.repr - old(router.repr)) && (!old(autoResize) ==> now == height)
      ensures ok ==> autoResize == old(autoResize)
      ensures IsPowerOfTwo(|router.shards|) && |router.frontends| >= 1
      ensures ok ==> router.Flushed(old(autoResize), old(router.pending), old(States(router.shards)), now != height,
                                    States(router.shards))
      ensures var routes := old(router.pending == [] || router.CanRoute());
        routes && old(Held()) < router.cfg.s && (old(autoResize) ==> height < MAX_TREE_HEIGHT) ==> ok
      ensures ok ==> fresh(result) && result as object !in router.repr
      ensures ok ==> result.Length == Slots(|router.shards|, Slots(Pow2(now + 1), router.cfg.z) + router.cfg.s)
      ensures ok ==> RealFirst(result[..]) && forall p :: Total(router.cfg.values, result[..], p) == SumOf(p)
      ensures ok && IdsCoherent(ids) ==> IsReadout(router.cfg.values, router.Stored(), result[..])
      ensures ok && router.Covers() ==> forall p :: SumOf(p) == old(SumOf(p)) && Stores(p) == old(Stores(p))
      ensures ok ==> Held() <= old(Held())
    {
      hide Known, Lawful, AllSum, Total, IsReadout, IdsCoherent, Slots, Pow2, RealFirst, ShardOk, Flat, Both, AllStored,
           AllLoad, Live, MatchCount, AfterFlush, router.CanRoute, IsPowerOfTwo, router.Valid, SumOf, Stores, Held,
           router.Stored, router.Flushed, States;
      ok, now := Flush(height, ids);
      if ok { result := PackFlushed(now, ids); } else { result := new Block<V>[0]; }
    }

    /** The readout, nothing being pending. */
    method PackFlushed(ghost height: nat, ghost ids: Ids) returns (result: array<Block<V>>)
      requires router.Valid(height, ids) && router.pending == []
      ensures router.Valid(height, ids) && Held() == old(Held())
      ensures States(router.shards) == old(States(router.shards))
      ensures forall p :: SumOf(p) == old(SumOf(p)) && Stores(p) == old(Stores(p))
      ensures fresh(result) && result as object !in router.repr
      ensures result.Length == Slots(|router.shards|, Slots(Pow2(height + 1), router.cfg.z) + router.cfg.s)
      ensures RealFirst(result[..]) && forall p :: Total(router.cfg.values, result[..], p) == SumOf(p)
      ensures IdsCoherent(ids) ==> IsReadout(router.cfg.values, router.Stored(), result[..])
    {
      hide Known, Lawful, AllSum, Total, IsReadout, IdsCoherent, Slots, Pow2, RealFirst, ShardOk, Flat, Both, AllStored,
           AllLoad, Live, MatchCount, IsPowerOfTwo;
      assert forall i :: 0 <= i < |router.shards| ==> allocated(router.shards[i].Footprint());
      ghost var mems, stashes := Mems(router.shards), Stashes(router.shards);
      result := router.PackedReadout(height, ids);
      assert Mems(router.shards) == mems && Stashes(router.shards) == stashes;
      forall p ensures SumOf(p) == router.ShardSum(p) { EmptyPending(router.cfg.values, router.ShardSum(p), p); }
    }

    /**
      `readout_tree_aware`.  The lengths of the shards' readouts are always equal, so the
      assertion of equal lengths never fails; the shards' readouts stand side by side.
     */
    method ReadoutTreeAware(ghost height: nat, ghost ids: Ids) returns (ok: bool, result: seq<Block<V>>, ghost now: nat)
      requires Valid(height, ids)
      modifies this, router, router.repr
      ensures ok ==> Valid(now, ids) && router.pending == [] && (now == height || now == height + 1)
      ensures ok ==> fresh(router.repr - old(router.repr)) && (!old(autoResize) ==> now == height)
      ensures ok ==> autoResize == old(autoResize)
      ensures IsPowerOfTwo(|router.shards|) && |router.frontends| >= 1
      ensures ok ==> router.Flushed(old(autoResize), old(router.pending), old(States(router.shards)), now != height,
                                    States(router.shards))
      ensures var routes := old(router.pending == [] || router.CanRoute());
        routes && old(Held()) < router.cfg.s && (old(autoResize) ==> height < MAX_TREE_HEIGHT) ==> ok
      ensures ok ==> |result| == Slots(|router.shards|, Slots(Pow2(now + 1), router.cfg.z) + router.cfg.s)
      ensures ok ==> forall p :: Total(router.cfg.values, result, p) == SumOf(p)
      ensures ok && IdsCoherent(ids) ==> IsReadout(router.cfg.values, router.Stored(), result)
      ensures ok && router.Covers() ==> forall p :: SumOf(p) == old(SumOf(p)) && Stores(p) == old(Stores(p))
      ensures ok ==> Held() <= old(Held())
    {
      hide Known, Lawful, AllSum, Total, IsReadout, IdsCoherent, Slots, Pow2, RealFirst, ShardOk, Flat, Both, AllStored,
           AllLoad, Live, MatchCount, AfterFlush, router.CanRoute, IsPowerOfTwo, router.Valid, SumOf, Stores, Held,
           router.Stored, router.Flushed, States;
      ok, now := Flush(height, ids);
      result := [];
      if ok { result := ReadAllFlushed(now, ids); }
    }

    /** The tree-aware readout, nothing being pending. */
    method ReadAllFlushed(ghost height: nat, ghost ids: Ids) returns (result: seq<Block<V>>)
      requires router.Valid(height, ids) && router.pending == []
      ensures router.Valid(height, ids) && Held() == old(Held())
      ensures States(router.shards) == old(States(router.shards))
      ensures forall p :: SumOf(p) == old(SumOf(p)) && Stores(p) == old(Stores(p))
      ensures |result| == Slots(|router.shards|, Slots(Pow2(height + 1), router.cfg.z) + router.cfg.s)
      ensures forall p :: Total(router.cfg.values, result, p) == SumOf(p)
      ensures IdsCoherent(ids) ==> IsReadout(router.cfg.values, router.Stored(), result)
    {
      hide Known, Lawful, AllSum, Total, IsReadout, IdsCoherent, Slots, Pow2, RealFirst, ShardOk, Flat, Both, AllStored,
           AllLoad, Live, MatchCount, IsPowerOfTwo;
      assert forall i :: 0 <= i < |router.shards| ==> allocated(router.shards[i].Footprint());
      ghost var mems, stashes := Mems(router.shards), Stashes(router.shards);
      result := router.ReadAllShards(true, height, ids);
      assert Mems(router.shards) == mems && Stashes(router.shards) == stashes;
      forall p ensures SumOf(p) == router.ShardSum(p) { EmptyPending(router.cfg.values, router.ShardSum(p), p); }
    }
  }

  lemma PushHeld<V>(pending: seq<Block<V>>, block: Block<V>)
    ensures |Live(pending + [block])| <= |Live(pending)| + 1
    ensures forall p :: MatchCount(pending + [block], p) > 0 <==> MatchCount(pending, p) > 0 || Matches(block, p)
  {
    hide Live, MatchCount;
    LiveConcat(pending, [block]);
    forall p ensures MatchCount(pending + [block], p) > 0 <==> MatchCount(pending, p) > 0 || Matches(block, p) {
      CountConcat(pending, [block], p);
      CountPresent([block], p);
      assert [block][0] == block;
    }
  }

  lemma NonePending<V>(m: Values<V>)
    ensures |Live<V>([])| == 0 && forall p :: MatchCount<V>([], p) == 0
  {
  }

  /** The concluding compaction of a readout. */
  method PackAll<V(!new)>(m: Values<V>, flat: seq<Block<V>>, ghost stored: seq<Block<V>>)
      returns (result: array<Block<V>>)
    requires Lawful(m)
    ensures fresh(result) && result.Length == |flat| && RealFirst(result[..])
    ensures forall p :: Total(m, result[..], p) == Total(m, flat, p)
    ensures IsReadout(m, stored, flat) ==> IsReadout(m, stored, result[..])
  {
    hide Lawful, Total, IsReadout, RealFirst, CompactedSlice, Live;
    result := new Block<V>[|flat|](i requires 0 <= i < |flat| => flat[i]);
    assert result[..] == flat && result[0..result.Length] == flat;
    var realLen := CompactBlocks(result, 0, result.Length);
    CompactedAll(flat, result[..]);
    forall p ensures Total(m, result[..], p) == Total(m, flat, p) { TotalOfLive(m, result[..], flat, p); }
    if IsReadout(m, stored, flat) { ReadoutOfLive(m, stored, flat, stored, result[..]); }
  }

  lemma PushKnown<V>(pending: seq<Block<V>>, block: Block<V>, ids: Ids)
    requires Known(pending, ids) && (block.Real() ==> (block.tag, block.payload) in ids)
    ensures Known(pending + [block], ids)
  {
    KnownBoth(pending, [block], ids);
  }

  lemma PushTotal<V(!new)>(m: Values<V>, pending: seq<Block<V>>, block: Block<V>, shardSum: V, p: Payload)
    requires Lawful(m)
    ensures m.plus(shardSum, Total(m, pending + [block], p))
         == m.plus(m.plus(shardSum, Total(m, pending, p)), AppendShare(m, block.tag, block.payload, block.value, p))
  {
    hide Lawful, Total;
    TotalConcat(m, pending, [block], p);
    TotalOne(m, block, p);
    Laws(m, shardSum, Total(m, pending, p), Contribution(m, block, p));
  }

  lemma EmptyPending<V(!new)>(m: Values<V>, shardSum: V, p: Payload)
    requires Lawful(m)
    ensures m.plus(shardSum, Total(m, [], p)) == shardSum
  {
    hide Lawful;
    Laws(m, shardSum, m.zero, m.zero);
  }

  lemma AllZeroSum<V(!new)>(m: Values<V>, mems: seq<seq<Block<V>>>, stashes: seq<seq<Block<V>>>, p: Payload)
    requires Lawful(m) && |mems| == |stashes|
    requires forall s :: 0 <= s < |mems| ==> StateTotal(m, mems[s], stashes[s], p) == m.zero
    ensures AllSum(m, mems, stashes, p) == m.zero
  {
    hide Lawful, Total, StateTotal;
    forall s: nat | s < |mems| ensures Total(m, Both(mems, stashes)[s], p) == m.zero {
      BothTotal(m, mems, stashes, s, p);
    }
    FlatOnly(m, Both(mems, stashes), |mems|, p);
  }

  lemma FreshSums<V(!new)>(shards: seq<ObliviousHistogram<V>>, cfg: Config<V>, height: nat, ids: Ids)
    requires Sound(shards, cfg, seq(|shards|, _ => height), ids) && Lawful(cfg.values)
    requires forall s, p :: 0 <= s < |shards| ==> shards[s].SumOf(p) == cfg.values.zero
    requires forall s :: 0 <= s < |shards| ==> shards[s].Held() == 0
    ensures forall p :: AllSum(cfg.values, Mems(shards), Stashes(shards), p) == cfg.values.zero
    ensures AllLoad(Mems(shards), Stashes(shards)) == 0 && forall p :: !AllStored(Mems(shards), Stashes(shards), p)
  {
    hide ShardOk, Lawful, Known, StateTotal, IsPowerOfTwo, Total, AllSum, AllLoad, AllStored, Load;
    ghost var mems, stashes := Mems(shards), Stashes(shards);
    forall s: nat, p: Payload | s < |shards| ensures StateTotal(cfg.values, mems[s], stashes[s], p) == cfg.values.zero {
      assert ShardOk(shards[s], s, |shards|, cfg, height, ids);
      SumIsState(shards[s], s, |shards|, cfg, height, ids, p);
    }
    NothingAnywhere(mems, stashes);
    forall p ensures AllSum(cfg.values, mems, stashes, p) == cfg.values.zero {
      AllZeroSum(cfg.values, mems, stashes, p);
    }
  }

  /** The router over fresh shards. */
  method BuildRouter<V(!new)>(shardCount: nat, shardCapacity: nat, batchSize: nat, perShardQuota: nat,
                              frontendCount: nat, cfg: Config<V>, prf: Cipher, oracles: nat -> Oracle,
                              ghost ids: Ids)
      returns (router: ShardedBatchRouter<V>)
    requires IsPowerOfTwo(shardCount) && shardCount <= MAX_SHARDS && Lawful(cfg.values) && cfg.a >= 1
    requires IsPowerOfTwo(cfg.z)
    requires shardCapacity >= 1 && TreeHeightForCapacity(shardCapacity, cfg.z) <= MAX_TREE_HEIGHT
    ensures router.Valid(TreeHeightForCapacity(shardCapacity, cfg.z), ids) && fresh(router) && fresh(router.repr)
    ensures router.batchCapacity == batchSize && router.cfg == cfg && router.pending == []
    ensures |router.shards| == shardCount && router.prf == prf && router.perShardQuota == perShardQuota
    ensures |router.frontends| == if frontendCount < 1 then 1 else frontendCount
    ensures router.ShardHeld() == 0 && forall s :: 0 <= s < shardCount ==> router.shards[s].oracle == oracles(s)
    ensures States(router.shards)
         == seq(shardCount, _ => NewState(cfg, TreeHeightForCapacity(shardCapacity, cfg.z)))
    ensures forall p ::
              router.ShardSum(p) == cfg.values.zero && !AllStored(Mems(router.shards), Stashes(router.shards), p)
  {
    hide Sound, Lawful, Known, StateTotal, IsPowerOfTwo, Total, AllSum, Owned, AllStored, AllLoad, Stored, Load,
         NewState;
    ghost var height := TreeHeightForCapacity(shardCapacity, cfg.z);
    var shards := BuildShards(shardCount, shardCapacity, cfg, prf, oracles, ids);
    ghost var mems, stashes, states := Mems(shards), Stashes(shards), States(shards);
    FreshSums(shards, cfg, height, ids);
    assert forall i :: 0 <= i < |shards| ==> allocated(shards[i].Footprint());
    router := new ShardedBatchRouter<V>(shards, cfg, prf, batchSize, perShardQuota, frontendCount, height, ids);
    assert Mems(shards) == mems && Stashes(shards) == stashes && States(shards) == states;
    forall o | o in Owned(shards) ensures fresh(o) { var s := OwnerOf(shards, o); }
  }

  /** `new_with_frontends`: shards of equal capacity, frontends, and an empty batch. */
  method NewSharded<V(!new)>(shardCount: nat, totalCapacity: nat, batchSize: nat, perShardQuota: nat,
                             frontendCount: nat, cfg: Config<V>, prf: Cipher, oracles: nat -> Oracle, sizeInBytes: nat,
                             ghost ids: Ids)
      returns (h: ShardedObliviousHistogram<V>)
    requires IsPowerOfTwo(shardCount) && shardCount <= MAX_SHARDS && Lawful(cfg.values) && cfg.a >= 1
    requires IsPowerOfTwo(cfg.z)
    requires totalCapacity / shardCount >= 1
    requires TreeHeightForCapacity(totalCapacity / shardCount, cfg.z) <= MAX_TREE_HEIGHT
    ensures h.Valid(TreeHeightForCapacity(totalCapacity / shardCount, cfg.z), ids) && fresh(h) && fresh(h.router)
    ensures fresh(h.router.repr)
    ensures h.capacity == totalCapacity && h.router.batchCapacity == batchSize && h.router.cfg == cfg
    ensures h.router.prf == prf && h.router.perShardQuota == perShardQuota && |h.router.shards| == shardCount
    ensures |h.router.frontends| == if frontendCount < 1 then 1 else frontendCount
    ensures h.router.pending == [] && h.epoch == 0 && !h.autoResize && h.Held() == 0
    ensures forall s :: 0 <= s < shardCount ==> h.router.shards[s].oracle == oracles(s)
    ensures States(h.router.shards)
         == seq(shardCount, _ => NewState(cfg, TreeHeightForCapacity(totalCapacity / shardCount, cfg.z)))
    ensures forall p :: h.router.ShardSum(p) == h.SumOf(p) == cfg.values.zero && !h.Stores(p)
  {
    hide Sound, Lawful, Known, AllSum, AllStored, AllLoad, Live, MatchCount, NewState, States, Owned;
    var shardCapacity := totalCapacity / shardCount;
    var router := BuildRouter(shardCount, shardCapacity, batchSize, perShardQuota, frontendCount, cfg, prf, oracles,
                              ids);
    ghost var mems, stashes, states := Mems(router.shards), Stashes(router.shards), States(router.shards);
    assert forall i :: 0 <= i < |router.shards| ==> allocated(router.shards[i].Footprint());
    h := new ShardedObliviousHistogram<V>(router, totalCapacity, sizeInBytes,
                                          TreeHeightForCapacity(shardCapacity, cfg.z), ids);
    assert Mems(router.shards) == mems && Stashes(router.shards) == stashes && States(router.shards) == states;
    NonePending(cfg.values);
    forall p ensures h.SumOf(p) == cfg.values.zero { EmptyPending(cfg.values, router.ShardSum(p), p); }
  }

  lemma SumIsState<V(!new)>(shard: ObliviousHistogram<V>, s: nat, count: nat, cfg: Config<V>, height: nat, ids: Ids,
                            p: Payload)
    requires IsPowerOfTwo(count) && ShardOk(shard, s, count, cfg, height, ids)
    ensures shard.SumOf(p) == StateTotal(cfg.values, shard.TreeSlots(), shard.StashSlots(), p)
  {
  }
}
