/**
  A row of shards as a whole: which keys it stores and how many blocks, and what a flush
  and a read do to both.
 */
module Holdings {
  import opened Wrappers
  import opened OddEvenMerge
  import opened Blocks
  import opened Reduction
  import opened SortReduce
  import opened Tree
  import opened Access
  import opened Readout
  import opened Presence
  import opened Contents
  import opened Capacity
  import opened Steps
  import opened Moves
  import opened Router
  import opened Partition
  import opened Frontend
  import opened Dispatch
  import opened Shards

  /** Some shard stores `p`. */
  ghost predicate AllStored<V>(mems: seq<seq<Block<V>>>, stashes: seq<seq<Block<V>>>, p: Payload)
    requires |mems| == |stashes|
  {
    MatchCount(Flat(Both(mems, stashes)), p) > 0
  }

  /** The number of real blocks in all shards. */
  ghost function AllLoad<V>(mems: seq<seq<Block<V>>>, stashes: seq<seq<Block<V>>>): nat
    requires |mems| == |stashes|
  {
    |Live(Flat(Both(mems, stashes)))|
  }

  lemma BothPresent<V>(mems: seq<seq<Block<V>>>, stashes: seq<seq<Block<V>>>, i: nat, p: Payload)
    requires i < |mems| == |stashes|
    ensures MatchCount(Both(mems, stashes)[i], p) > 0 <==> Stored(mems[i], stashes[i], p)
  {
    hide MatchCount;
    CountConcat(mems[i], stashes[i], p);
  }

  lemma BothLoad<V>(mems: seq<seq<Block<V>>>, stashes: seq<seq<Block<V>>>, i: nat)
    requires i < |mems| == |stashes|
    ensures |Live(Both(mems, stashes)[i])| == Load(mems[i], stashes[i])
  {
    hide Live;
    LiveConcat(mems[i], stashes[i]);
  }

  // ---- Adding up along a row ----------------------------------------------------------------------------

  lemma {:induction false} FlatLoad<V>(a: seq<seq<Block<V>>>, b: seq<seq<Block<V>>>, c: seq<seq<Block<V>>>)
    requires |a| == |b| == |c| && forall i :: 0 <= i < |a| ==> |Live(a[i])| <= |Live(b[i])| + |Live(c[i])|
    ensures |Live(Flat(a))| <= |Live(Flat(b))| + |Live(Flat(c))|
  {
    hide Live;
    if a != [] {
      var n := |a| - 1;
      FlatLoad(a[..n], b[..n], c[..n]);
      LiveConcat(Flat(a[..n]), a[n]);
      LiveConcat(Flat(b[..n]), b[n]);
      LiveConcat(Flat(c[..n]), c[n]);
    } else {
      LiveNone<V>([]);
    }
  }

  lemma {:induction false} PartLoad<V>(a: seq<seq<Block<V>>>, i: nat)
    requires i < |a|
    ensures |Live(a[i])| <= |Live(Flat(a))|
  {
    hide Live;
    var n := |a| - 1;
    LiveConcat(Flat(a[..n]), a[n]);
    if i < n { PartLoad(a[..n], i); }
  }

  /** A row of shards that store and hold nothing. */
  lemma NothingAnywhere<V>(mems: seq<seq<Block<V>>>, stashes: seq<seq<Block<V>>>)
    requires |mems| == |stashes| && forall s :: 0 <= s < |mems| ==> Load(mems[s], stashes[s]) == 0
    ensures AllLoad(mems, stashes) == 0 && forall p :: !AllStored(mems, stashes, p)
  {
    hide Live, Flat, MatchCount, Load;
    var b := Both(mems, stashes);
    var none: seq<seq<Block<V>>> := seq(|b|, _ => []);
    EmptyFlat(none);
    LiveNone<V>([]);
    forall s: nat | s < |b| ensures |Live(b[s])| <= |Live(none[s])| + |Live(none[s])| { BothLoad(mems, stashes, s); }
    FlatLoad(b, none, none);
    forall p ensures !AllStored(mems, stashes, p) {
      CountLive(Flat(b), p);
      NoMatches<V>(p);
    }
  }

  lemma NoMatches<V>(p: Payload)
    ensures MatchCount<V>([], p) == 0
  {
  }

  // ---- What shards take ------------------------------------------------------------------------------------

  lemma {:induction false} ChunkEffective<V>(s: seq<Block<V>>)
    ensures EffectiveCount(AsUpdates(s)) == |Live(s)|
  {
    if s != [] {
      var n := |s| - 1;
      ChunkEffective(s[..n]);
      assert AsUpdates(s)[..n] == AsUpdates(s[..n]);
    }
  }

  lemma ChunkBrings<V>(s: seq<Block<V>>, p: Payload)
    ensures Brings(AsUpdates(s), p) <==> MatchCount(s, p) > 0
  {
    hide MatchCount;
    CountPresent(s, p);
    var us := AsUpdates(s);
    if i :| 0 <= i < |us| && Effective(us[i]) && us[i].payload == p { assert Matches(s[i], p); }
    if i :| 0 <= i < |s| && Matches(s[i], p) { assert Effective(us[i]) && us[i].payload == p; }
  }

  /** Shards that take their columns store the keys they stored and those of the columns. */
  lemma FedStored<V(!new)>(m: Values<V>, mems: seq<seq<Block<V>>>, stashes: seq<seq<Block<V>>>,
                           mems': seq<seq<Block<V>>>, stashes': seq<seq<Block<V>>>, cols: seq<seq<Block<V>>>,
                           p: Payload)
    requires |mems| == |stashes| == |mems'| == |stashes'| == |cols|
    requires forall s :: 0 <= s < |mems| ==> Absorbed(m, mems[s], stashes[s], mems'[s], stashes'[s], AsUpdates(cols[s]))
    ensures AllStored(mems', stashes', p) <==> AllStored(mems, stashes, p) || MatchCount(Flat(cols), p) > 0
  {
    hide StateTotal, Known, UpdatesTotal, MatchCount, Flat, Brings, Stored, AsUpdates;
    var b, b' := Both(mems, stashes), Both(mems', stashes');
    FlatCount(b, p);
    FlatCount(b', p);
    FlatCount(cols, p);
    forall s: nat | s < |mems|
      ensures MatchCount(b'[s], p) > 0 <==> MatchCount(b[s], p) > 0 || MatchCount(cols[s], p) > 0
    {
      BothPresent(mems, stashes, s, p);
      BothPresent(mems', stashes', s, p);
      ChunkBrings(cols[s], p);
      assert Absorbed(m, mems[s], stashes[s], mems'[s], stashes'[s], AsUpdates(cols[s]));
    }
  }

  /** They hold at most the blocks they held and those of the columns. */
  lemma FedLoad<V>(mems: seq<seq<Block<V>>>, stashes: seq<seq<Block<V>>>, mems': seq<seq<Block<V>>>,
                   stashes': seq<seq<Block<V>>>, cols: seq<seq<Block<V>>>)
    requires |mems| == |stashes| == |mems'| == |stashes'| == |cols|
    requires forall s :: 0 <= s < |mems| ==>
               Load(mems'[s], stashes'[s]) <= Load(mems[s], stashes[s]) + EffectiveCount(AsUpdates(cols[s]))
    ensures AllLoad(mems', stashes') <= AllLoad(mems, stashes) + |Live(Flat(cols))|
  {
    hide Live, Load, EffectiveCount, AsUpdates, Flat;
    var b, b' := Both(mems, stashes), Both(mems', stashes');
    forall s: nat | s < |mems| ensures |Live(b'[s])| <= |Live(b[s])| + |Live(cols[s])| {
      BothLoad(mems, stashes, s);
      BothLoad(mems', stashes', s);
      ChunkEffective(cols[s]);
    }
    FlatLoad(b', b, cols);
  }

  /** With room for all columns there is room in every shard. */
  lemma FedFits<V>(mems: seq<seq<Block<V>>>, stashes: seq<seq<Block<V>>>, cols: seq<seq<Block<V>>>, room: nat)
    requires |mems| == |stashes| == |cols| && AllLoad(mems, stashes) + |Live(Flat(cols))| < room
    ensures forall s :: 0 <= s < |mems| ==> Fits(mems[s], stashes[s], AsUpdates(cols[s]), room)
    ensures forall s :: 0 <= s < |mems| ==> Fits(mems[s], stashes[s], [], room)
  {
    hide Live, Load, EffectiveCount, AsUpdates, Flat;
    NothingToFeed<V>();
    forall s: nat | s < |mems|
      ensures Fits(mems[s], stashes[s], AsUpdates(cols[s]), room) && Fits(mems[s], stashes[s], [], room)
    {
      BothLoad(mems, stashes, s);
      PartLoad(Both(mems, stashes), s);
      PartLoad(cols, s);
      ChunkEffective(cols[s]);
    }
  }

  lemma AllFit<V>(states: seq<State<V>>, mems: seq<seq<Block<V>>>, stashes: seq<seq<Block<V>>>, room: nat)
    requires |mems| == |stashes| == |states| && AllLoad(mems, stashes) < room
    requires forall s :: 0 <= s < |states| ==> states[s].mem == mems[s] && states[s].stash == stashes[s]
    ensures EachFits(states, room)
  {
    hide Live, Fits, AsUpdates, Flat;
    var cols: seq<seq<Block<V>>> := seq(|mems|, _ => []);
    EmptyFlat(cols);
    LiveNone<V>([]);
    FedFits(mems, stashes, cols, room);
  }

  // ---- What frontends route ----------------------------------------------------------------------------------

  lemma SubBatchPresent<V(!new)>(m: Values<V>, batch: seq<Block<V>>, shardCount: nat, p: Payload)
    requires IsPowerOfTwo(shardCount)
    ensures MatchCount(SubBatch(m, batch, shardCount), p) > 0 <==> MatchCount(batch, p) > 0
  {
    hide Reduced, Live, SortedByKey, RouterKey, MatchCount, IsPowerOfTwo;
    var t := SortedByKey(batch, KeyFor(shardCount));
    SortedByKeyIsSorted(batch, KeyFor(shardCount));
    CountPermutes(t, batch, p);
    ReducedPresent(m, t, p);
    CountLive(Reduced(m, t), p);
  }

  lemma SubBatchFewer<V(!new)>(m: Values<V>, batch: seq<Block<V>>, shardCount: nat)
    requires IsPowerOfTwo(shardCount)
    ensures |SubBatch(m, batch, shardCount)| <= |Live(batch)|
  {
    hide Reduced, Live, SortedByKey, RouterKey, IsPowerOfTwo;
    var t := SortedByKey(batch, KeyFor(shardCount));
    SortedByKeyIsSorted(batch, KeyFor(shardCount));
    LivePermutes(t, batch);
    RemainingLive(m, t, None);
  }

  /** A quota that is at least the batch's length is never exceeded. */
  lemma QuotaSuffices<V(!new)>(m: Values<V>, batch: seq<Block<V>>, shardCount: nat, quota: nat)
    requires IsPowerOfTwo(shardCount) && |batch| <= quota
    ensures !QuotaExceeded(SubBatch(m, batch, shardCount), shardCount, quota)
  {
    hide Live, SubBatch, IsPowerOfTwo, BinBlocks;
    SubBatchFewer(m, batch, shardCount);
  }

  /** The columns together have the keys of the slices, and no more real blocks than these. */
  lemma RoutedHoldings<V(!new)>(m: Values<V>, batch: seq<Block<V>>, subN: nat, rs: seq<seq<Block<V>>>, shardCount: nat,
                                q: nat)
    requires IsPowerOfTwo(shardCount) && Slots(|rs|, subN) <= |batch|
    requires forall f :: 0 <= f < |rs| ==>
               Routed(SubBatch(m, Slices(batch, subN, |rs|)[f], shardCount), rs[f], ShardOf(shardCount), shardCount, q)
    ensures var cols, covered := Columns(rs, q, shardCount, |rs|), batch[..Slots(|rs|, subN)];
      && (forall p :: MatchCount(Flat(cols), p) > 0 <==> MatchCount(covered, p) > 0)
      && |Live(Flat(cols))| <= |Live(covered)|
  {
    hide IsPowerOfTwo, Slots, Routed, SubBatch, Columns, Flat, MatchCount, Live;
    var bs, cols := Slices(batch, subN, |rs|), Columns(rs, q, shardCount, |rs|);
    var none: seq<seq<Block<V>>> := seq(|rs|, _ => []);
    EmptyFlat(none);
    LiveNone<V>([]);
    forall f | 0 <= f < |rs|
      ensures |rs[f]| == Slots(shardCount, q) && |Live(rs[f])| <= |Live(bs[f])| + |Live(none[f])|
    {
      RoutedIs(SubBatch(m, bs[f], shardCount), rs[f], ShardOf(shardCount), shardCount, q);
      SubBatchFewer(m, bs[f], shardCount);
    }
    CellsFlat(batch, subN, |rs|);
    FlatLoad(rs, bs, none);
    ColumnsPartition(rs, q, shardCount, |rs|);
    assert rs[..|rs|] == rs;
    LivePermutes(Flat(cols), Flat(rs));
    forall p ensures MatchCount(Flat(cols), p) > 0 <==> MatchCount(Flat(bs), p) > 0 {
      CountPermutes(Flat(cols), Flat(rs), p);
      RoutedKeys(m, bs, rs, shardCount, q, p);
    }
  }

  lemma RoutedKeys<V(!new)>(m: Values<V>, bs: seq<seq<Block<V>>>, rs: seq<seq<Block<V>>>, shardCount: nat, q: nat,
                            p: Payload)
    requires IsPowerOfTwo(shardCount) && |bs| == |rs|
    requires forall f :: 0 <= f < |rs| ==>
               Routed(SubBatch(m, bs[f], shardCount), rs[f], ShardOf(shardCount), shardCount, q)
    ensures MatchCount(Flat(rs), p) > 0 <==> MatchCount(Flat(bs), p) > 0
  {
    hide IsPowerOfTwo, Routed, SubBatch, Flat, MatchCount;
    FlatCount(rs, p);
    FlatCount(bs, p);
    forall f | 0 <= f < |rs| ensures MatchCount(rs[f], p) > 0 <==> MatchCount(bs[f], p) > 0 {
      RoutedIs(SubBatch(m, bs[f], shardCount), rs[f], ShardOf(shardCount), shardCount, q);
      SubBatchPresent(m, bs[f], shardCount, p);
      CountLive(rs[f], p);
    }
  }

  // ---- Reads -----------------------------------------------------------------------------------------------------

  /** A read takes the key out of the shards when it has one tag, keeps all others, and adds no blocks. */
  lemma ReadHoldings<V(!new)>(m: Values<V>, mems: seq<seq<Block<V>>>, stashes: seq<seq<Block<V>>>,
                              mems': seq<seq<Block<V>>>, stashes': seq<seq<Block<V>>>, target: nat, ids: Ids, tag: Tag,
                              payload: Payload, result: V)
    requires |mems| == |stashes| == |mems'| == |stashes'| && IsPowerOfTwo(|mems|)
    requires target == ShardIndexForTag(tag, |mems|)
    requires forall s :: 0 <= s < |mems| ==>
               ReadSeqs(m, mems[s], stashes[s], mems'[s], stashes'[s], s == target, ids, tag, payload, result)
    requires forall s :: 0 <= s < |mems| ==>
               (Known(mems[s], ids) && Known(stashes[s], ids) && Known(mems[s], ShardIds(s, |mems|))
                && Known(stashes[s], ShardIds(s, |mems|)))
    ensures forall p :: p != payload ==> (AllStored(mems', stashes', p) <==> AllStored(mems, stashes, p))
    ensures OneTag(ids, tag, payload) ==> !AllStored(mems', stashes', payload)
    ensures AllLoad(mems', stashes') <= AllLoad(mems, stashes)
  {
    hide StateTotal, Known, ShardIndexForTag, IsPowerOfTwo, Unambiguous, OneTag, ShardIds, Stored, Load, MatchCount,
         Flat, Live, ReadSeqs;
    var b, b' := Both(mems, stashes), Both(mems', stashes');
    forall p | p != payload ensures AllStored(mems', stashes', p) <==> AllStored(mems, stashes, p) {
      FlatCount(b, p);
      FlatCount(b', p);
      forall s: nat | s < |mems| ensures MatchCount(b'[s], p) > 0 <==> MatchCount(b[s], p) > 0 {
        ReadKeeps(m, mems[s], stashes[s], mems'[s], stashes'[s], s == target, ids, tag, payload, result, p);
        BothPresent(mems, stashes, s, p);
        BothPresent(mems', stashes', s, p);
      }
    }
    if OneTag(ids, tag, payload) {
      FlatCount(b', payload);
      forall s: nat | s < |mems| ensures MatchCount(b'[s], payload) == 0 {
        ReadKeeps(m, mems[s], stashes[s], mems'[s], stashes'[s], s == target, ids, tag, payload, result, payload);
        if s != target { NotStoredHere(mems[s], stashes[s], s, |mems|, ids, tag, payload); }
        BothPresent(mems', stashes', s, payload);
      }
    }
    var none: seq<seq<Block<V>>> := seq(|mems|, _ => []);
    EmptyFlat(none);
    LiveNone<V>([]);
    forall s: nat | s < |mems| ensures |Live(b'[s])| <= |Live(b[s])| + |Live(none[s])| {
      ReadKeeps(m, mems[s], stashes[s], mems'[s], stashes'[s], s == target, ids, tag, payload, result, payload);
      BothLoad(mems, stashes, s);
      BothLoad(mems', stashes', s);
    }
    FlatLoad(b', b, none);
  }

  lemma ReadKeeps<V(!new)>(m: Values<V>, mem: seq<Block<V>>, stash: seq<Block<V>>, mem': seq<Block<V>>,
                           stash': seq<Block<V>>, isTarget: bool, ids: Ids, tag: Tag, payload: Payload, result: V,
                           p: Payload)
    requires ReadSeqs(m, mem, stash, mem', stash', isTarget, ids, tag, payload, result)
    ensures p != payload || !isTarget ==> (Stored(mem', stash', p) <==> Stored(mem, stash, p))
    ensures isTarget && OneTag(ids, tag, payload) ==> !Stored(mem', stash', payload)
    ensures Load(mem', stash') <= Load(mem, stash)
  {
    hide StateTotal, Stored, Load, OneTag, Unambiguous;
  }

  lemma NotStoredHere<V>(mem: seq<Block<V>>, stash: seq<Block<V>>, s: nat, count: nat, ids: Ids, tag: Tag,
                         payload: Payload)
    requires IsPowerOfTwo(count) && s != ShardIndexForTag(tag, count) && OneTag(ids, tag, payload)
    requires Known(mem, ids) && Known(stash, ids) && Known(mem, ShardIds(s, count)) && Known(stash, ShardIds(s, count))
    ensures !Stored(mem, stash, payload)
  {
    hide ShardIndexForTag, IsPowerOfTwo, MatchCount, Known, OneTag, ShardIds;
    NoneOfKey(mem, s, count, ids, tag, payload);
    NoneOfKey(stash, s, count, ids, tag, payload);
    CountPresent(mem, payload);
    CountPresent(stash, payload);
  }
}
