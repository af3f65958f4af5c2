/**
  A row of shards: independent histograms on disjoint storage, each holding only keys
  whose tags belong to it, all of the same height.
 */
module Shards {
  import opened Arithmetic
  import opened Wrappers
  import opened OddEvenMerge
  import opened Blocks
  import opened Routing
  import opened Tree
  import opened Stash
  import opened Access
  import opened Presence
  import opened Contents
  import opened Capacity
  import opened Clock
  import opened Crypto
  import opened Resize
  import opened Histogram
  import opened Order
  import opened Readout
  import opened Bits
  import opened Router
  import opened Subtrees
  import opened Partition
  import opened Frontend
  import opened Dispatch
  import opened Steps
  import opened Moves

  // ---- Storage ------------------------------------------------------------------------------------------

  ghost function Owned<V(!new)>(shards: seq<ObliviousHistogram<V>>): set<object>
    reads set i | 0 <= i < |shards| :: shards[i]
    reads set i | 0 <= i < |shards| :: shards[i].stash
  {
    set i, o | 0 <= i < |shards| && o in shards[i].Footprint() :: o
  }

  lemma OwnsShards<V(!new)>(shards: seq<ObliviousHistogram<V>>)
    ensures forall s :: 0 <= s < |shards| ==> shards[s].Footprint() <= Owned(shards)
  {
  }

  ghost predicate Apart<V(!new)>(shards: seq<ObliviousHistogram<V>>)
    reads set i | 0 <= i < |shards| :: shards[i]
    reads set i | 0 <= i < |shards| :: shards[i].stash
  {
    forall i, j :: 0 <= i < j < |shards| ==> shards[i].Footprint() !! shards[j].Footprint()
  }

  /** One shard: valid, with the common parameters, not growing by itself, holding only its own keys. */
  ghost predicate ShardOk<V(!new)>(shard: ObliviousHistogram<V>, s: nat, count: nat, cfg: Config<V>, height: nat,
                                   ids: Ids)
    requires IsPowerOfTwo(count)
    reads shard.Footprint(), shard, shard.stash
  {
    && shard.Valid() && shard.cfg == cfg && shard.height == height && !GrowsAlone(shard.autoResize)
    && shard.Knows(ShardIds(s, count)) && shard.Knows(ids)
  }

  ghost predicate Sound<V(!new)>(shards: seq<ObliviousHistogram<V>>, cfg: Config<V>, heights: seq<nat>, ids: Ids)
    reads Owned(shards)
    reads set i | 0 <= i < |shards| :: shards[i]
    reads set i | 0 <= i < |shards| :: shards[i].stash
  {
    && IsPowerOfTwo(|shards|) && |shards| <= MAX_SHARDS && Apart(shards) && |heights| == |shards|
    && forall s :: 0 <= s < |shards| ==> ShardOk(shards[s], s, |shards|, cfg, heights[s], ids)
  }

  // ---- Construction ----------------------------------------------------------------------------------------

  /** Fresh shards of equal capacity: sound for any keys, and holding nothing. */
  method BuildShards<V(!new)>(count: nat, shardCapacity: nat, cfg: Config<V>, prf: Cipher,
                              oracles: nat -> Oracle, ghost ids: Ids)
      returns (shards: seq<ObliviousHistogram<V>>)
    requires IsPowerOfTwo(count) && count <= MAX_SHARDS && Lawful(cfg.values) && cfg.a >= 1 && IsPowerOfTwo(cfg.z)
    requires shardCapacity >= 1
    requires TreeHeightForCapacity(shardCapacity, cfg.z) <= MAX_TREE_HEIGHT
    ensures |shards| == count && Sound(shards, cfg, seq(count, _ => TreeHeightForCapacity(shardCapacity, cfg.z)), ids)
    ensures forall s :: 0 <= s < count ==> fresh(shards[s].Footprint())
    ensures forall s, p :: 0 <= s < count ==> shards[s].SumOf(p) == cfg.values.zero && !shards[s].Stores(p)
    ensures forall s :: 0 <= s < count ==> shards[s].Held() == 0 && shards[s].oracle == oracles(s)
    ensures States(shards) == seq(count, _ => NewState(cfg, TreeHeightForCapacity(shardCapacity, cfg.z)))
  {
    hide Lawful, IsPowerOfTwo, EmptyShard;
    shards := [];
    var h := TreeHeightForCapacity(shardCapacity, cfg.z);
    for s := 0 to count
      invariant |shards| == s && Apart(shards)
      invariant forall i :: 0 <= i < s ==> EmptyShard(shards[i], i, count, cfg, h, ids) && fresh(shards[i].Footprint())
      invariant forall i :: 0 <= i < s ==> shards[i].oracle == oracles(i)
    {
      assert forall i :: 0 <= i < s ==> allocated(shards[i].Footprint());
      var shard := NewShard(s, count, shardCapacity, cfg, prf, oracles(s), ids);
      shards := shards + [shard];
    }
    AllEmpty(shards, cfg, h, ids);
  }

  /** The state of a new histogram. */
  ghost function NewState<V>(cfg: Config<V>, height: nat): State<V> {
    State(Dummies(Slots(Pow2(height + 1), cfg.z), cfg.Dummy()),
          Dummies(Slots(height + 1, cfg.z) + cfg.s, cfg.Dummy()), Counters(height, 0, 0, 0, 0, []), None)
  }

  /** A shard of its row that stores and holds nothing. */
  ghost predicate EmptyShard<V(!new)>(shard: ObliviousHistogram<V>, s: nat, count: nat, cfg: Config<V>, height: nat,
                                      ids: Ids)
    requires IsPowerOfTwo(count)
    reads shard.Footprint(), shard, shard.stash
  {
    && ShardOk(shard, s, count, cfg, height, ids) && shard.Held() == 0 && shard.Snapshot() == NewState(cfg, height)
    && forall p :: shard.SumOf(p) == cfg.values.zero && !shard.Stores(p)
  }

  method NewShard<V(!new)>(s: nat, count: nat, shardCapacity: nat, cfg: Config<V>, prf: Cipher, oracle: Oracle,
                           ghost ids: Ids)
      returns (shard: ObliviousHistogram<V>)
    requires IsPowerOfTwo(count) && Lawful(cfg.values) && cfg.a >= 1 && IsPowerOfTwo(cfg.z) && shardCapacity >= 1
    requires TreeHeightForCapacity(shardCapacity, cfg.z) <= MAX_TREE_HEIGHT
    ensures EmptyShard(shard, s, count, cfg, TreeHeightForCapacity(shardCapacity, cfg.z), ids)
    ensures fresh(shard.Footprint()) && shard.oracle == oracle
  {
    hide WellFormed, Lawful, Known, StateTotal, IsPowerOfTwo, Stored, Load;
    shard := new ObliviousHistogram<V>(shardCapacity, cfg, prf, oracle);
    NothingHeld(shard.TreeSlots(), shard.StashSlots(), cfg.Dummy());
  }

  lemma AllEmpty<V(!new)>(shards: seq<ObliviousHistogram<V>>, cfg: Config<V>, height: nat, ids: Ids)
    requires IsPowerOfTwo(|shards|) && |shards| <= MAX_SHARDS && Apart(shards)
    requires forall s :: 0 <= s < |shards| ==> EmptyShard(shards[s], s, |shards|, cfg, height, ids)
    ensures Sound(shards, cfg, seq(|shards|, _ => height), ids)
    ensures forall s, p :: 0 <= s < |shards| ==> shards[s].SumOf(p) == cfg.values.zero && !shards[s].Stores(p)
    ensures forall s :: 0 <= s < |shards| ==> shards[s].Held() == 0
    ensures States(shards) == seq(|shards|, _ => NewState(cfg, height))
  {
    hide ShardOk, IsPowerOfTwo, StateTotal, Stored, Load, NewState;
    forall s | 0 <= s < |shards|
      ensures ShardOk(shards[s], s, |shards|, cfg, height, ids) && shards[s].Held() == 0
      ensures shards[s].Snapshot() == NewState(cfg, height)
      ensures forall p :: shards[s].SumOf(p) == cfg.values.zero && !shards[s].Stores(p)
    {
      assert EmptyShard(shards[s], s, |shards|, cfg, height, ids);
    }
  }

  // ---- One shard --------------------------------------------------------------------------------------------

  /** `process_batch_chunk`. */
  method ProcessBatchChunk<V(!new)>(shard: ObliviousHistogram<V>, chunk: seq<Block<V>>) returns (ok: bool)
    requires shard.Valid()
    modifies shard, shard.physicalMemory, shard.stash, shard.stash.blocks
    ensures ok ==> shard.Valid() && fresh(shard.Footprint() - old(shard.Footprint()))
    ensures ok ==>
              Absorbed(shard.cfg.values, old(shard.physicalMemory[..]), old(shard.stash.blocks[..]),
                       shard.physicalMemory[..], shard.stash.blocks[..], AsUpdates(chunk))
    ensures ok ==> BatchStep(shard.cfg, shard.oracle, old(shard.Snapshot()), AsUpdates(chunk), shard.Snapshot())
    ensures !ok ==> BatchStuck(shard.cfg, shard.oracle, old(shard.Snapshot()), AsUpdates(chunk))
    ensures ok ==> GrowsAlone(shard.autoResize) == old(GrowsAlone(shard.autoResize))
                   && (!GrowsAlone(shard.autoResize) ==> shard.height == old(shard.height))
    ensures old(shard.RoomToTake(AsUpdates(chunk))) ==> ok
    ensures ok ==> shard.Held() <= old(shard.Held()) + EffectiveCount(AsUpdates(chunk))
  {
    hide Absorbed, WellFormed, Lawful, AppendedMany, Load, EffectiveCount, GrowsAlone, BatchStep, BatchStuck;
    ok := shard.AppendPreparedMaskedBatch(AsUpdates(chunk));
  }

  /** All frontends' slots for one shard, in turn. */
  method FeedShard<V(!new)>(shard: ObliviousHistogram<V>, rs: seq<seq<Block<V>>>, q: nat, s: nat) returns (ok: bool)
    requires shard.Valid() && forall f :: 0 <= f < |rs| ==> Slots(s, q) + q <= |rs[f]|
    modifies shard, shard.physicalMemory, shard.stash, shard.stash.blocks
    ensures ok ==> shard.Valid() && fresh(shard.Footprint() - old(shard.Footprint()))
    ensures ok ==>
              Absorbed(shard.cfg.values, old(shard.physicalMemory[..]), old(shard.stash.blocks[..]),
                       shard.physicalMemory[..], shard.stash.blocks[..], AsUpdates(Column(rs, q, s, |rs|)))
    ensures ok ==> FeedRun(shard.cfg, shard.oracle, rs, q, s, |rs|, old(shard.Snapshot()), shard.Snapshot())
    ensures ok ==> GrowsAlone(shard.autoResize) == old(GrowsAlone(shard.autoResize))
                   && (!GrowsAlone(shard.autoResize) ==> shard.height == old(shard.height))
    ensures var held := old(shard.Held()) + EffectiveCount(AsUpdates(Column(rs, q, s, |rs|)));
      && (held < shard.cfg.s && !old(GrowsAlone(shard.autoResize)) ==> ok)
      && (ok ==> shard.Held() <= held)
  {
    hide Absorbed, WellFormed, Lawful, Slots, Load, EffectiveCount, GrowsAlone, Column, AsUpdates, Ticking, FeedRun,
         BatchStep, BatchStuck;
    NoneEffective<V>();
    ghost var mem, stash, state := shard.physicalMemory[..], shard.stash.blocks[..], shard.Snapshot();
    FeedStarts(shard.cfg, shard.oracle, rs, q, s, state);
    NothingAbsorbed(shard.cfg.values, mem, stash);
    NoColumn(rs, q, s);
    for f := 0 to |rs|
      invariant shard.Valid() && fresh(shard.Footprint() - old(shard.Footprint()))
      invariant Absorbed(shard.cfg.values, mem, stash, shard.physicalMemory[..], shard.stash.blocks[..],
                         AsUpdates(Column(rs, q, s, f)))
      invariant FeedRun(shard.cfg, shard.oracle, rs, q, s, f, state, shard.Snapshot())
      invariant GrowsAlone(shard.autoResize) == old(GrowsAlone(shard.autoResize))
                && (!GrowsAlone(shard.autoResize) ==> shard.height == old(shard.height))
      invariant shard.Held() <= old(shard.Held()) + EffectiveCount(AsUpdates(Column(rs, q, s, f)))
    {
      ColumnEffective(rs, q, s, f);
      ghost var mem1, stash1, state1 := shard.physicalMemory[..], shard.stash.blocks[..], shard.Snapshot();
      var chunk := rs[f][Slots(s, q)..Slots(s, q) + q];
      ok := ProcessBatchChunk(shard, chunk);
      if !ok {
        return;
      }
      AbsorbedThen(shard.cfg.values, mem, stash, mem1, stash1, shard.physicalMemory[..], shard.stash.blocks[..],
                   AsUpdates(Column(rs, q, s, f)), AsUpdates(chunk));
      FeedOn(shard.cfg, shard.oracle, rs, q, s, f, state, state1, shard.Snapshot());
    }
    ok := true;
  }

  lemma NoColumn<V>(rs: seq<seq<Block<V>>>, q: nat, s: nat)
    requires forall g :: 0 <= g < |rs| ==> Slots(s, q) + q <= |rs[g]|
    ensures AsUpdates(Column(rs, q, s, 0)) == []
  {
  }

  lemma {:induction false} ColumnEffective<V>(rs: seq<seq<Block<V>>>, q: nat, s: nat, f: nat)
    requires f < |rs| && forall g :: 0 <= g < |rs| ==> Slots(s, q) + q <= |rs[g]|
    ensures AsUpdates(Column(rs, q, s, f + 1))
         == AsUpdates(Column(rs, q, s, f)) + AsUpdates(rs[f][Slots(s, q)..Slots(s, q) + q])
    ensures EffectiveCount(AsUpdates(Column(rs, q, s, f + 1)))
         == EffectiveCount(AsUpdates(Column(rs, q, s, f)))
            + EffectiveCount(AsUpdates(rs[f][Slots(s, q)..Slots(s, q) + q]))
    ensures EffectiveCount(AsUpdates(Column(rs, q, s, f + 1))) <= EffectiveCount(AsUpdates(Column(rs, q, s, |rs|)))
    decreases |rs| - f
  {
    hide Slots, EffectiveCount;
    var chunk := rs[f][Slots(s, q)..Slots(s, q) + q];
    assert AsUpdates(Column(rs, q, s, f + 1)) == AsUpdates(Column(rs, q, s, f)) + AsUpdates(chunk);
    EffectiveConcat(AsUpdates(Column(rs, q, s, f)), AsUpdates(chunk));
    if f + 1 < |rs| { ColumnEffective(rs, q, s, f + 1); }
  }

  // ---- All shards ----------------------------------------------------------------------------------------------

  /** The contents of a shard, before and after it has absorbed `us`, adding no more blocks than count. */
  ghost predicate Fed<V(!new)>(shard: ObliviousHistogram<V>, mem: seq<Block<V>>, stash: seq<Block<V>>,
                               us: seq<Update<V>>)
    reads shard.Footprint(), shard, shard.stash
  {
    && Absorbed(shard.cfg.values, mem, stash, shard.TreeSlots(), shard.StashSlots(), us)
    && shard.Held() <= Load(mem, stash) + EffectiveCount(us)
  }

  lemma FedKnows<V(!new)>(shard: ObliviousHistogram<V>, mem: seq<Block<V>>, stash: seq<Block<V>>, column: seq<Block<V>>,
                          ids: Ids)
    requires Fed(shard, mem, stash, AsUpdates(column)) && Known(mem, ids) && Known(stash, ids) && Known(column, ids)
    ensures shard.Knows(ids)
  {
    hide Known;
    AsUpdatesKnown(column, ids);
  }

  ghost predicate Untouched<V(!new)>(shard: ObliviousHistogram<V>, state: State<V>)
    reads shard.Footprint(), shard, shard.stash
  {
    shard.Snapshot() == state
  }

  /** What a move has made of a shard. */
  ghost predicate HasMoved<V(!new)>(shard: ObliviousHistogram<V>, move: Move<V>, s: nat, before: State<V>)
    reads shard.Footprint(), shard, shard.stash
  {
    Moved(shard.cfg, shard.oracle, move, s, before, shard.Snapshot())
  }

  ghost function States<V(!new)>(shards: seq<ObliviousHistogram<V>>): (r: seq<State<V>>)
    reads Owned(shards)
    reads set i | 0 <= i < |shards| :: shards[i]
    reads set i | 0 <= i < |shards| :: shards[i].stash
    ensures |r| == |shards|
    ensures forall s :: 0 <= s < |shards| ==> r[s].mem == Mems(shards)[s] && r[s].stash == Stashes(shards)[s]
  {
    seq(|shards|, i requires 0 <= i < |shards| reads Owned(shards), (set i | 0 <= i < |shards| :: shards[i]),
        (set i | 0 <= i < |shards| :: shards[i].stash)
                  => shards[i].Snapshot())
  }

  lemma StatesAre<V(!new)>(shards: seq<ObliviousHistogram<V>>)
    ensures forall s :: 0 <= s < |shards| ==> States(shards)[s] == shards[s].Snapshot()
  {
  }

  function Oracles<V(!new)>(shards: seq<ObliviousHistogram<V>>): (r: seq<Oracle>)
    ensures |r| == |shards|
  {
    seq(|shards|, i requires 0 <= i < |shards| => shards[i].oracle)
  }

  ghost function Mems<V(!new)>(shards: seq<ObliviousHistogram<V>>): (r: seq<seq<Block<V>>>)
    reads Owned(shards)
    reads set i | 0 <= i < |shards| :: shards[i]
    reads set i | 0 <= i < |shards| :: shards[i].stash
    ensures |r| == |shards|
  {
    seq(|shards|, i requires 0 <= i < |shards| reads Owned(shards), (set i | 0 <= i < |shards| :: shards[i]),
        (set i | 0 <= i < |shards| :: shards[i].stash)
                  => shards[i].TreeSlots())
  }

  ghost function Stashes<V(!new)>(shards: seq<ObliviousHistogram<V>>): (r: seq<seq<Block<V>>>)
    reads Owned(shards)
    reads set i | 0 <= i < |shards| :: shards[i]
    reads set i | 0 <= i < |shards| :: shards[i].stash
    ensures |r| == |shards|
  {
    seq(|shards|, i requires 0 <= i < |shards| reads Owned(shards), (set i | 0 <= i < |shards| :: shards[i]),
        (set i | 0 <= i < |shards| :: shards[i].stash)
                  => shards[i].StashSlots())
  }

  ghost function Feet<V(!new)>(shards: seq<ObliviousHistogram<V>>): (r: seq<set<object>>)
    reads set i | 0 <= i < |shards| :: shards[i]
    reads set i | 0 <= i < |shards| :: shards[i].stash
    ensures |r| == |shards|
  {
    seq(|shards|, i requires 0 <= i < |shards| reads (set i | 0 <= i < |shards| :: shards[i]),
        (set i | 0 <= i < |shards| :: shards[i].stash)
                  => shards[i].Footprint())
  }

  lemma OwnerOf<V(!new)>(shards: seq<ObliviousHistogram<V>>, o: object) returns (s: nat)
    requires o in Owned(shards)
    ensures s < |shards| && o in shards[s].Footprint()
  {
    s :| s < |shards| && o in shards[s].Footprint();
  }

  lemma FeetAre<V(!new)>(shards: seq<ObliviousHistogram<V>>)
    ensures forall s :: 0 <= s < |shards| ==> Feet(shards)[s] == shards[s].Footprint()
  {
  }

  ghost function Union(feet: seq<set<object>>): set<object> { set i, o | 0 <= i < |feet| && o in feet[i] :: o }

  lemma OwnedIs<V(!new)>(shards: seq<ObliviousHistogram<V>>)
    ensures Owned(shards) == Union(Feet(shards))
  {
    FeetAre(shards);
    forall o | o in Owned(shards) ensures o in Union(Feet(shards)) {
      var i :| 0 <= i < |shards| && o in shards[i].Footprint();
      assert o in Feet(shards)[i];
    }
    forall o | o in Union(Feet(shards)) ensures o in Owned(shards) {
      var i :| 0 <= i < |shards| && o in Feet(shards)[i];
    }
  }

  /** When one shard has taken objects no other shard had, the shards are still apart. */
  lemma StillApart<V(!new)>(shards: seq<ObliviousHistogram<V>>, feet: seq<set<object>>, s: nat)
    requires |feet| == |shards| && s < |shards| && forall i, j :: 0 <= i < j < |feet| ==> feet[i] !! feet[j]
    requires forall i :: 0 <= i < |shards| && i != s ==>
              shards[i].Footprint() == feet[i] && (shards[s].Footprint() - feet[s]) !! feet[i]
    ensures Apart(shards)
  {
    forall i, j | 0 <= i < j < |shards| ensures shards[i].Footprint() !! shards[j].Footprint() {
      assert feet[i] !! feet[j];
    }
  }

  /** Two shards own different objects. */
  ghost predicate Strangers<V(!new)>(a: ObliviousHistogram<V>, b: ObliviousHistogram<V>)
    reads a, a.stash, b, b.stash
  {
    && a != b && a.stash != b.stash
    && a.physicalMemory != b.physicalMemory && a.physicalMemory != b.stash.blocks
    && a.stash.blocks != b.physicalMemory && a.stash.blocks != b.stash.blocks
  }

  lemma StrangersOf<V(!new)>(shards: seq<ObliviousHistogram<V>>, s: nat)
    requires Apart(shards) && s < |shards|
    ensures forall i :: 0 <= i < |shards| && i != s ==> Strangers(shards[i], shards[s])
  {
    forall i | 0 <= i < |shards| && i != s ensures Strangers(shards[i], shards[s]) {
      assert shards[i].Footprint() !! shards[s].Footprint();
      var a, b := shards[i], shards[s];
      assert a in a.Footprint() && a.stash in a.Footprint();
      assert a.physicalMemory in a.Footprint() && a.stash.blocks in a.Footprint();
      assert b in b.Footprint() && b.stash in b.Footprint();
      assert b.physicalMemory in b.Footprint() && b.stash.blocks in b.Footprint();
    }
  }

  /** A shard takes its column and stays a shard of its row. */
  method FeedOwn<V(!new)>(shard: ObliviousHistogram<V>, s: nat, count: nat, rs: seq<seq<Block<V>>>, q: nat,
                          ghost cfg: Config<V>, ghost height: nat, ghost ids: Ids)
      returns (ok: bool)
    requires IsPowerOfTwo(count) && ShardOk(shard, s, count, cfg, height, ids)
    requires forall f :: 0 <= f < |rs| ==> Slots(s, q) + q <= |rs[f]|
    requires Known(Column(rs, q, s, |rs|), ids) && Known(Column(rs, q, s, |rs|), ShardIds(s, count))
    modifies shard.Footprint()
    ensures ok ==> ShardOk(shard, s, count, cfg, height, ids) && fresh(shard.Footprint() - old(shard.Footprint()))
    ensures ok ==> Fed(shard, old(shard.TreeSlots()), old(shard.StashSlots()), AsUpdates(Column(rs, q, s, |rs|)))
    ensures ok ==> HasMoved(shard, Feed(rs, q), s, old(shard.Snapshot()))
    ensures Fits(old(shard.TreeSlots()), old(shard.StashSlots()), AsUpdates(Column(rs, q, s, |rs|)), cfg.s) ==> ok
  {
    hide Absorbed, WellFormed, Lawful, Slots, Known, ShardIds, IsPowerOfTwo, Ticking, Load, EffectiveCount, Column,
         FeedRun;
    ghost var mem, stash := shard.TreeSlots(), shard.StashSlots();
    ok := FeedShard(shard, rs, q, s);
    if ok {
      FedKnows(shard, mem, stash, Column(rs, q, s, |rs|), ids);
      FedKnows(shard, mem, stash, Column(rs, q, s, |rs|), ShardIds(s, count));
    }
  }

  /** Shard `s` takes its slots from every frontend; the other shards are left alone. */
  method FeedOne<V(!new)>(shards: seq<ObliviousHistogram<V>>, s: nat, rs: seq<seq<Block<V>>>, q: nat,
                          ghost cfg: Config<V>, ghost heights: seq<nat>, ghost ids: Ids)
      returns (ok: bool)
    requires Sound(shards, cfg, heights, ids) && s < |shards|
    requires forall f :: 0 <= f < |rs| ==> Slots(s, q) + q <= |rs[f]|
    requires Known(Column(rs, q, s, |rs|), ids) && Known(Column(rs, q, s, |rs|), ShardIds(s, |shards|))
    modifies shards[s].Footprint()
    ensures ok ==> Sound(shards, cfg, heights, ids) && fresh(shards[s].Footprint() - old(shards[s].Footprint()))
    ensures ok ==>
              Fed(shards[s], old(shards[s].TreeSlots()), old(shards[s].StashSlots()), AsUpdates(Column(rs, q, s, |rs|)))
    ensures ok ==> HasMoved(shards[s], Feed(rs, q), s, old(shards[s].Snapshot()))
    ensures ok ==> forall i :: 0 <= i < |shards| && i != s ==> shards[i].Footprint() == old(shards[i].Footprint())
    ensures ok ==> forall i :: 0 <= i < |shards| && i != s ==>
              Untouched(shards[i], old(shards[i].Snapshot()))
    ensures Fits(old(shards[s].TreeSlots()), old(shards[s].StashSlots()), AsUpdates(Column(rs, q, s, |rs|)), cfg.s)
            ==> ok
  {
    hide Absorbed, Slots, Known, ShardIds, IsPowerOfTwo, ShardOk, AsUpdates, Column, Fed, Fits, Moved;
    ghost var feet := Feet(shards);
    StrangersOf(shards, s);
    ok := FeedOwn(shards[s], s, |shards|, rs, q, cfg, heights[s], ids);
    if ok {
      forall i | 0 <= i < |shards| && i != s
        ensures ShardOk(shards[i], i, |shards|, cfg, heights[i], ids) && shards[i].Footprint() == feet[i]
        ensures Untouched(shards[i], old(shards[i].Snapshot()))
      {
        assert old(Strangers(shards[i], shards[s])) && old(ShardOk(shards[i], i, |shards|, cfg, heights[i], ids));
      }
      StillApart(shards, feet, s);
    }
  }

  /** Every shard takes its slots from every frontend. */
  method DispatchAll<V(!new)>(shards: seq<ObliviousHistogram<V>>, rs: seq<seq<Block<V>>>, q: nat, ghost cfg: Config<V>,
                              ghost heights: seq<nat>, ghost ids: Ids, ghost states: seq<State<V>>)
      returns (ok: bool)
    requires Sound(shards, cfg, heights, ids) && states == States(shards)
    requires forall f :: 0 <= f < |rs| ==> |rs[f]| == Slots(|shards|, q)
    requires forall s :: 0 <= s < |shards| ==>
              Known(Column(rs, q, s, |rs|), ids) && Known(Column(rs, q, s, |rs|), ShardIds(s, |shards|))
    modifies Owned(shards)
    ensures ok ==> Sound(shards, cfg, heights, ids) && forall s :: 0 <= s < |shards| ==>
              fresh(shards[s].Footprint() - old(shards[s].Footprint()))
    ensures ok ==> forall s :: 0 <= s < |shards| ==>
              Fed(shards[s], states[s].mem, states[s].stash, AsUpdates(Column(rs, q, s, |rs|)))
    ensures ok ==> AllMoved(cfg, Oracles(shards), Feed(rs, q), states, States(shards))
    ensures (forall s :: 0 <= s < |shards| ==>
               Fits(states[s].mem, states[s].stash, AsUpdates(Column(rs, q, s, |rs|)), cfg.s)) ==> ok
  {
    hide Sound, Slots, Known, ShardIds, IsPowerOfTwo, Absorbed, Owned, Column, AsUpdates, Fits, Load,
         EffectiveCount, AllMoved, Moved, States;
    ghost var feet := Feet(shards);
    StatesAre(shards);
    OwnsShards(shards);
    for s := 0 to |shards|
      invariant Sound(shards, cfg, heights, ids)
      invariant forall i :: 0 <= i < |shards| ==> fresh(shards[i].Footprint() - feet[i])
      invariant forall i :: 0 <= i < s ==>
                  Fed(shards[i], states[i].mem, states[i].stash, AsUpdates(Column(rs, q, i, |rs|)))
      invariant forall i :: 0 <= i < s ==> HasMoved(shards[i], Feed(rs, q), i, states[i])
      invariant forall i :: s <= i < |shards| ==> Untouched(shards[i], states[i])
    {
      SlotsMonotone(s, |shards|, q);
      ok := FeedOne(shards, s, rs, q, cfg, heights, ids);
      if !ok {
        return;
      }
    }
    ok := true;
    EachMoved(shards, cfg, heights, ids, Feed(rs, q), states);
  }

  lemma EachMoved<V(!new)>(shards: seq<ObliviousHistogram<V>>, cfg: Config<V>, heights: seq<nat>, ids: Ids,
                           move: Move<V>, states: seq<State<V>>)
    requires Sound(shards, cfg, heights, ids) && |states| == |shards|
    requires forall s :: 0 <= s < |shards| ==> HasMoved(shards[s], move, s, states[s])
    ensures AllMoved(cfg, Oracles(shards), move, states, States(shards))
  {
    hide Moved, IsPowerOfTwo, WellFormed, Lawful, Known, ShardIds;
    var oracles, after := Oracles(shards), States(shards);
    forall s | 0 <= s < |shards| ensures Moved(cfg, oracles[s], move, s, states[s], after[s]) {
      assert ShardOk(shards[s], s, |shards|, cfg, heights[s], ids) && HasMoved(shards[s], move, s, states[s]);
    }
  }

  // ---- Growing all shards -----------------------------------------------------------------------------------------

  /** One shard grows, at once or on the coordinator's signal. */
  method GrowOwn<V(!new)>(shard: ObliviousHistogram<V>, s: nat, count: nat, onSignal: bool, ghost cfg: Config<V>,
                          ghost height: nat, ghost ids: Ids)
      returns (ok: bool)
    requires IsPowerOfTwo(count) && ShardOk(shard, s, count, cfg, height, ids)
    modifies shard.Footprint()
    ensures ok ==> ShardOk(shard, s, count, cfg, height + 1, ids) && fresh(shard.Footprint() - old(shard.Footprint()))
    ensures ok ==> Fed(shard, old(shard.TreeSlots()), old(shard.StashSlots()), AsUpdates([]))
    ensures ok ==> HasMoved(shard, Rise(onSignal), s, old(shard.Snapshot()))
    ensures ok ==> height < MAX_TREE_HEIGHT
    ensures height < MAX_TREE_HEIGHT && onSignal ==> ok
    ensures height < MAX_TREE_HEIGHT && Fits(old(shard.TreeSlots()), old(shard.StashSlots()), [], cfg.s) ==> ok
  {
    hide Absorbed, WellFormed, Lawful, Slots, Known, ShardIds, IsPowerOfTwo, Load, GrowStep;
    ghost var mem, stash := shard.TreeSlots(), shard.StashSlots();
    if onSignal {
      ok := shard.ApplyDeferredAutoResizeGrow();
    } else {
      ok := shard.Grow();
    }
    if ok {
      NothingToFeed<V>();
      FedKnows(shard, mem, stash, [], ids);
      FedKnows(shard, mem, stash, [], ShardIds(s, count));
    }
  }

  lemma NothingToFeed<V>()
    ensures AsUpdates<V>([]) == [] && EffectiveCount<V>([]) == 0 && forall ids :: Known<V>([], ids)
  {
  }

  method GrowOne<V(!new)>(shards: seq<ObliviousHistogram<V>>, s: nat, onSignal: bool, ghost cfg: Config<V>,
                          ghost heights: seq<nat>, ghost ids: Ids)
      returns (ok: bool)
    requires Sound(shards, cfg, heights, ids) && s < |shards|
    modifies shards[s].Footprint()
    ensures |heights| == |shards|
    ensures ok ==> Sound(shards, cfg, heights[s := heights[s] + 1], ids)
    ensures ok ==> fresh(shards[s].Footprint() - old(shards[s].Footprint()))
    ensures ok ==> Fed(shards[s], old(shards[s].TreeSlots()), old(shards[s].StashSlots()), AsUpdates([]))
    ensures ok ==> HasMoved(shards[s], Rise(onSignal), s, old(shards[s].Snapshot()))
    ensures ok ==> forall i :: 0 <= i < |shards| && i != s ==> shards[i].Footprint() == old(shards[i].Footprint())
    ensures ok ==> forall i :: 0 <= i < |shards| && i != s ==>
              Untouched(shards[i], old(shards[i].Snapshot()))
    ensures ok ==> heights[s] < MAX_TREE_HEIGHT
    ensures heights[s] < MAX_TREE_HEIGHT && onSignal ==> ok
    ensures (heights[s] < MAX_TREE_HEIGHT && Fits(old(shards[s].TreeSlots()), old(shards[s].StashSlots()), [], cfg.s)
             ==> ok)
  {
    hide Absorbed, Slots, Known, ShardIds, IsPowerOfTwo, ShardOk, AsUpdates, Fed, Fits, Moved;
    ghost var feet := Feet(shards);
    StrangersOf(shards, s);
    ok := GrowOwn(shards[s], s, |shards|, onSignal, cfg, heights[s], ids);
    if ok {
      forall i | 0 <= i < |shards| && i != s
        ensures ShardOk(shards[i], i, |shards|, cfg, heights[i], ids) && shards[i].Footprint() == feet[i]
        ensures Untouched(shards[i], old(shards[i].Snapshot()))
      {
        assert old(Strangers(shards[i], shards[s])) && old(ShardOk(shards[i], i, |shards|, cfg, heights[i], ids));
      }
      StillApart(shards, feet, s);
    }
  }

  /** The heights when the first `s` of `n` shards have grown. */
  ghost function HeightsUpTo(n: nat, s: nat, height: nat): seq<nat> {
    seq(n, i => if i < s then height + 1 else height)
  }

  lemma HeightsEnds(n: nat, height: nat)
    ensures HeightsUpTo(n, 0, height) == seq(n, _ => height) && HeightsUpTo(n, n, height) == seq(n, _ => height + 1)
  {
  }

  lemma HeightsNext(n: nat, s: nat, height: nat)
    requires s < n
    ensures |HeightsUpTo(n, s, height)| == n && HeightsUpTo(n, s, height)[s] == height
    ensures HeightsUpTo(n, s, height)[s := height + 1] == HeightsUpTo(n, s + 1, height)
  {
  }

  /** The first `s` shards have grown, and the others are as they were. */
  ghost predicate HalfGrown<V(!new)>(shards: seq<ObliviousHistogram<V>>, s: nat, onSignal: bool, cfg: Config<V>,
                                     height: nat, ids: Ids, states: seq<State<V>>)
    reads Owned(shards)
    reads set i | 0 <= i < |shards| :: shards[i]
    reads set i | 0 <= i < |shards| :: shards[i].stash
  {
    && |states| == |shards| && Sound(shards, cfg, HeightsUpTo(|shards|, s, height), ids)
    && (forall i :: 0 <= i < |shards| && i < s ==> Fed(shards[i], states[i].mem, states[i].stash, AsUpdates([])))
    && (forall i :: 0 <= i < |shards| && i < s ==> HasMoved(shards[i], Rise(onSignal), i, states[i]))
    && (forall i :: s <= i < |shards| ==> Untouched(shards[i], states[i]))
    && (s > 0 ==> height < MAX_TREE_HEIGHT)
  }

  method GrowNext<V(!new)>(shards: seq<ObliviousHistogram<V>>, s: nat, onSignal: bool, ghost cfg: Config<V>,
                           ghost height: nat, ghost ids: Ids, ghost states: seq<State<V>>)
      returns (ok: bool)
    requires HalfGrown(shards, s, onSignal, cfg, height, ids, states) && s < |shards|
    modifies shards[s].Footprint()
    ensures ok ==> HalfGrown(shards, s + 1, onSignal, cfg, height, ids, states)
    ensures ok ==> fresh(shards[s].Footprint() - old(shards[s].Footprint()))
    ensures ok ==> forall i :: 0 <= i < |shards| && i != s ==> shards[i].Footprint() == old(shards[i].Footprint())
    ensures height < MAX_TREE_HEIGHT && (onSignal || EachFits(states, cfg.s)) ==> ok
  {
    hide Sound, Slots, Absorbed, Owned, AsUpdates, HeightsUpTo, Fits, Load, EffectiveCount, Moved;
    HeightsNext(|shards|, s, height);
    assert Untouched(shards[s], states[s]);
    ok := GrowOne(shards, s, onSignal, cfg, HeightsUpTo(|shards|, s, height), ids);
  }

  lemma NoneGrown<V(!new)>(shards: seq<ObliviousHistogram<V>>, onSignal: bool, cfg: Config<V>, height: nat, ids: Ids)
    requires Sound(shards, cfg, seq(|shards|, _ => height), ids)
    ensures HalfGrown(shards, 0, onSignal, cfg, height, ids, States(shards))
  {
    hide Sound, HeightsUpTo;
    HeightsEnds(|shards|, height);
  }

  lemma AllGrown<V(!new)>(shards: seq<ObliviousHistogram<V>>, onSignal: bool, cfg: Config<V>, height: nat, ids: Ids,
                          states: seq<State<V>>)
    requires HalfGrown(shards, |shards|, onSignal, cfg, height, ids, states)
    ensures |states| == |shards| && Sound(shards, cfg, seq(|shards|, _ => height + 1), ids)
    ensures forall s :: 0 <= s < |shards| ==> Fed(shards[s], states[s].mem, states[s].stash, AsUpdates([]))
    ensures AllMoved(cfg, Oracles(shards), Rise(onSignal), states, States(shards))
    ensures shards != [] ==> height < MAX_TREE_HEIGHT
  {
    hide Sound, HeightsUpTo, Fed, Moved, AllMoved;
    HeightsEnds(|shards|, height);
    EachMoved(shards, cfg, HeightsUpTo(|shards|, |shards|, height), ids, Rise(onSignal), states);
  }

  /** All shards grow by a level. */
  method GrowAll<V(!new)>(shards: seq<ObliviousHistogram<V>>, onSignal: bool, ghost cfg: Config<V>, ghost height: nat,
                          ghost ids: Ids, ghost states: seq<State<V>>)
      returns (ok: bool)
    requires Sound(shards, cfg, seq(|shards|, _ => height), ids) && states == States(shards)
    modifies Owned(shards)
    ensures ok ==> Sound(shards, cfg, seq(|shards|, _ => height + 1), ids)
    ensures ok ==> forall s :: 0 <= s < |shards| ==> fresh(shards[s].Footprint() - old(shards[s].Footprint()))
    ensures ok ==> forall s :: 0 <= s < |shards| ==>
              Fed(shards[s], states[s].mem, states[s].stash, AsUpdates([]))
    ensures ok ==> AllMoved(cfg, Oracles(shards), Rise(onSignal), states, States(shards))
    ensures ok && shards != [] ==> height < MAX_TREE_HEIGHT
    ensures height < MAX_TREE_HEIGHT && onSignal ==> ok
    ensures height < MAX_TREE_HEIGHT && EachFits(states, cfg.s) ==> ok
  {
    hide Sound, Owned, HalfGrown, AllMoved, Moved, Fed, States, EachFits;
    ghost var feet := Feet(shards);
    OwnsShards(shards);
    NoneGrown(shards, onSignal, cfg, height, ids);
    for s := 0 to |shards|
      invariant HalfGrown(shards, s, onSignal, cfg, height, ids, states)
      invariant forall i :: 0 <= i < |shards| ==> fresh(shards[i].Footprint() - feet[i])
    {
      ok := GrowNext(shards, s, onSignal, cfg, height, ids, states);
      if !ok {
        return;
      }
    }
    ok := true;
    AllGrown(shards, onSignal, cfg, height, ids, states);
  }

  // ---- The coordinator's signal ---------------------------------------------------------------------------

  /** Changing one shard's auto-resize state, but not whether it grows alone, keeps the row sound. */
  lemma StillSound<V(!new)>(shards: seq<ObliviousHistogram<V>>, feet: seq<set<object>>, cfg: Config<V>,
                            heights: seq<nat>, ids: Ids)
    requires IsPowerOfTwo(|shards|) && |shards| <= MAX_SHARDS && |heights| == |shards| == |feet|
    requires forall i :: 0 <= i < |shards| ==>
              ShardOk(shards[i], i, |shards|, cfg, heights[i], ids) && shards[i].Footprint() == feet[i]
    requires forall i, j :: 0 <= i < j < |shards| ==> feet[i] !! feet[j]
    ensures Sound(shards, cfg, heights, ids)
  {
    hide ShardOk, IsPowerOfTwo;
  }

  /** `take_deferred_auto_resize_signal` on the first shard. */
  method TakeSignal<V(!new)>(shards: seq<ObliviousHistogram<V>>, ghost cfg: Config<V>, ghost heights: seq<nat>,
                             ghost ids: Ids)
      returns (signal: Option<nat>)
    requires Sound(shards, cfg, heights, ids)
    modifies shards[0]
    ensures |shards| >= 1
    ensures signal == if old(shards[0].autoResize).None? then None else old(shards[0].autoResize).value.pendingGrow
    ensures Sound(shards, cfg, heights, ids) && Feet(shards) == old(Feet(shards))
    ensures Mems(shards) == old(Mems(shards)) && Stashes(shards) == old(Stashes(shards))
    ensures States(shards) == SignalTaken(old(States(shards)))
  {
    hide WellFormed, Known, ShardIds, Lawful, Slots, SignalTaken;
    ghost var feet, states := Feet(shards), States(shards);
    StrangersOf(shards, 0);
    assert ShardOk(shards[0], 0, |shards|, cfg, heights[0], ids);
    signal := shards[0].TakeDeferredAutoResizeSignal();
    forall i | 0 <= i < |shards|
      ensures ShardOk(shards[i], i, |shards|, cfg, heights[i], ids)
      ensures i != 0 ==> shards[i].Snapshot() == states[i]
    {
      assert old(ShardOk(shards[i], i, |shards|, cfg, heights[i], ids));
      if i != 0 { assert old(Strangers(shards[i], shards[0])); }
    }
    StillSound(shards, feet, cfg, heights, ids);
    FirstSignalTaken(shards, states);
  }

  lemma FirstSignalTaken<V(!new)>(shards: seq<ObliviousHistogram<V>>, states: seq<State<V>>)
    requires |states| == |shards| && shards != []
    requires forall i :: 0 < i < |shards| ==> shards[i].Snapshot() == states[i]
    requires shards[0].Snapshot()
          == states[0].(auto := if states[0].auto.None? then None
                                else Some(states[0].auto.value.(pendingGrow := None)))
    ensures States(shards) == SignalTaken(states)
  {
  }

  /** The state with a deferred estimator just set up, with or without signals. */
  ghost function ConfiguredTo<V>(state: State<V>, oracle: Oracle, tCapacity: nat, z: nat, height: nat,
                                 emitsGrowSignal: bool): State<V>
  {
    state.(auto := Some(Configured(oracle, tCapacity, z, height, true, emitsGrowSignal)))
  }

  method ConfigureOne<V(!new)>(shards: seq<ObliviousHistogram<V>>, s: nat, tCapacity: nat, ghost cfg: Config<V>,
                               ghost heights: seq<nat>, ghost ids: Ids)
    requires Sound(shards, cfg, heights, ids) && s < |shards|
    modifies shards[s]
    ensures Sound(shards, cfg, heights, ids) && Feet(shards) == old(Feet(shards))
    ensures Mems(shards) == old(Mems(shards)) && Stashes(shards) == old(Stashes(shards))
    ensures |heights| == |shards|
    ensures States(shards) == old(States(shards))[s := ConfiguredTo(old(States(shards))[s], shards[s].oracle, tCapacity,
                                                                    cfg.z, heights[s], s == 0)]
  {
    hide WellFormed, Known, ShardIds, Lawful, Slots;
    ghost var feet := Feet(shards);
    StrangersOf(shards, s);
    assert ShardOk(shards[s], s, |shards|, cfg, heights[s], ids);
    shards[s].ConfigureAutoResize(tCapacity, true, s == 0);
    forall i | 0 <= i < |shards|
      ensures ShardOk(shards[i], i, |shards|, cfg, heights[i], ids)
      ensures i != s ==> shards[i].Snapshot() == old(shards[i].Snapshot())
    {
      assert old(ShardOk(shards[i], i, |shards|, cfg, heights[i], ids));
      if i != s { assert old(Strangers(shards[i], shards[s])); }
    }
    StillSound(shards, feet, cfg, heights, ids);
  }

  /** Every shard runs the estimator, deferred; only the first one gives signals. */
  method ConfigureAll<V(!new)>(shards: seq<ObliviousHistogram<V>>, tCapacity: nat, ghost cfg: Config<V>,
                               ghost heights: seq<nat>, ghost ids: Ids)
    requires Sound(shards, cfg, heights, ids)
    modifies Owned(shards)
    ensures Sound(shards, cfg, heights, ids) && Feet(shards) == old(Feet(shards))
    ensures Mems(shards) == old(Mems(shards)) && Stashes(shards) == old(Stashes(shards))
    ensures |heights| == |shards|
    ensures forall s :: 0 <= s < |shards| ==>
              States(shards)[s] == ConfiguredTo(old(States(shards))[s], shards[s].oracle, tCapacity, cfg.z, heights[s],
                                                s == 0)
  {
    hide Sound, Owned;
    OwnsShards(shards);
    SoundLength(shards, cfg, heights, ids);
    ghost var mems, stashes, states, feet := Mems(shards), Stashes(shards), States(shards), Feet(shards);
    for s := 0 to |shards|
      invariant Sound(shards, cfg, heights, ids) && Feet(shards) == feet && Mems(shards) == mems
      invariant Stashes(shards) == stashes
      invariant forall i :: 0 <= i < s ==>
                  States(shards)[i] == ConfiguredTo(states[i], shards[i].oracle, tCapacity, cfg.z, heights[i], i == 0)
      invariant forall i :: s <= i < |shards| ==> States(shards)[i] == states[i]
    {
      assert feet[s] == shards[s].Footprint();
      ConfigureOne(shards, s, tCapacity, cfg, heights, ids);
    }
  }

  lemma SoundLength<V(!new)>(shards: seq<ObliviousHistogram<V>>, cfg: Config<V>, heights: seq<nat>, ids: Ids)
    requires Sound(shards, cfg, heights, ids)
    ensures |heights| == |shards|
  {
  }

  // ---- Reading across all shards --------------------------------------------------------------------------

  /**
    What a read leaves in a shard: only the target's total of the key may have changed; if the
    key has one tag nothing of it is left, and if it is unambiguous the result is what it held.
    No other key comes or goes, and no blocks are added.
   */
  ghost predicate ReadSeqs<V(!new)>(m: Values<V>, mem: seq<Block<V>>, stash: seq<Block<V>>, mem': seq<Block<V>>,
                                    stash': seq<Block<V>>, isTarget: bool, ids: Ids, tag: Tag, payload: Payload,
                                    result: V)
  {
    && (forall p :: p != payload || !isTarget ==>
          StateTotal(m, mem', stash', p) == StateTotal(m, mem, stash, p)
          && (Stored(mem', stash', p) <==> Stored(mem, stash, p)))
    && (isTarget && OneTag(ids, tag, payload) ==>
          StateTotal(m, mem', stash', payload) == m.zero && !Stored(mem', stash', payload))
    && Load(mem', stash') <= Load(mem, stash)
    && (isTarget && Unambiguous(ids, tag, payload) ==> result == StateTotal(m, mem, stash, payload))
  }

  /** Which value a read returns does not matter to the other shards. */
  lemma OtherResult<V(!new)>(m: Values<V>, mem: seq<Block<V>>, stash: seq<Block<V>>, mem': seq<Block<V>>,
                             stash': seq<Block<V>>, ids: Ids, tag: Tag, payload: Payload, one: V, two: V)
    requires ReadSeqs(m, mem, stash, mem', stash', false, ids, tag, payload, one)
    ensures ReadSeqs(m, mem, stash, mem', stash', false, ids, tag, payload, two)
  {
    hide StateTotal, Stored, Load, OneTag, Unambiguous;
  }

  ghost predicate ReadFrom<V(!new)>(shard: ObliviousHistogram<V>, mem: seq<Block<V>>, stash: seq<Block<V>>,
                                    isTarget: bool, ids: Ids, tag: Tag, payload: Payload, result: V)
    reads shard.Footprint(), shard, shard.stash
  {
    ReadSeqs(shard.cfg.values, mem, stash, shard.TreeSlots(), shard.StashSlots(), isTarget, ids, tag, payload, result)
  }

  /** What a read leaves in a shard, path and all. */
  ghost predicate Visited<V(!new)>(shard: ObliviousHistogram<V>, isTarget: bool, tag: Tag, payload: Payload, index: nat,
                                   before: State<V>)
    reads shard.Footprint(), shard, shard.stash
  {
    var h := before.c.height;
    && Sane(shard.cfg, before)
    && if isTarget then PathStep(shard.cfg, before, AddressToLeaf(tag, h), Some(payload), shard.Snapshot())
       else PathStep(shard.cfg, before, Pow2(h) + index % Pow2(h), None, shard.Snapshot())
  }

  method AccessOwn<V(!new)>(shard: ObliviousHistogram<V>, s: nat, count: nat, isTarget: bool, tag: Tag,
                            payload: Payload, index: nat, before: V, ghost cfg: Config<V>, ghost height: nat,
                            ghost ids: Ids)
      returns (ok: bool, result: V)
    requires IsPowerOfTwo(count) && ShardOk(shard, s, count, cfg, height, ids)
    modifies shard.Footprint()
    ensures ok ==> ShardOk(shard, s, count, cfg, height, ids) && shard.Footprint() == old(shard.Footprint())
    ensures ok ==> ReadFrom(shard, old(shard.TreeSlots()), old(shard.StashSlots()), isTarget, ids, tag, payload, result)
    ensures ok ==> Visited(shard, isTarget, tag, payload, index, old(shard.Snapshot()))
    ensures !isTarget ==> result == before
    ensures Fits(old(shard.TreeSlots()), old(shard.StashSlots()), [], cfg.s) ==> ok
  {
    hide WellFormed, Lawful, Slots, Known, ShardIds, IsPowerOfTwo, Unambiguous, OneTag, Accessed, StateTotal,
         LastMatch, Merged, CanAccess, WrittenBack, Stored, Load, PathStep;
    ghost var mem, stash := shard.TreeSlots(), shard.StashSlots();
    result := before;
    if isTarget {
      ok, result := shard.ReadPreparedTotal(tag, payload);
      if ok {
        ReadKnows(mem, stash, shard.TreeSlots(), shard.StashSlots(), cfg, height, AddressToLeaf(tag, height), payload);
        forall p | p != payload
          ensures StateTotal(cfg.values, shard.TreeSlots(), shard.StashSlots(), p)
               == StateTotal(cfg.values, mem, stash, p)
          ensures Stored(shard.TreeSlots(), shard.StashSlots(), p) <==> Stored(mem, stash, p)
        {
          assert shard.SumOf(p) == old(shard.SumOf(p)) && shard.Stores(p) == old(shard.Stores(p));
        }
      }
    } else {
      ok := shard.ReadDummy(index % Pow2(shard.height));
      if ok {
        DummyKnows(shard.cfg.values, mem, stash, shard.TreeSlots(), shard.StashSlots());
      }
    }
  }

  lemma ReadKnows<V(!new)>(mem: seq<Block<V>>, stash: seq<Block<V>>, mem': seq<Block<V>>, stash': seq<Block<V>>,
                           cfg: Config<V>, height: nat, leaf: nat, payload: Payload)
    requires height <= MAX_TREE_HEIGHT && LeafAt(leaf, height) && WellFormed(mem, stash, cfg, height)
    requires Accessed(mem, stash, mem', stash', cfg, height, leaf, Some(payload))
    ensures forall ids :: Known(mem, ids) && Known(stash, ids) ==> Known(mem', ids) && Known(stash', ids)
  {
    hide WellFormed, Known, StateTotal, Elsewhere;
  }

  lemma DummyKnows<V(!new)>(m: Values<V>, mem: seq<Block<V>>, stash: seq<Block<V>>, mem': seq<Block<V>>,
                            stash': seq<Block<V>>)
    requires Lawful(m) && Absorbed(m, mem, stash, mem', stash', [])
    ensures forall ids :: Known(mem, ids) && Known(stash, ids) ==> Known(mem', ids) && Known(stash', ids)
    ensures forall p :: StateTotal(m, mem', stash', p) == StateTotal(m, mem, stash, p)
    ensures forall p :: Stored(mem', stash', p) <==> Stored(mem, stash, p)
  {
    hide Known, StateTotal, Lawful, UpdatesTotal, Stored;
    forall p ensures StateTotal(m, mem', stash', p) == StateTotal(m, mem, stash, p) {
      NoUpdates(m, StateTotal(m, mem, stash, p), p);
    }
  }

  method AccessOne<V(!new)>(shards: seq<ObliviousHistogram<V>>, s: nat, isTarget: bool, tag: Tag, payload: Payload,
                            index: nat, before: V, ghost cfg: Config<V>, ghost heights: seq<nat>, ghost ids: Ids)
      returns (ok: bool, result: V)
    requires Sound(shards, cfg, heights, ids) && s < |shards|
    modifies shards[s].Footprint()
    ensures ok ==> Sound(shards, cfg, heights, ids) && Feet(shards) == old(Feet(shards))
    ensures ok ==> ReadFrom(shards[s], old(shards[s].TreeSlots()), old(shards[s].StashSlots()), isTarget, ids, tag,
                            payload, result)
    ensures ok ==> Visited(shards[s], isTarget, tag, payload, index, old(shards[s].Snapshot()))
    ensures !isTarget ==> result == before
    ensures ok ==> forall i :: 0 <= i < |shards| && i != s ==>
              Untouched(shards[i], old(shards[i].Snapshot()))
    ensures Fits(old(shards[s].TreeSlots()), old(shards[s].StashSlots()), [], cfg.s) ==> ok
  {
    hide Absorbed, Slots, Known, ShardIds, IsPowerOfTwo, ShardOk, AsUpdates, ReadFrom, Unambiguous, OneTag, Fits,
         Visited;
    ghost var feet := Feet(shards);
    StrangersOf(shards, s);
    ok, result := AccessOwn(shards[s], s, |shards|, isTarget, tag, payload, index, before, cfg, heights[s], ids);
    if ok {
      forall i | 0 <= i < |shards| && i != s
        ensures ShardOk(shards[i], i, |shards|, cfg, heights[i], ids) && shards[i].Footprint() == feet[i]
        ensures Untouched(shards[i], old(shards[i].Snapshot()))
      {
        assert old(Strangers(shards[i], shards[s])) && old(ShardOk(shards[i], i, |shards|, cfg, heights[i], ids));
      }
      StillApart(shards, feet, s);
    }
  }

  /** The loop of `read_total`: the target shard is read, all others get a dummy read. */
  method AccessAll<V(!new)>(shards: seq<ObliviousHistogram<V>>, target: nat, tag: Tag, payload: Payload,
                            indices: nat -> nat, zero: V, ghost cfg: Config<V>, ghost heights: seq<nat>, ghost ids: Ids,
                            ghost states: seq<State<V>>)
      returns (ok: bool, result: V)
    requires Sound(shards, cfg, heights, ids) && target < |shards| && states == States(shards)
    modifies Owned(shards)
    ensures ok ==> Sound(shards, cfg, heights, ids) && Feet(shards) == old(Feet(shards))
    ensures ok ==> forall s :: 0 <= s < |shards| ==>
                     ReadFrom(shards[s], states[s].mem, states[s].stash, s == target, ids, tag, payload, result)
    ensures ok ==> AllMoved(cfg, Oracles(shards), Visit(target, tag, payload, indices), states, States(shards))
    ensures EachFits(states, cfg.s) ==> ok
  {
    hide Sound, Slots, Known, ShardIds, IsPowerOfTwo, Owned, ReadSeqs, Fits, AllMoved, PathStep, Sane, States;
    ghost var feet := Feet(shards);
    StatesAre(shards);
    OwnsShards(shards);
    result := zero;
    for s := 0 to |shards|
      invariant Sound(shards, cfg, heights, ids) && Feet(shards) == feet
      invariant forall i :: 0 <= i < s ==>
                ReadFrom(shards[i], states[i].mem, states[i].stash, i == target, ids, tag, payload, result)
      invariant forall i :: 0 <= i < s ==> Visited(shards[i], i == target, tag, payload, indices(i), states[i])
      invariant forall i :: s <= i < |shards| ==> Untouched(shards[i], states[i])
    {
      assert feet[s] == shards[s].Footprint();
      ghost var before := result;
      ok, result := AccessOne(shards, s, s == target, tag, payload, indices(s), result, cfg, heights, ids);
      if !ok {
        return;
      }
      if s == target {
        forall i | 0 <= i < s
          ensures ReadFrom(shards[i], states[i].mem, states[i].stash, false, ids, tag, payload, result)
        {
          OtherResult(shards[i].cfg.values, states[i].mem, states[i].stash, shards[i].TreeSlots(),
                      shards[i].StashSlots(), ids, tag, payload, before, result);
        }
      }
    }
    ok := true;
    EachVisited(shards, cfg, heights, ids, target, tag, payload, indices, states);
  }

  lemma EachVisited<V(!new)>(shards: seq<ObliviousHistogram<V>>, cfg: Config<V>, heights: seq<nat>, ids: Ids,
                             target: nat, tag: Tag, payload: Payload, indices: nat -> nat, states: seq<State<V>>)
    requires Sound(shards, cfg, heights, ids) && |states| == |shards|
    requires forall s :: 0 <= s < |shards| ==> Visited(shards[s], s == target, tag, payload, indices(s), states[s])
    ensures AllMoved(cfg, Oracles(shards), Visit(target, tag, payload, indices), states, States(shards))
  {
    hide Sound, PathStep, AllMoved;
    var move := Visit(target, tag, payload, indices);
    forall s | 0 <= s < |shards| ensures HasMoved(shards[s], move, s, states[s]) {
      assert Visited(shards[s], s == target, tag, payload, indices(s), states[s]);
    }
    EachMoved(shards, cfg, heights, ids, move, states);
  }

  // ---- Sums over all shards -------------------------------------------------------------------------------

  ghost function Both<V>(mems: seq<seq<Block<V>>>, stashes: seq<seq<Block<V>>>): (cs: seq<seq<Block<V>>>)
    requires |mems| == |stashes|
    ensures |cs| == |mems|
  {
    seq(|mems|, i requires 0 <= i < |mems| => mems[i] + stashes[i])
  }

  /** What all shards together hold for `p`. */
  ghost function AllSum<V>(m: Values<V>, mems: seq<seq<Block<V>>>, stashes: seq<seq<Block<V>>>, p: Payload): V
    requires |mems| == |stashes|
  {
    Total(m, Flat(Both(mems, stashes)), p)
  }

  lemma BothTotal<V(!new)>(m: Values<V>, mems: seq<seq<Block<V>>>, stashes: seq<seq<Block<V>>>, i: nat, p: Payload)
    requires Lawful(m) && i < |mems| == |stashes|
    ensures Total(m, Both(mems, stashes)[i], p) == StateTotal(m, mems[i], stashes[i], p)
  {
    hide Lawful, Total;
    TotalConcat(m, mems[i], stashes[i], p);
  }

  /** Shards that absorb their columns gain, together, the columns' total. */
  lemma FedSums<V(!new)>(m: Values<V>, mems: seq<seq<Block<V>>>, stashes: seq<seq<Block<V>>>, mems': seq<seq<Block<V>>>,
                         stashes': seq<seq<Block<V>>>, cols: seq<seq<Block<V>>>, p: Payload)
    requires Lawful(m) && |mems| == |stashes| == |mems'| == |stashes'| == |cols|
    requires forall s :: 0 <= s < |mems| ==> Absorbed(m, mems[s], stashes[s], mems'[s], stashes'[s], AsUpdates(cols[s]))
    ensures AllSum(m, mems', stashes', p) == m.plus(AllSum(m, mems, stashes, p), Total(m, Flat(cols), p))
  {
    hide Lawful, Total, StateTotal, Known, AsUpdates, UpdatesTotal, Stored, Brings;
    forall s: nat | s < |mems|
      ensures Total(m, Both(mems', stashes')[s], p) == m.plus(Total(m, Both(mems, stashes)[s], p), Total(m, cols[s], p))
    {
      BothTotal(m, mems, stashes, s, p);
      BothTotal(m, mems', stashes', s, p);
      AsUpdatesTotal(m, cols[s], p);
      assert Absorbed(m, mems[s], stashes[s], mems'[s], stashes'[s], AsUpdates(cols[s]));
    }
    FlatPlus(m, Both(mems, stashes), cols, Both(mems', stashes'), p);
  }

  lemma {:induction false} FlatOnly<V(!new)>(m: Values<V>, ss: seq<seq<Block<V>>>, t: nat, p: Payload)
    requires Lawful(m) && forall i :: 0 <= i < |ss| && i != t ==> Total(m, ss[i], p) == m.zero
    ensures Total(m, Flat(ss), p) == if t < |ss| then Total(m, ss[t], p) else m.zero
  {
    hide Lawful;
    if ss != [] {
      var n := |ss| - 1;
      FlatOnly(m, ss[..n], t, p);
      hide Total;
      TotalConcat(m, Flat(ss[..n]), ss[n], p);
      Laws(m, Total(m, ss[n], p), m.zero, m.zero);
      Laws(m, m.zero, m.zero, m.zero);
      if t < n { Laws(m, Total(m, ss[t], p), m.zero, m.zero); }
    }
  }

  /** A shard that is not the key's own holds nothing of it. */
  lemma NotItsShard<V(!new)>(m: Values<V>, mem: seq<Block<V>>, stash: seq<Block<V>>, s: nat, count: nat, ids: Ids,
                             tag: Tag, payload: Payload)
    requires Lawful(m) && IsPowerOfTwo(count) && s != ShardIndexForTag(tag, count) && OneTag(ids, tag, payload)
    requires Known(mem, ids) && Known(stash, ids) && Known(mem, ShardIds(s, count)) && Known(stash, ShardIds(s, count))
    ensures StateTotal(m, mem, stash, payload) == m.zero
  {
    hide Lawful, Total, ShardIndexForTag, IsPowerOfTwo, SameRank;
    NoneOfKey(mem, s, count, ids, tag, payload);
    NoneOfKey(stash, s, count, ids, tag, payload);
    TotalAbsent(m, mem, payload);
    TotalAbsent(m, stash, payload);
    Laws(m, m.zero, m.zero, m.zero);
  }

  lemma NoneOfKey<V>(s: seq<Block<V>>, shard: nat, count: nat, ids: Ids, tag: Tag, payload: Payload)
    requires IsPowerOfTwo(count) && shard != ShardIndexForTag(tag, count) && OneTag(ids, tag, payload)
    requires Known(s, ids) && Known(s, ShardIds(shard, count))
    ensures forall i :: 0 <= i < |s| && s[i].Real() ==> s[i].payload != payload
  {
    hide ShardIndexForTag, IsPowerOfTwo, SameRank;
    forall i | 0 <= i < |s| && s[i].Real() ensures s[i].payload != payload {
      assert (s[i].tag, s[i].payload) in ids && (s[i].tag, s[i].payload) in ShardIds(shard, count);
    }
  }

  lemma UnambiguousHasOneTag(ids: Ids, tag: Tag, payload: Payload)
    ensures Unambiguous(ids, tag, payload) ==> OneTag(ids, tag, payload)
  {
  }

  /** A read takes exactly the key's total out of the shards, and leaves every other key's. */
  lemma ReadSums<V(!new)>(m: Values<V>, mems: seq<seq<Block<V>>>, stashes: seq<seq<Block<V>>>,
                          mems': seq<seq<Block<V>>>, stashes': seq<seq<Block<V>>>, target: nat, ids: Ids, tag: Tag,
                          payload: Payload, result: V, p: Payload)
    requires Lawful(m) && |mems| == |stashes| == |mems'| == |stashes'| && IsPowerOfTwo(|mems|)
    requires target == ShardIndexForTag(tag, |mems|)
    requires forall s :: 0 <= s < |mems| ==>
               ReadSeqs(m, mems[s], stashes[s], mems'[s], stashes'[s], s == target, ids, tag, payload, result)
    requires forall s :: 0 <= s < |mems| ==>
               (Known(mems[s], ids) && Known(stashes[s], ids) && Known(mems[s], ShardIds(s, |mems|))
                && Known(stashes[s], ShardIds(s, |mems|)))
    ensures p != payload ==> AllSum(m, mems', stashes', p) == AllSum(m, mems, stashes, p)
    ensures OneTag(ids, tag, payload) ==> AllSum(m, mems', stashes', payload) == m.zero
    ensures Unambiguous(ids, tag, payload) ==> result == AllSum(m, mems, stashes, payload)
  {
    UnambiguousHasOneTag(ids, tag, payload);
    hide Lawful, Total, StateTotal, Known, ShardIndexForTag, IsPowerOfTwo, Unambiguous, OneTag, ShardIds, Stored, Load;
    var before, after := Both(mems, stashes), Both(mems', stashes');
    forall s: nat, q: Payload | s < |mems|
      ensures Total(m, before[s], q) == StateTotal(m, mems[s], stashes[s], q)
      ensures Total(m, after[s], q) == StateTotal(m, mems'[s], stashes'[s], q)
    {
      BothTotal(m, mems, stashes, s, q);
      BothTotal(m, mems', stashes', s, q);
    }
    if p != payload {
      forall s: nat | s < |mems| ensures Total(m, after[s], p) == Total(m, before[s], p) {
        assert ReadSeqs(m, mems[s], stashes[s], mems'[s], stashes'[s], s == target, ids, tag, payload, result);
      }
      FlatTotal(m, after, before, p);
    }
    if OneTag(ids, tag, payload) {
      forall s: nat | s < |mems| && s != target
        ensures Total(m, before[s], payload) == m.zero && Total(m, after[s], payload) == m.zero
      {
        NotItsShard(m, mems[s], stashes[s], s, |mems|, ids, tag, payload);
        assert ReadSeqs(m, mems[s], stashes[s], mems'[s], stashes'[s], s == target, ids, tag, payload, result);
      }
      assert ReadSeqs(m, mems[target], stashes[target], mems'[target], stashes'[target], true, ids, tag, payload,
                      result);
      FlatOnly(m, before, target, payload);
      FlatOnly(m, after, target, payload);
    }
  }

  // ---- Reading all shards out -----------------------------------------------------------------------------

  /** All shards have readouts of the same length. */
  lemma EqualLengths<V(!new)>(shards: seq<ObliviousHistogram<V>>, cfg: Config<V>, height: nat, ids: Ids, s: nat)
    requires Sound(shards, cfg, seq(|shards|, _ => height), ids) && s < |shards|
    ensures shards[s].Valid() && shards[s].cfg == cfg && shards[s].stash.pathSize <= shards[s].stash.blocks.Length
    ensures shards[s].ReadoutLen() == Slots(Pow2(height + 1), cfg.z) + cfg.s
  {
    hide Known, ShardIds, PathInvariant, Lawful;
    assert ShardOk(shards[s], s, |shards|, cfg, height, ids);
    WellFormedShape(shards[s].TreeSlots(), shards[s].StashSlots(), cfg, height);
    ShapeIs(shards[s].TreeSlots(), cfg.z, height);
  }

  /** The shards' readouts, one after the other; either way each is a readout of its shard. */
  method ReadShards<V(!new)>(shards: seq<ObliviousHistogram<V>>, treeAware: bool, ghost cfg: Config<V>,
                             ghost height: nat, ghost ids: Ids)
      returns (rows: seq<seq<Block<V>>>)
    requires Sound(shards, cfg, seq(|shards|, _ => height), ids)
    ensures |rows| == |shards|
    ensures forall s :: 0 <= s < |shards| ==> |rows[s]| == Slots(Pow2(height + 1), cfg.z) + cfg.s
    ensures forall s :: 0 <= s < |shards| ==> ReadsOut(cfg.values, Both(Mems(shards), Stashes(shards))[s], rows[s])
  {
    hide ShardOk, Slots, Pow2, ReadsOut, Owned, IsPowerOfTwo;
    rows := [];
    ghost var mems, stashes := Mems(shards), Stashes(shards);
    for s := 0 to |shards|
      invariant Sound(shards, cfg, seq(|shards|, _ => height), ids) && Mems(shards) == mems
      invariant Stashes(shards) == stashes
      invariant |rows| == s
      invariant forall i :: 0 <= i < s ==> |rows[i]| == Slots(Pow2(height + 1), cfg.z) + cfg.s
      invariant forall i :: 0 <= i < s ==> ReadsOut(cfg.values, Both(Mems(shards), Stashes(shards))[i], rows[i])
    {
      EqualLengths(shards, cfg, height, ids, s);
      assert forall i :: 0 <= i < |shards| ==> allocated(shards[i].Footprint());
      var row;
      if treeAware {
        row := shards[s].ReadoutTreeAware();
      } else {
        row := shards[s].Readout();
        AlwaysReadsOut(cfg.values, shards[s].Contents(), row[..]);
      }
      rows := rows + [row[..]];
    }
  }

  lemma AlwaysReadsOut<V(!new)>(m: Values<V>, s: seq<Block<V>>, out: seq<Block<V>>)
    requires IsReadout(m, s, out)
    ensures ReadsOut(m, s, out)
  {
    hide Total, MatchCount;
    forall p ensures Total(m, out, p) == Total(m, s, p) { assert ReadsKey(m, s, out, p); }
  }

  /** Shards share no keys, so their readouts together are a readout of everything. */
  lemma ShardsReadOut<V(!new)>(m: Values<V>, ss: seq<seq<Block<V>>>, rows: seq<seq<Block<V>>>, ids: Ids)
    requires Lawful(m) && |ss| == |rows| && IsPowerOfTwo(|ss|)
    requires forall s :: 0 <= s < |ss| ==>
              ReadsOut(m, ss[s], rows[s]) && Known(ss[s], ids) && Known(ss[s], ShardIds(s, |ss|))
    ensures forall p :: Total(m, Flat(rows), p) == Total(m, Flat(ss), p)
    ensures IdsCoherent(ids) ==> IsReadout(m, Flat(ss), Flat(rows))
  {
    hide Lawful, Known, ShardIds, IsPowerOfTwo, Total, MatchCount, IdsCoherent, ReadsKey;
    forall p ensures Total(m, Flat(rows), p) == Total(m, Flat(ss), p) {
      assert forall s :: 0 <= s < |ss| ==> ReadsOut(m, ss[s], rows[s]);
      FlatTotal(m, rows, ss, p);
    }
    if IdsCoherent(ids) {
      forall p ensures ReadsKey(m, Flat(ss), Flat(rows), p) {
        forall s | 0 <= s < |ss| ensures ReadsKey(m, ss[s], rows[s], p) { assert ReadsOut(m, ss[s], rows[s]); }
        KeysApart(ss, ids, p);
        FlatReadsKey(m, ss, rows, p);
      }
    }
  }

  lemma KeysApart<V>(ss: seq<seq<Block<V>>>, ids: Ids, p: Payload)
    requires IsPowerOfTwo(|ss|) && IdsCoherent(ids)
    requires forall s :: 0 <= s < |ss| ==> Known(ss[s], ids) && Known(ss[s], ShardIds(s, |ss|))
    ensures KeyOnce(ss, p)
  {
    hide Known, IsPowerOfTwo, MatchCount, TagOrder, ShardIndexForTag;
    forall d, e | 0 <= d < e < |ss| && MatchCount(ss[d], p) > 0 ensures MatchCount(ss[e], p) == 0 {
      if MatchCount(ss[e], p) > 0 {
        var a := TagInShard(ss[d], d, |ss|, ids, p);
        var b := TagInShard(ss[e], e, |ss|, ids, p);
        SameOrderSameShard(a, b, |ss|);
      }
    }
  }

  lemma TagInShard<V>(s: seq<Block<V>>, shard: nat, count: nat, ids: Ids, p: Payload) returns (tag: Tag)
    requires IsPowerOfTwo(count) && Known(s, ids) && Known(s, ShardIds(shard, count)) && MatchCount(s, p) > 0
    ensures (tag, p) in ids && ShardIndexForTag(tag, count) == shard
  {
    hide IsPowerOfTwo, MatchCount, ShardIndexForTag;
    CountPresent(s, p);
    var i :| 0 <= i < |s| && Matches(s[i], p);
    tag := s[i].tag;
    assert (s[i].tag, s[i].payload) in ShardIds(shard, count);
  }

  lemma SameOrderSameShard(a: Tag, b: Tag, count: nat)
    requires IsPowerOfTwo(count) && TagOrder(a) == TagOrder(b)
    ensures ShardIndexForTag(a, count) == ShardIndexForTag(b, count)
  {
    hide RoutingBits, LowBits, IsPowerOfTwo;
  }
}
