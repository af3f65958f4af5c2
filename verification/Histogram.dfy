/**
  The oblivious histogram: a tree of buckets with a stash, appended to through the stash,
  flushed by evictions along paths, read by key, and grown while in use.
 */
module Histogram {
  import opened Arithmetic
  import opened Wrappers
  import opened Blocks
  import opened Reduction
  import opened Routing
  import opened SortReduce
  import opened Tree
  import opened Layout
  import opened Stash
  import opened Access
  import opened Presence
  import opened Contents
  import opened Capacity
  import opened Clock
  import opened Steps
  import opened Resize
  import opened Crypto
  import opened OddEvenMerge
  import opened Readout
  import opened TreeReadout
  import opened Subtrees
  import opened Partition

  /** `tree_height_for_capacity`, for a bucket size that is a power of two. */
  function TreeHeightForCapacity(capacity: nat, z: nat): (h: nat)
    requires capacity >= 1 && z >= 1
    ensures h >= 1
  {
    var c, b := FloorLog(capacity), FloorLog(z);
    if c <= b + 1 then 1 else c - b
  }

  /** The leaves have room for the requested capacity rounded down to a power of two, and at least two buckets. */
  lemma CapacityOfHeight(capacity: nat, z: nat, e: nat)
    requires capacity >= 1 && z == Pow2(e)
    ensures var leaves := Pow2(TreeHeightForCapacity(capacity, z));
      if capacity < 2 * z then leaves == 2 else Slots(leaves, z) <= capacity < 2 * Slots(leaves, z)
  {
    var c, h := FloorLog(capacity), TreeHeightForCapacity(capacity, z);
    LogUnique(z, e);
    assert Pow2(1) == 2;
    if capacity < 2 * z {
      if c > e + 1 { Pow2Monotone(e + 1, c); }
    } else {
      if c < e + 1 { Pow2Monotone(c, e + 1); }
      Pow2Split(c - e, e);
    }
  }

  /** The path buffer is empty, so that leaving it out of a readout leaves nothing out. */
  lemma OverflowOnly<V>(mem: seq<Block<V>>, stash: seq<Block<V>>, cfg: Config<V>, height: nat)
    requires height <= MAX_TREE_HEIGHT && WellFormed(mem, stash, cfg, height)
    ensures Slots(height + 1, cfg.z) <= |stash| && Live(mem + stash[Slots(height + 1, cfg.z)..]) == Live(mem + stash)
  {
    hide Slots, Live, PathInvariant;
    var k := Slots(height + 1, cfg.z);
    assert stash == stash[..k] + stash[k..];
    LiveConcat(mem, stash);
    LiveConcat(mem, stash[k..]);
    LiveConcat(stash[..k], stash[k..]);
    LiveNone(stash[..k]);
  }

  lemma ReadsOutAll<V(!new)>(m: Values<V>, mem: seq<Block<V>>, overflow: seq<Block<V>>, stash: seq<Block<V>>,
                             out: seq<Block<V>>)
    requires Lawful(m) && ReadsOut(m, mem + overflow, out) && Live(mem + overflow) == Live(mem + stash)
    ensures ReadsOut(m, mem + stash, out)
  {
    hide Lawful, Total, Live, Known, IsReadout;
    forall p ensures Total(m, out, p) == Total(m, mem + stash, p) { TotalOfLive(m, mem + overflow, mem + stash, p); }
    forall ids | Known(mem + stash, ids) && IdsCoherent(ids) ensures IsReadout(m, mem + stash, out) {
      KnownSubset(mem + overflow, mem + stash, ids);
      ReadoutOfLive(m, mem + overflow, out, mem + stash, out);
    }
  }

  lemma EffectivePrefix<V>(updates: seq<Update<V>>, offset: nat, n: nat)
    requires offset + n <= |updates|
    ensures EffectiveCount(updates[..0]) == 0 && updates[..|updates|] == updates
    ensures EffectiveCount(updates[..offset + n])
         == EffectiveCount(updates[..offset]) + EffectiveCount(updates[offset..offset + n])
    ensures EffectiveCount(updates[..offset + n]) <= EffectiveCount(updates)
  {
    hide EffectiveCount;
    assert updates[..offset + n] == updates[..offset] + updates[offset..offset + n];
    EffectiveConcat(updates[..offset], updates[offset..offset + n]);
    assert updates == updates[..offset + n] + updates[offset + n..];
    EffectiveConcat(updates[..offset + n], updates[offset + n..]);
    assert updates[..0] == [];
    NoneEffective<V>();
  }

  lemma NoneEffective<V>()
    ensures EffectiveCount<V>([]) == 0
  {
  }

  class ObliviousHistogram<V(!new)> {
    const cfg: Config<V>
    const prf: Cipher
    const oracle: Oracle
    const stash: ObliviousStash<V>
    var physicalMemory: array<Block<V>>
    var height: nat
    var epoch: Byte
    var appendCtr: nat
    var evictCtr: nat
    var sweepEnd: nat
    var autoResize: Option<AutoResize>
    ghost var evictions: seq<Eviction>

    ghost function Footprint(): set<object>
      reads this, stash
    {
      {this, physicalMemory, stash, stash.blocks}
    }

    ghost function Now(): Counters
      reads this
    {
      Counters(height, epoch, appendCtr, evictCtr, sweepEnd, evictions)
    }

    ghost predicate Valid()
      reads Footprint(), this, stash
    {
      && stash.cfg == cfg && IsPowerOfTwo(cfg.z) && cfg.a >= 1 && Lawful(cfg.values)
      && physicalMemory != stash.blocks
      && Ticking(Now())
      && stash.Valid(height)
      && WellFormed(physicalMemory[..], stash.blocks[..], cfg, height)
    }

    /** The tree's slots and the stash's slots. */
    ghost function TreeSlots(): seq<Block<V>>
      reads Footprint(), this, stash
    {
      physicalMemory[..]
    }

    ghost function StashSlots(): seq<Block<V>>
      reads Footprint(), this, stash
    {
      stash.blocks[..]
    }

    ghost function Snapshot(): State<V>
      reads Footprint(), this, stash
    {
      State(physicalMemory[..], stash.blocks[..], Now(), autoResize)
    }

    /** What the histogram holds for a key: the sum over tree and stash. */
    ghost function SumOf(p: Payload): V
      reads Footprint(), this, stash
    {
      StateTotal(cfg.values, physicalMemory[..], stash.blocks[..], p)
    }

    /** Some stored block carries the key. */
    ghost predicate Stores(p: Payload)
      reads Footprint(), this, stash
    {
      Stored(TreeSlots(), StashSlots(), p)
    }

    /** The number of real blocks stored. */
    ghost function Held(): nat
      reads Footprint(), this, stash
    {
      Load(TreeSlots(), StashSlots())
    }

    /** There is room for `n` more blocks, even if every append grows the tree. */
    ghost predicate RoomFor(n: nat)
      reads Footprint(), this, stash
    {
      Held() + n < cfg.s && (!GrowsAlone(autoResize) || height + n <= MAX_TREE_HEIGHT)
    }

    /** There is room for the updates that count, even if every append grows the tree. */
    ghost predicate RoomToTake(updates: seq<Update<V>>)
      reads Footprint(), this, stash
    {
      Held() + EffectiveCount(updates) < cfg.s && (!GrowsAlone(autoResize) || height + |updates| <= MAX_TREE_HEIGHT)
    }

    /** All blocks carry keys, with tags, from `ids`. */
    ghost predicate Knows(ids: Ids)
      reads Footprint(), this, stash
    {
      Known(physicalMemory[..], ids) && Known(stash.blocks[..], ids)
    }

    constructor (blockCapacity: nat, cfg: Config<V>, prf: Cipher, oracle: Oracle)
      requires Lawful(cfg.values) && cfg.a >= 1 && IsPowerOfTwo(cfg.z) && blockCapacity >= 1
      requires TreeHeightForCapacity(blockCapacity, cfg.z) <= MAX_TREE_HEIGHT
      ensures Valid() && fresh(Footprint()) && this.cfg == cfg && this.prf == prf && this.oracle == oracle
      ensures height == TreeHeightForCapacity(blockCapacity, cfg.z) && autoResize == None
      ensures Now() == Counters(height, 0, 0, 0, 0, [])
      ensures TreeSlots() == Dummies(Slots(Pow2(height + 1), cfg.z), cfg.Dummy())
      ensures StashSlots() == Dummies(Slots(height + 1, cfg.z) + cfg.s, cfg.Dummy())
      ensures forall p :: SumOf(p) == cfg.values.zero && !Stores(p)
      ensures forall ids :: Knows(ids)
    {
      hide Stored, Slots, WellFormed, Known, StateTotal, Lawful;
      var h := TreeHeightForCapacity(blockCapacity, cfg.z);
      this.cfg, this.prf, this.oracle := cfg, prf, oracle;
      var s := new ObliviousStash<V>(cfg, Slots(h + 1, cfg.z), h);
      stash := s;
      var dummy := cfg.Dummy();
      var mem := new Block<V>[Slots(Pow2(h + 1), cfg.z)](_ => dummy);
      physicalMemory := mem;
      height, epoch, appendCtr, evictCtr, sweepEnd, autoResize, evictions := h, 0, 0, 0, 0, None, [];
      new;
      assert Shape(mem[..], cfg.z, h);
      EmptyState(mem[..], s.blocks[..], cfg, h);
    }

    // ---- Path accesses -----------------------------------------------------------------------------

    /** Reads a path into the stash and merges it with the overflow. */
    method ReadAndMerge(leaf: nat)
      requires Valid() && LeafAt(leaf, height)
      modifies stash.blocks
      ensures stash.blocks[..] == Merged(physicalMemory[..], old(stash.blocks[..]), cfg, height, leaf)
    {
      hide LeafAt, Slots, Lawful, AllDummies, Reduced, SortedByKey;
      stash.ReadFromPath(physicalMemory, leaf, height);
      stash.MergeAccumulateForPath(leaf, height);
    }

    /** Writes the stash back along the path it was merged for. */
    method WriteBack(leaf: nat, ghost mem: seq<Block<V>>, ghost before: seq<Block<V>>, ghost removed: Option<Payload>)
        returns (ok: bool)
      requires stash.cfg == cfg && Lawful(cfg.values) && physicalMemory != stash.blocks && stash.Valid(height)
      requires height <= MAX_TREE_HEIGHT && LeafAt(leaf, height) && WellFormed(mem, before, cfg, height)
      requires physicalMemory[..] == mem
      requires stash.blocks[..] == Remaining(Merged(mem, before, cfg, height, leaf), removed)
      modifies physicalMemory, stash.blocks
      ensures ok <==> CanAccess(mem, before, cfg, height, leaf, removed)
      ensures ok ==> WrittenBack(mem, before, physicalMemory[..], stash.blocks[..], cfg, height, leaf, removed)
      ensures ok ==> Accessed(mem, before, physicalMemory[..], stash.blocks[..], cfg, height, leaf, removed)
    {
      hide LeafAt, Slots, Lawful, AllDummies, Merged, Remaining, Live, LaidOut, AgreeOffPath, PathBucketIs, Accessed;
      ghost var laid: seq<Block<V>>;
      assert Shape(mem, cfg.z, height);
      ok, laid := stash.WriteToPath(physicalMemory, leaf, height);
      if ok {
        AccessDone(mem, before, stash.blocks[..], physicalMemory[..], laid, cfg, height, leaf, removed);
      }
    }

    /** One access that only moves blocks. */
    method RewritePath(leaf: nat) returns (ok: bool)
      requires Valid() && LeafAt(leaf, height)
      modifies physicalMemory, stash.blocks
      ensures ok <==> CanAccess(old(physicalMemory[..]), old(stash.blocks[..]), cfg, height, leaf, None)
      ensures ok ==>
                WrittenBack(old(physicalMemory[..]), old(stash.blocks[..]), physicalMemory[..], stash.blocks[..], cfg,
                            height, leaf, None)
      ensures ok ==> PathStep(cfg, old(Snapshot()), leaf, None, Snapshot())
      ensures (old(Held()) < cfg.s ==> ok) && (ok ==> Held() <= old(Held()))
      ensures ok ==> Valid()
      ensures ok ==>
                Accessed(old(physicalMemory[..]), old(stash.blocks[..]), physicalMemory[..], stash.blocks[..], cfg,
                         height, leaf, None)
    {
      hide LeafAt, Slots, Lawful, WellFormed, Merged, CanAccess, WrittenBack, Load;
      ghost var mem, before := physicalMemory[..], stash.blocks[..];
      ReadAndMerge(leaf);
      ok := WriteBack(leaf, mem, before, None);
      LoadKept(mem, before, physicalMemory[..], stash.blocks[..], cfg, height, leaf, None, ok);
    }

    /**
      `read_prepared_total`.  The key's blocks leave the histogram; the value returned is
      that of the last match of the merged path.  When all blocks of the key carry this tag,
      nothing of the key is left; when no other key's tag is ranked like this one either, the
      value returned is the key's whole total.  It fails exactly when the write-back does.
     */
    method ReadPreparedTotal(tag: Tag, payload: Payload) returns (ok: bool, result: V)
      requires Valid()
      modifies physicalMemory, stash.blocks
      ensures ok ==> Valid()
      ensures LeafAt(AddressToLeaf(tag, height), height)
      ensures var leaf := AddressToLeaf(tag, height);
        var merged := Merged(old(physicalMemory[..]), old(stash.blocks[..]), cfg, height, leaf);
        result == LastMatch(cfg.values, merged, payload)
      ensures ok <==> CanAccess(old(physicalMemory[..]), old(stash.blocks[..]), cfg, height, AddressToLeaf(tag, height),
                                Some(payload))
      ensures ok ==> PathStep(cfg, old(Snapshot()), AddressToLeaf(tag, height), Some(payload), Snapshot())
      ensures ok ==> Accessed(old(physicalMemory[..]), old(stash.blocks[..]), physicalMemory[..], stash.blocks[..],
                              cfg, height, AddressToLeaf(tag, height), Some(payload))
      ensures (old(Held()) < cfg.s ==> ok) && (ok ==> Held() <= old(Held()))
      ensures ok ==> forall p :: p != payload ==> SumOf(p) == old(SumOf(p)) && Stores(p) == old(Stores(p))
      ensures ok ==> forall ids :: Known(old(physicalMemory[..]), ids) && Known(old(stash.blocks[..]), ids)
                                   && OneTag(ids, tag, payload) ==>
                       Knows(ids) && SumOf(payload) == cfg.values.zero && !Stores(payload)
      ensures forall ids :: Known(old(physicalMemory[..]), ids) && Known(old(stash.blocks[..]), ids)
                            && Unambiguous(ids, tag, payload) ==>
                result == old(SumOf(payload))
    {
      hide LeafAt, Slots, Lawful, WellFormed, Merged, Known, Unambiguous, OneTag, Total, LastMatch, Elsewhere,
           StateTotal, AddressToLeaf, AgreeOffPath, Removed, CanAccess, WrittenBack, Accessed, Load, Stored, MatchCount;
      AddressIsLeaf(tag, height);
      var leaf := AddressToLeaf(tag, height);
      ghost var mem, before := physicalMemory[..], stash.blocks[..];
      WellFormedShape(mem, before, cfg, height);
      ReadAndMerge(leaf);
      result := stash.ReadAndRemove(payload);
      ok := WriteBack(leaf, mem, before, Some(payload));
      LoadKept(mem, before, physicalMemory[..], stash.blocks[..], cfg, height, leaf, Some(payload), ok);
      if ok { AccessedSums(mem, before, physicalMemory[..], stash.blocks[..], cfg, height, leaf, payload); }
      forall ids | Known(mem, ids) && OneTag(ids, tag, payload)
        ensures Total(cfg.values, Elsewhere(mem, cfg, height, leaf), payload) == cfg.values.zero
        ensures MatchCount(Elsewhere(mem, cfg, height, leaf), payload) == 0
      {
        WellFormedTree(mem, before, cfg, height);
        AbsentElsewhere(mem, cfg, height, ids, tag, payload);
        NothingElsewhere(mem, cfg, height, ids, tag, payload);
      }
      forall ids | Known(mem, ids) && Known(before, ids) && Unambiguous(ids, tag, payload)
        ensures result == StateTotal(cfg.values, mem, before, payload)
      {
        ReadReturnsTotal(mem, before, cfg, height, ids, tag, payload);
      }
    }

    /** `read_dummy`: a path access to a random leaf, which is a parameter here. */
    method ReadDummy(index: nat) returns (ok: bool)
      requires Valid() && index < Pow2(height)
      modifies physicalMemory, stash.blocks
      ensures LeafAt(Pow2(height) + index, height)
      ensures ok <==> CanAccess(old(physicalMemory[..]), old(stash.blocks[..]), cfg, height, Pow2(height) + index, None)
      ensures ok ==>
                WrittenBack(old(physicalMemory[..]), old(stash.blocks[..]), physicalMemory[..], stash.blocks[..], cfg,
                            height, Pow2(height) + index, None)
      ensures ok ==> PathStep(cfg, old(Snapshot()), Pow2(height) + index, None, Snapshot())
      ensures (old(Held()) < cfg.s ==> ok) && (ok ==> Held() <= old(Held()))
      ensures ok ==> Valid()
      ensures ok ==>
                Absorbed(cfg.values, old(physicalMemory[..]), old(stash.blocks[..]), physicalMemory[..],
                         stash.blocks[..], [])
    {
      hide Slots, Lawful, WellFormed, Accessed, Absorbed, CanAccess, WrittenBack, Load;
      var leaf := Pow2(height) + index;
      assert LeafAt(leaf, height);
      ghost var mem, before := physicalMemory[..], stash.blocks[..];
      ok := RewritePath(leaf);
      if ok { AccessAbsorbsNothing(mem, before, physicalMemory[..], stash.blocks[..], cfg, height, leaf); }
    }

    // ---- Appending ------------------------------------------------------------------------------------

    method CurrentEvictInterval() returns (r: nat)
      requires cfg.a >= 1
      ensures r == EvictInterval(evictCtr, sweepEnd, cfg.a)
    {
      var ordinary := cfg.a;
      if evictCtr < sweepEnd {
        r := if ordinary / 2 < 1 then 1 else ordinary / 2;
      } else {
        r := ordinary;
      }
    }

    /** `next_evict_leaf`: the leaves in bit-reversed order of the eviction counter. */
    method NextEvictLeaf() returns (leaf: nat)
      requires 1 <= height <= MAX_TREE_HEIGHT
      modifies this`evictCtr
      ensures leaf == EvictLeaf(old(evictCtr), height) && LeafAt(leaf, height)
      ensures evictCtr == old(evictCtr) + 1
    {
      EvictLeafIs(evictCtr, height);
      leaf := EvictLeaf(evictCtr, height);
      evictCtr := evictCtr + 1;
    }

    /** `accumulate_resize_accounting`: counts the merged blocks that belong to the eviction leaf and are recent. */
    method AccumulateResizeAccounting(evictLeaf: nat)
      requires height <= MAX_TREE_HEIGHT
      modifies this`autoResize
      ensures var matching := Matching(stash.blocks[..], height, evictLeaf, epoch);
        autoResize == if old(autoResize).None? then None else Some(old(autoResize).value.RecordEviction(matching))
    {
      if autoResize.Some? {
        var c := stash.CountMatchingBlocks(height, evictLeaf, epoch);
        autoResize := Some(autoResize.value.RecordEviction(c));
      }
    }

    /** `check_and_maybe_resize_post_eviction`; fails when the tree should grow past the largest height. */
    method CheckAndMaybeResizePostEviction() returns (ok: bool, grew: bool)
      requires Valid()
      modifies this, stash
      ensures ok == !(grew && old(height) == MAX_TREE_HEIGHT)
      ensures grew == Checked(old(autoResize), oracle, cfg.z, old(height)).1
      ensures ok ==> autoResize == Checked(old(autoResize), oracle, cfg.z, old(height)).0
      ensures ok && !grew ==>
                Now() == old(Now()) && physicalMemory == old(physicalMemory) && stash.blocks == old(stash.blocks)
                              && stash.pathSize == old(stash.pathSize)
      ensures ok && grew ==> Now() == Grown(old(Now())) && fresh(physicalMemory) && fresh(stash.blocks)
      ensures ok && grew ==> IsTaller(cfg, old(Snapshot()), Snapshot(), autoResize)
      ensures ok ==> Valid()
      ensures ok ==>
                Absorbed(cfg.values, old(physicalMemory[..]), old(stash.blocks[..]), physicalMemory[..],
                         stash.blocks[..], [])
      ensures ok ==> Held() == old(Held())
    {
      hide Slots, Lawful, WellFormed, Absorbed, Load;
      ghost var mem, before := physicalMemory[..], stash.blocks[..];
      NothingAbsorbed(cfg.values, mem, before);
      ok, grew := true, false;
      if autoResize.None? || !autoResize.value.ShouldCheckEpoch() {
        return;
      }
      var (auto, signal) := autoResize.value.EvaluateSignal(oracle, cfg.z);
      autoResize := Some(auto);
      if auto.deferred {
        if auto.emitsGrowSignal { autoResize := Some(auto.(pendingGrow := signal)); }
      } else if signal.Some? {
        grew := true;
        ok := ApplyAutoResizeGrow();
      }
    }

    // ---- Growing ------------------------------------------------------------------------------------------

    /** `grow_physical_storage`: one more level of empty buckets, and a sweep window of one eviction per old leaf. */
    method GrowPhysicalStorage() returns (ok: bool)
      requires Valid()
      modifies this, stash
      ensures ok == (old(height) < MAX_TREE_HEIGHT)
      ensures !ok ==> Now() == old(Now())
      ensures autoResize == old(autoResize)
      ensures ok ==> Now() == Grown(old(Now())) && fresh(physicalMemory) && fresh(stash.blocks)
      ensures ok ==> physicalMemory[..] == old(physicalMemory[..]) + Dummies(old(physicalMemory.Length), cfg.Dummy())
      ensures ok ==> IsTaller(cfg, old(Snapshot()), Snapshot(), autoResize)
      ensures ok ==> Valid()
      ensures ok ==>
                Absorbed(cfg.values, old(physicalMemory[..]), old(stash.blocks[..]), physicalMemory[..],
                         stash.blocks[..], [])
      ensures ok ==> Held() == old(Held())
    {
      hide Slots, Lawful, WellFormed, Absorbed, Load;
      if height >= MAX_TREE_HEIGHT {
        return false;
      }
      ghost var mem, before := physicalMemory[..], stash.blocks[..];
      var oldHeight, n, dummy := height, physicalMemory.Length, cfg.Dummy();
      var bigger := Splice(physicalMemory, n, n, dummy);
      assert bigger[..] == mem + Dummies(n, dummy);
      physicalMemory := bigger;
      height := height + 1;
      epoch := NextEpoch(epoch);
      sweepEnd := evictCtr + Pow2(oldHeight);
      stash.GrowExtendPathBuffer(oldHeight);
      GrowKeeps(mem, Dummies(n, dummy), before, cfg, oldHeight);
      GrowLoad(mem, Dummies(n, dummy), before, cfg, oldHeight);
      ok := true;
    }

    /** `apply_auto_resize_grow`. */
    method ApplyAutoResizeGrow() returns (ok: bool)
      requires Valid()
      modifies this, stash
      ensures ok == (old(height) < MAX_TREE_HEIGHT)
      ensures ok ==> autoResize == if old(autoResize).None? then None
                                   else Some(old(autoResize).value.OnTreeGrown(oracle, cfg.z, height))
      ensures ok ==> Now() == Grown(old(Now())) && fresh(physicalMemory) && fresh(stash.blocks)
      ensures ok ==> IsTaller(cfg, old(Snapshot()), Snapshot(), autoResize)
      ensures ok ==> Valid()
      ensures ok ==>
                Absorbed(cfg.values, old(physicalMemory[..]), old(stash.blocks[..]), physicalMemory[..],
                         stash.blocks[..], [])
      ensures ok ==> Held() == old(Held())
    {
      hide Slots, Lawful, WellFormed, Absorbed, Grown, Load;
      ok := GrowPhysicalStorage();
      if ok && autoResize.Some? { autoResize := Some(autoResize.value.OnTreeGrown(oracle, cfg.z, height)); }
    }

    // ---- Evictions ----------------------------------------------------------------------------------------

    /** The part of an eviction up to and including the write-back. */
    method RewriteEvictionPath() returns (ok: bool, evictLeaf: nat)
      requires Valid()
      modifies this`evictCtr, this`evictions, this`autoResize, physicalMemory, stash.blocks
      ensures evictLeaf == EvictLeaf(old(evictCtr), height) && LeafAt(evictLeaf, height)
      ensures var c := old(Now());
        Now() == c.(evictCtr := c.evictCtr + 1,
                    evictions := c.evictions + [Eviction(c.appendCtr, evictLeaf, false)])
      ensures var merged := Merged(old(physicalMemory[..]), old(stash.blocks[..]), cfg, height, evictLeaf);
        autoResize == if old(autoResize).None? then None
                      else Some(old(autoResize).value.RecordEviction(Matching(merged, height, evictLeaf, epoch)))
      ensures ok <==> CanAccess(old(physicalMemory[..]), old(stash.blocks[..]), cfg, height, evictLeaf, None)
      ensures ok ==>
                WrittenBack(old(physicalMemory[..]), old(stash.blocks[..]), physicalMemory[..], stash.blocks[..], cfg,
                            height, evictLeaf, None)
      ensures ok ==> Valid()
      ensures ok ==>
                Absorbed(cfg.values, old(physicalMemory[..]), old(stash.blocks[..]), physicalMemory[..],
                         stash.blocks[..], [])
      ensures (old(Held()) < cfg.s ==> ok) && (ok ==> Held() <= old(Held()))
    {
      hide Slots, Lawful, WellFormed, Absorbed, Merged, EvictLeaf, Matching, LeafAt, CanAccess, WrittenBack, Load;
      ghost var mem, before := physicalMemory[..], stash.blocks[..];
      evictLeaf := NextEvictLeaf();
      evictions := evictions + [Eviction(appendCtr, evictLeaf, false)];
      ReadAndMerge(evictLeaf);
      AccumulateResizeAccounting(evictLeaf);
      ok := WriteBack(evictLeaf, mem, before, None);
      LoadKept(mem, before, physicalMemory[..], stash.blocks[..], cfg, height, evictLeaf, None, ok);
      if ok { AccessAbsorbsNothing(mem, before, physicalMemory[..], stash.blocks[..], cfg, height, evictLeaf); }
    }

    /**
      `evict_after_insert`: rewrites the next eviction path, which moves blocks only, and
      lets the automatic growth have its say.
     */
    method EvictAfterInsert() returns (ok: bool)
      requires Valid()
      modifies this, physicalMemory, stash, stash.blocks
      ensures ok ==> Valid() && fresh(Footprint() - old(Footprint()))
      ensures ok ==>
                Absorbed(cfg.values, old(physicalMemory[..]), old(stash.blocks[..]), physicalMemory[..],
                         stash.blocks[..], [])
      ensures ok ==> EvictStep(cfg, oracle, old(Snapshot()), Snapshot())
      ensures ok ==> Now() == Evicted(old(Now()), Grew(evictions, old(evictCtr)))
      ensures LeafAt(EvictLeaf(old(evictCtr), old(height)), old(height))
      ensures ok <==> CanEvict(old(physicalMemory[..]), old(stash.blocks[..]), cfg, old(Now()), old(autoResize), oracle)
      ensures old(Held()) < cfg.s && (old(height) < MAX_TREE_HEIGHT || !GrowsAlone(old(autoResize))) ==> ok
      ensures ok ==> Held() <= old(Held())
      ensures ok ==> GrowsAlone(autoResize) == old(GrowsAlone(autoResize))
      ensures ok && !GrowsAlone(autoResize) ==> height == old(height)
      ensures ok ==> var leaf := EvictLeaf(old(evictCtr), old(height));
        var merged := Merged(old(physicalMemory[..]), old(stash.blocks[..]), cfg, old(height), leaf);
        (autoResize, Grew(evictions, old(evictCtr)))
          == AfterEviction(old(autoResize), Matching(merged, old(height), leaf, old(epoch)), oracle, cfg.z, old(height))
    {
      hide Slots, Lawful, WellFormed, Absorbed, Merged, EvictLeaf, Matching, Checked, LeafAt, CanAccess, WrittenBack,
           GrowsAlone, Load, EvictStep, Extended;
      ghost var mem, before, c := physicalMemory[..], stash.blocks[..], Now();
      var evictLeaf;
      ok, evictLeaf := RewriteEvictionPath();
      AloneKept(old(autoResize), Matching(Merged(mem, before, cfg, height, evictLeaf), height, evictLeaf, epoch),
                oracle, cfg.z, height);
      if !ok {
        return;
      }
      ghost var mem1, before1 := physicalMemory[..], stash.blocks[..];
      var grew;
      ok, grew := CheckAndMaybeResizePostEviction();
      if !ok {
        return;
      }
      ghost var none: seq<Update<V>> := [];
      AbsorbedThen(cfg.values, mem, before, mem1, before1, physicalMemory[..], stash.blocks[..], none, none);
      assert none + none == none;
      evictions := c.evictions + [Eviction(appendCtr, evictLeaf, grew)];
      ghost var s := State(mem, before, c, old(autoResize));
      EvictedBy(cfg, oracle, s, State(mem1, before1, c, old(autoResize)), Snapshot());
    }

    // ---- Appends ------------------------------------------------------------------------------------------

    /** `finish_append_after_insert`. */
    method FinishAppendAfterInsert() returns (ok: bool)
      requires Valid()
      modifies this, physicalMemory, stash, stash.blocks
      ensures ok ==> Valid() && fresh(Footprint() - old(Footprint()))
      ensures ok ==>
                Absorbed(cfg.values, old(physicalMemory[..]), old(stash.blocks[..]), physicalMemory[..],
                         stash.blocks[..], [])
      ensures ok ==> FinishStep(cfg, oracle, old(Snapshot()), 1, Snapshot())
      ensures ok ==> Now() == Appended(old(Now()), cfg.a, evictions)
      ensures ok ==> GrowsAlone(autoResize) == old(GrowsAlone(autoResize))
      ensures ok && !GrowsAlone(autoResize) ==> height == old(height)
      ensures old(Held()) < cfg.s && (old(height) < MAX_TREE_HEIGHT || !GrowsAlone(old(autoResize))) ==> ok
      ensures ok ==> Held() <= old(Held())
      ensures ok <==> (EvictDue(old(Now()), cfg.a) ==> CanEvict(old(physicalMemory[..]), old(stash.blocks[..]), cfg,
                                                                old(Now()), old(autoResize), oracle))
      ensures ok && !EvictDue(old(Now()), cfg.a) ==>
                physicalMemory == old(physicalMemory) && stash.blocks == old(stash.blocks)
    {
      hide Slots, Lawful, WellFormed, Absorbed, Merged, EvictLeaf, Matching, LeafAt, CanAccess, AfterEviction,
           CanEvict, GrowsAlone, Load, EvictStep;
      NothingAbsorbed(cfg.values, physicalMemory[..], stash.blocks[..]);
      CanEvictLater(physicalMemory[..], stash.blocks[..], cfg, Now(), appendCtr + 1, autoResize, oracle);
      appendCtr := appendCtr + 1;
      var evictPeriod := CurrentEvictInterval();
      if appendCtr % evictPeriod != 0 {
        return true;
      }
      ok := EvictAfterInsert();
    }

    /** The insertion into the stash that an append begins with. */
    method BufferPrepared(tag: Tag, value: V, payload: Payload) returns (ok: bool)
      requires Valid()
      modifies stash.blocks
      ensures stash.pathSize == Slots(height + 1, cfg.z) <= stash.blocks.Length
      ensures ok <==> FreeSlot(old(stash.blocks[..]), stash.pathSize) < stash.blocks.Length
      ensures ok ==> Valid()
      ensures ok ==> StashSlots() == Inserted(old(StashSlots()), cfg, height, Block(tag, epoch, value, payload))
      ensures ok ==>
                Absorbed(cfg.values, physicalMemory[..], old(stash.blocks[..]), physicalMemory[..], stash.blocks[..],
                         [Update(tag, value, payload, true)])
      ensures (old(Held()) < cfg.s ==> ok) && (ok ==> Held() <= old(Held()) + 1)
    {
      hide Slots, Lawful, WellFormed, Absorbed, Load;
      ghost var mem, before := physicalMemory[..], stash.blocks[..];
      ghost var u := Update(tag, value, payload, true);
      WellFormedShape(mem, before, cfg, height);
      RoomToInsert(mem, before, cfg, height, Block(tag, epoch, value, payload));
      ok := stash.Insert(tag, epoch, value, payload);
      if ok {
        ghost var i := FreeSlot(before, stash.pathSize);
        OneGained(cfg.values, mem, before, i, u, epoch, cfg.Dummy());
        InsertKeeps(mem, before, i, Block(tag, epoch, value, payload), cfg, height);
      }
    }

    /** `add_prepared_inner`: buffers one update in the stash, evicting when it is time to. */
    method AppendPrepared(tag: Tag, value: V, payload: Payload) returns (ok: bool)
      requires Valid()
      modifies this, physicalMemory, stash, stash.blocks
      ensures ok ==> Valid() && fresh(Footprint() - old(Footprint()))
      ensures ok ==>
                Absorbed(cfg.values, old(physicalMemory[..]), old(stash.blocks[..]), physicalMemory[..],
                         stash.blocks[..], [Update(tag, value, payload, true)])
      ensures ok ==> AppendStep(cfg, oracle, old(Snapshot()), Block(tag, old(epoch), value, payload), Snapshot())
      ensures ok ==> Now() == Appended(old(Now()), cfg.a, evictions)
      ensures ok ==> GrowsAlone(autoResize) == old(GrowsAlone(autoResize))
      ensures ok && !GrowsAlone(autoResize) ==> height == old(height)
      ensures ok <==> CanAppend(old(physicalMemory[..]), old(stash.blocks[..]), cfg, old(Now()), old(autoResize),
                                oracle, Block(tag, old(epoch), value, payload))
      ensures old(RoomFor(1)) ==> ok
      ensures ok ==> Held() <= old(Held()) + 1
      ensures ok && !EvictDue(old(Now()), cfg.a) ==>
                physicalMemory == old(physicalMemory) && stash.blocks == old(stash.blocks)
    {
      hide Slots, Lawful, WellFormed, Absorbed, Appended, CanEvict, EvictDue, GrowsAlone, Load, FinishStep;
      ghost var mem, before := physicalMemory[..], stash.blocks[..];
      ghost var u := Update(tag, value, payload, true);
      ok := BufferPrepared(tag, value, payload);
      if !ok {
        return;
      }
      ghost var inserted := stash.blocks[..];
      ok := FinishAppendAfterInsert();
      if ok {
        AbsorbedThen(cfg.values, mem, before, mem, inserted, physicalMemory[..], stash.blocks[..], [u], []);
        assert [u] + [] == [u];
      }
    }

    method Append(key: seq<Byte>, value: V) returns (ok: bool)
      requires Valid()
      modifies this, physicalMemory, stash, stash.blocks
      ensures ok ==> Valid() && fresh(Footprint() - old(Footprint()))
      ensures ok ==>
                Absorbed(cfg.values, old(physicalMemory[..]), old(stash.blocks[..]), physicalMemory[..],
                         stash.blocks[..], [Update(TagOf(Chained(prf, key)), value, Padded(key, cfg.k), true)])
      ensures ok ==> AppendStep(cfg, oracle, old(Snapshot()),
                                Block(TagOf(Chained(prf, key)), old(epoch), value, Padded(key, cfg.k)), Snapshot())
      ensures ok ==> Now() == Appended(old(Now()), cfg.a, evictions)
      ensures ok <==> CanAppend(old(physicalMemory[..]), old(stash.blocks[..]), cfg, old(Now()), old(autoResize),
                                oracle, Block(TagOf(Chained(prf, key)), old(epoch), value, Padded(key, cfg.k)))
      ensures ok ==> GrowsAlone(autoResize) == old(GrowsAlone(autoResize))
      ensures ok && !GrowsAlone(autoResize) ==> height == old(height)
      ensures old(RoomFor(1)) ==> ok
      ensures ok ==> Held() <= old(Held()) + 1
    {
      hide Lawful, WellFormed, Absorbed, Appended, CanAppend, EvictDue, Inserted, GrowsAlone, Load,
           AppendStep;
      var preparedKey := PrfTag(prf, key);
      var payload := CopyPrefix(key, cfg.k);
      ok := AppendPrepared(preparedKey, value, payload);
    }

    method ReadTotal(key: seq<Byte>) returns (ok: bool, result: V)
      requires Valid()
      modifies physicalMemory, stash.blocks
      ensures ok ==> Valid()
      ensures LeafAt(AddressToLeaf(TagOf(Chained(prf, key)), height), height)
      ensures ok <==> CanAccess(old(physicalMemory[..]), old(stash.blocks[..]), cfg, height,
                                AddressToLeaf(TagOf(Chained(prf, key)), height), Some(Padded(key, cfg.k)))
      ensures ok ==> PathStep(cfg, old(Snapshot()), AddressToLeaf(TagOf(Chained(prf, key)), height),
                              Some(Padded(key, cfg.k)), Snapshot())
      ensures (old(Held()) < cfg.s ==> ok) && (ok ==> Held() <= old(Held()))
      ensures ok ==> forall p :: p != Padded(key, cfg.k) ==> SumOf(p) == old(SumOf(p)) && Stores(p) == old(Stores(p))
      ensures ok ==> forall ids :: Known(old(physicalMemory[..]), ids) && Known(old(stash.blocks[..]), ids)
                                   && OneTag(ids, TagOf(Chained(prf, key)), Padded(key, cfg.k)) ==>
                       Knows(ids) && SumOf(Padded(key, cfg.k)) == cfg.values.zero && !Stores(Padded(key, cfg.k))
      ensures forall ids :: Known(old(physicalMemory[..]), ids) && Known(old(stash.blocks[..]), ids)
                            && Unambiguous(ids, TagOf(Chained(prf, key)), Padded(key, cfg.k)) ==>
                result == old(SumOf(Padded(key, cfg.k)))
    {
      hide Lawful, WellFormed, Accessed, Unambiguous, OneTag, Known, StateTotal, CanAccess, LeafAt, AddressToLeaf,
           TagOf, Chained, Padded, Load, Stored, PathStep;
      var tag := PrfTag(prf, key);
      var payload := CopyPrefix(key, cfg.k);
      ok, result := ReadPreparedTotal(tag, payload);
    }

    /**
      `append_prepared_masked_batch`: inserts a batch chunk by chunk, each chunk ending at the
      next eviction at the latest.  The counters end up where appending the updates one at a
      time takes them, evictions included, and so do the totals.
     */
    method AppendPreparedMaskedBatch(updates: seq<Update<V>>) returns (ok: bool)
      requires Valid()
      modifies this, physicalMemory, stash, stash.blocks
      ensures ok ==> Valid() && fresh(Footprint() - old(Footprint()))
      ensures ok ==>
                Absorbed(cfg.values, old(physicalMemory[..]), old(stash.blocks[..]), physicalMemory[..],
                         stash.blocks[..], updates)
      ensures ok ==> BatchStep(cfg, oracle, old(Snapshot()), updates, Snapshot())
      ensures !ok ==> BatchStuck(cfg, oracle, old(Snapshot()), updates)
      ensures ok ==> Now() == AppendedMany(old(Now()), |updates|, cfg.a, evictions)
      ensures ok ==> GrowsAlone(autoResize) == old(GrowsAlone(autoResize))
      ensures ok && !GrowsAlone(autoResize) ==> height == old(height)
      ensures old(RoomToTake(updates)) ==> ok
      ensures ok ==> Held() <= old(Held()) + EffectiveCount(updates)
    {
      hide Slots, Lawful, WellFormed, Absorbed, Appended, GrowsAlone, Load, EffectiveCount, ChunkStep, ChunkStuck,
           BatchTo, BatchStuck;
      ghost var mem, before, c, s := physicalMemory[..], stash.blocks[..], Now(), Snapshot();
      BatchStarts(cfg, oracle, s, updates);
      NothingAbsorbed(cfg.values, mem, before);
      var offset := 0;
      assert updates[..0] == [];
      while offset < |updates|
        invariant offset <= |updates| && Valid() && fresh(Footprint() - old(Footprint()))
        invariant Absorbed(cfg.values, mem, before, physicalMemory[..], stash.blocks[..], updates[..offset])
        invariant BatchTo(cfg, oracle, s, updates, offset, Snapshot())
        invariant Now() == AppendedMany(c, offset, cfg.a, evictions)
        invariant GrowsAlone(autoResize) == old(GrowsAlone(autoResize))
        invariant !GrowsAlone(autoResize) ==> height == old(height)
        invariant Held() <= old(Held()) + EffectiveCount(updates[..offset])
      {
        AppendedHeight(c, offset, cfg.a, evictions);
        var evictPeriod := CurrentEvictInterval();
        var untilEvict := UntilEvict(appendCtr, evictPeriod);
        var chunkLen := if |updates| - offset < untilEvict then |updates| - offset else untilEvict;
        ghost var mem1, before1, c1, s1 := physicalMemory[..], stash.blocks[..], Now(), Snapshot();
        var chunk := updates[offset..offset + chunkLen];
        EffectivePrefix(updates, offset, chunkLen);
        ok := AppendChunk(chunk);
        if !ok {
          BatchHalts(cfg, oracle, s, updates, offset, s1);
          return;
        }
        BatchOn(cfg, oracle, s, updates, offset, offset + chunkLen, s1, Snapshot());
        AbsorbedThen(cfg.values, mem, before, mem1, before1, physicalMemory[..], stash.blocks[..], updates[..offset],
                     chunk);
        assert updates[..offset] + chunk == updates[..offset + chunkLen];
        ChunkJoins(c, offset, chunkLen, cfg.a, c1.evictions, evictions);
        offset := offset + chunkLen;
      }
      assert updates[..offset] == updates;
      ok := true;
    }

    /** One round of the batch loop. */
    method AppendChunk(chunk: seq<Update<V>>) returns (ok: bool)
      requires Valid() && 1 <= |chunk| <= UntilEvict(appendCtr, EvictInterval(evictCtr, sweepEnd, cfg.a))
      modifies this, physicalMemory, stash, stash.blocks
      ensures ok ==> Valid() && fresh(Footprint() - old(Footprint()))
      ensures ok ==>
                Absorbed(cfg.values, old(physicalMemory[..]), old(stash.blocks[..]), physicalMemory[..],
                         stash.blocks[..], chunk)
      ensures ok ==> ChunkStep(cfg, oracle, old(Snapshot()), chunk, Snapshot())
      ensures !ok ==> ChunkStuck(cfg, oracle, old(Snapshot()), chunk)
      ensures ok ==> Now() == AppendedMany(old(Now()), |chunk|, cfg.a, evictions)
      ensures ok ==> GrowsAlone(autoResize) == old(GrowsAlone(autoResize))
      ensures ok && !GrowsAlone(autoResize) ==> height == old(height)
      ensures var mayGrow := old(height) < MAX_TREE_HEIGHT || !GrowsAlone(old(autoResize));
        old(Held()) + EffectiveCount(chunk) < cfg.s && mayGrow ==> ok
      ensures ok ==> Held() <= old(Held()) + EffectiveCount(chunk)
    {
      hide Slots, Lawful, WellFormed, Absorbed, Live, Load, AppendedMany, UntilEvict, Merged, EvictLeaf, Matching,
           LeafAt, CanEvict, AfterEviction, Evicted, GrowsAlone, EffectiveCount, EvictStep;
      ghost var mem, before, c, s := physicalMemory[..], stash.blocks[..], Now(), Snapshot();
      ok := stash.InsertBatch(chunk, epoch);
      ghost var inserted := stash.blocks[..];
      RoomForBatch(mem, before, inserted, chunk, epoch, cfg, height);
      if !ok {
        return;
      }
      WellFormedShape(mem, before, cfg, height);
      BatchGained(mem, before, inserted, chunk, epoch, cfg, height);
      assert TakesIn(cfg, s, chunk, inserted);
      ok := FinishChunk(|chunk|);
      if !ok {
        ChunkHalts(cfg, oracle, s, chunk, inserted);
        return;
      }
      ChunkOn(cfg, oracle, s, chunk, inserted, Snapshot());
      AbsorbedThen(cfg.values, mem, before, mem, inserted, physicalMemory[..], stash.blocks[..], chunk, []);
      assert chunk + [] == chunk;
    }

    /** Counts the appends of a chunk, and evicts when it is time to. */
    method FinishChunk(n: nat) returns (ok: bool)
      requires Valid() && 1 <= n <= UntilEvict(appendCtr, EvictInterval(evictCtr, sweepEnd, cfg.a))
      modifies this, physicalMemory, stash, stash.blocks
      ensures ok ==> Valid() && fresh(Footprint() - old(Footprint()))
      ensures ok ==>
                Absorbed(cfg.values, old(physicalMemory[..]), old(stash.blocks[..]), physicalMemory[..],
                         stash.blocks[..], [])
      ensures ok ==> FinishStep(cfg, oracle, old(Snapshot()), n, Snapshot())
      ensures !ok ==> FinishStuck(cfg, oracle, old(Snapshot()), n)
      ensures ok ==> Now() == AppendedMany(old(Now()), n, cfg.a, evictions)
      ensures ok ==> GrowsAlone(autoResize) == old(GrowsAlone(autoResize))
      ensures ok && !GrowsAlone(autoResize) ==> height == old(height)
      ensures old(Held()) < cfg.s && (old(height) < MAX_TREE_HEIGHT || !GrowsAlone(old(autoResize))) ==> ok
      ensures ok ==> Held() <= old(Held())
    {
      hide Slots, Lawful, WellFormed, Absorbed, Merged, EvictLeaf, Matching, LeafAt, CanAccess, AfterEviction,
           CanEvict, GrowsAlone, Load, EvictStep, AppendedMany, UntilEvict;
      ghost var c := Now();
      NothingAbsorbed(cfg.values, physicalMemory[..], stash.blocks[..]);
      var evictPeriod := CurrentEvictInterval();
      ok := true;
      appendCtr := appendCtr + n;
      if appendCtr % evictPeriod == 0 {
        ok := EvictAfterInsert();
        if !ok {
          return;
        }
      }
      ChunkAdvances(c, n, cfg.a, evictions);
    }

    // ---- Growing and its signals --------------------------------------------------------------------------

    /** `grow`: one level more, then every new path is rewritten once. */
    method Grow() returns (ok: bool)
      requires Valid()
      modifies this, physicalMemory, stash, stash.blocks
      ensures ok ==> Valid() && fresh(Footprint() - old(Footprint()))
      ensures ok ==>
                Absorbed(cfg.values, old(physicalMemory[..]), old(stash.blocks[..]), physicalMemory[..],
                         stash.blocks[..], [])
      ensures ok ==> GrowStep(cfg, oracle, old(Snapshot()), Snapshot())
      ensures !ok ==> GrowStuck(cfg, oracle, old(Snapshot()))
      ensures ok ==> old(height) < MAX_TREE_HEIGHT && Now() == Grown(old(Now()))
      ensures (old(Held()) < cfg.s && old(height) < MAX_TREE_HEIGHT ==> ok) && (ok ==> Held() <= old(Held()))
      ensures ok ==>
                autoResize == if old(autoResize).None? then None
                              else Some(old(autoResize).value.OnTreeGrown(oracle, cfg.z, height))
    {
      hide Slots, Lawful, WellFormed, Absorbed, Accessed, CanAccess, WrittenBack, Load, GrowTo, GrowStuck, PathStep,
           Extended;
      ghost var mem, before, s := physicalMemory[..], stash.blocks[..], Snapshot();
      ok := GrowPhysicalStorage();
      if !ok {
        GrowHalts(cfg, oracle, s, 0, s);
        return;
      }
      if autoResize.Some? { autoResize := Some(autoResize.value.OnTreeGrown(oracle, cfg.z, height)); }
      GrowStarts(cfg, oracle, s, Snapshot());
      ghost var mem1, before1, none: seq<Update<V>> := physicalMemory[..], stash.blocks[..], [];
      ok := RewriteNewPaths(s);
      if ok {
        AbsorbedThen(cfg.values, mem, before, mem1, before1, physicalMemory[..], stash.blocks[..], none, none);
        assert none + none == none;
      }
    }

    /** The path to every leaf, from left to right. */
    method RewriteNewPaths(ghost s: State<V>) returns (ok: bool)
      requires Valid() && GrowTo(cfg, oracle, s, 0, Snapshot()) && height == s.c.height + 1
      modifies physicalMemory, stash.blocks
      ensures ok ==> Valid() && GrowStep(cfg, oracle, s, Snapshot())
      ensures !ok ==> GrowStuck(cfg, oracle, s)
      ensures ok ==>
                Absorbed(cfg.values, old(physicalMemory[..]), old(stash.blocks[..]), physicalMemory[..],
                         stash.blocks[..], [])
      ensures (old(Held()) < cfg.s ==> ok) && (ok ==> Held() <= old(Held()))
    {
      hide Slots, Lawful, WellFormed, Absorbed, Accessed, CanAccess, WrittenBack, Load, GrowTo, GrowStuck, PathStep;
      ghost var mem, before, none: seq<Update<V>> := physicalMemory[..], stash.blocks[..], [];
      NothingAbsorbed(cfg.values, mem, before);
      assert none + none == none;
      ok := true;
      for newLeaf := Pow2(height) to Pow2(height + 1)
        invariant Valid() && ok && Held() <= old(Held())
        invariant Absorbed(cfg.values, mem, before, physicalMemory[..], stash.blocks[..], none)
        invariant GrowTo(cfg, oracle, s, newLeaf - Pow2(height), Snapshot())
      {
        ghost var mem1, before1, s1 := physicalMemory[..], stash.blocks[..], Snapshot();
        ok := RewritePath(newLeaf);
        if !ok {
          GrowHalts(cfg, oracle, s, newLeaf - Pow2(height), s1);
          return;
        }
        GrowOn(cfg, oracle, s, newLeaf - Pow2(height), s1, Snapshot());
        AccessAbsorbsNothing(mem1, before1, physicalMemory[..], stash.blocks[..], cfg, height, newLeaf);
        AbsorbedThen(cfg.values, mem, before, mem1, before1, physicalMemory[..], stash.blocks[..], none, none);
      }
    }

    method ConfigureAutoResize(tCapacity: nat, deferChecks: bool, emitsGrowSignal: bool)
      requires Valid()
      modifies this`autoResize
      ensures Valid() && autoResize == Some(Configured(oracle, tCapacity, cfg.z, height, deferChecks, emitsGrowSignal))
    {
      hide WellFormed;
      autoResize := Some(Configured(oracle, tCapacity, cfg.z, height, deferChecks, emitsGrowSignal));
    }

    /** `take_deferred_auto_resize_signal`. */
    method TakeDeferredAutoResizeSignal() returns (signal: Option<nat>)
      requires Valid()
      modifies this`autoResize
      ensures Valid()
      ensures signal == if old(autoResize).None? then None else old(autoResize).value.pendingGrow
      ensures autoResize == if old(autoResize).None? then None else Some(old(autoResize).value.(pendingGrow := None))
    {
      hide WellFormed;
      if autoResize.None? {
        return None;
      }
      signal := autoResize.value.pendingGrow;
      autoResize := Some(autoResize.value.(pendingGrow := None));
    }

    /** `apply_deferred_auto_resize_grow`: a new period, and one level more. */
    method ApplyDeferredAutoResizeGrow() returns (ok: bool)
      requires Valid()
      modifies this, stash
      ensures ok == (old(height) < MAX_TREE_HEIGHT)
      ensures ok ==> Valid() && fresh(Footprint() - old(Footprint())) && Now() == Grown(old(Now()))
      ensures ok ==> Held() == old(Held())
      ensures ok ==> IsTaller(cfg, old(Snapshot()), Snapshot(), autoResize)
      ensures ok ==>
                Absorbed(cfg.values, old(physicalMemory[..]), old(stash.blocks[..]), physicalMemory[..],
                         stash.blocks[..], [])
      ensures ok ==> autoResize == if old(autoResize).None? then None
                                   else Some(old(autoResize).value.ResetCounters().OnTreeGrown(oracle, cfg.z, height))
    {
      hide Slots, Lawful, WellFormed, Absorbed, Load;
      if autoResize.Some? { autoResize := Some(autoResize.value.ResetCounters()); }
      ok := ApplyAutoResizeGrow();
    }

    // ---- Readouts --------------------------------------------------------------------------------------------

    /** Everything stored, slot by slot. */
    ghost function Contents(): seq<Block<V>>
      reads Footprint(), this, stash
    {
      physicalMemory[..] + stash.blocks[..]
    }

    /** The sum of a key is the total of its blocks. */
    lemma SumIsTotal(p: Payload)
      requires Valid()
      ensures SumOf(p) == Total(cfg.values, Contents(), p)
    {
      hide Lawful, Total, WellFormed;
      TotalConcat(cfg.values, physicalMemory[..], stash.blocks[..], p);
    }

    function ReadoutLen(): nat
      requires stash.pathSize <= stash.blocks.Length
      reads this, stash
    {
      physicalMemory.Length + (stash.blocks.Length - stash.pathSize)
    }

    /** `readout`: one block per key, with its running total, in front of dummies. */
    method Readout() returns (blocks: array<Block<V>>)
      requires Valid()
      ensures stash.pathSize <= stash.blocks.Length && fresh(blocks) && blocks.Length == ReadoutLen()
      ensures IsReadout(cfg.values, Contents(), blocks[..]) && RealFirst(blocks[..])
      ensures forall i :: 0 <= i < blocks.Length && blocks[i].Real() ==> blocks[i].value == SumOf(blocks[i].payload)
    {
      hide WellFormed, Lawful, IsReadout, RealFirst, Live, Slots, IsPowerOfTwo, StateTotal, Total;
      OverflowOnly(physicalMemory[..], stash.blocks[..], cfg, height);
      var dummy := cfg.Dummy();
      blocks := Joined(physicalMemory, physicalMemory.Length, stash.blocks, stash.pathSize, dummy);
      assert blocks[..] == physicalMemory[..] + stash.blocks[stash.pathSize..];
      ghost var s := blocks[..];
      ObliviousReadout(cfg.values, blocks);
      ReadoutOfLive(cfg.values, s, blocks[..], Contents(), blocks[..]);
      forall i | 0 <= i < blocks.Length && blocks[i].Real() ensures blocks[i].value == SumOf(blocks[i].payload) {
        ReadoutValue(cfg.values, Contents(), blocks[..], i);
        SumIsTotal(blocks[i].payload);
      }
    }

    /** `readout_tree_aware_into`. */
    method ReadoutTreeAwareInto(blocks: array<Block<V>>)
      requires Valid() && stash.pathSize <= stash.blocks.Length && blocks.Length == ReadoutLen()
      requires blocks != physicalMemory && blocks != stash.blocks
      modifies blocks
      ensures ReadsOut(cfg.values, Contents(), blocks[..])
    {
      hide WellFormed, Lawful, IsReadout, Live, Slots, IsPowerOfTwo, Ordered, AllCoherent, Pow2, Total, Shape, Known,
           IdsCoherent;
      ghost var mem, overflow := physicalMemory[..], stash.blocks[stash.pathSize..];
      var treeLen := physicalMemory.Length;
      CopyBlocks(physicalMemory, 0, blocks, 0, treeLen);
      ghost var half := blocks[..];
      assert physicalMemory[0..0 + treeLen] == mem && half[..treeLen] == mem;
      CopyBlocks(stash.blocks, stash.pathSize, blocks, treeLen, stash.blocks.Length - stash.pathSize);
      assert half[treeLen + (stash.blocks.Length - stash.pathSize)..] == [];
      assert blocks[..] == mem + overflow;
      WellFormedShape(mem, stash.blocks[..], cfg, height);
      ShapeIs(mem, cfg.z, height);
      ObliviousTreeReadout(cfg.values, blocks, stash.blocks.Length - stash.pathSize, cfg.z, height);
      TreeReadsOut(cfg.values, mem, overflow, stash.blocks[..], blocks[..], cfg, height);
    }

    /** `readout_tree_aware`. */
    method ReadoutTreeAware() returns (blocks: array<Block<V>>)
      requires Valid()
      ensures stash.pathSize <= stash.blocks.Length && fresh(blocks) && blocks.Length == ReadoutLen()
      ensures ReadsOut(cfg.values, Contents(), blocks[..])
    {
      hide WellFormed, Lawful, ReadsOut, Slots;
      var dummy := cfg.Dummy();
      blocks := new Block<V>[ReadoutLen()](_ => dummy);
      ReadoutTreeAwareInto(blocks);
    }

    /** `readout_subtree_partitioned`; the suggested inbox size is a parameter. */
    method ReadoutSubtreePartitioned(localHeight: nat, suggestedQuota: nat)
        returns (r: Result<array<Block<V>>, SubtreeReadoutOverflow>)
      requires Valid()
      ensures stash.pathSize <= stash.blocks.Length
      ensures localHeight >= height ==> r.Ok? && r.value.Length == ReadoutLen()
      ensures r.Ok? ==> fresh(r.value) && ReadsOut(cfg.values, Contents(), r.value[..])
      ensures localHeight < height ==> Slots(Pow2(height - localHeight), cfg.z) <= physicalMemory.Length
      ensures localHeight < height ==>
                var cut := height - localHeight;
                var inbox := NextPowerOfTwo(if suggestedQuota < 1 then 1 else suggestedQuota);
                var upper := UpperRun(cfg.values, physicalMemory[..], stash.blocks[stash.pathSize..], cfg.z, cut);
                (r.Err? <==> InboxOverflows(upper, cut, inbox))
                && (r.Err? ==> Reports(r.error, upper, cut, inbox))
                && (r.Ok? ==> r.value.Length == Slots(Pow2(cut), Slots(Pow2(localHeight + 1), cfg.z) + inbox))
    {
      hide Lawful, ReadsOut, Slots, IsPowerOfTwo, InboxOverflows, PathInvariant, Live, Pow2, AllDummies, UpperRun,
           NextPowerOfTwo, Reports;
      WellFormedShape(physicalMemory[..], stash.blocks[..], cfg, height);
      if localHeight >= height {
        var blocks := ReadoutTreeAware();
        return Ok(blocks);
      }
      OverflowOnly(physicalMemory[..], stash.blocks[..], cfg, height);
      var dummy := cfg.Dummy();
      r := ReadoutSubtrees(cfg.values, physicalMemory, stash.blocks, stash.pathSize, cfg.z, height, localHeight,
                           suggestedQuota, dummy);
      if r.Ok? {
        ReadsOutAll(cfg.values, physicalMemory[..], stash.blocks[stash.pathSize..], stash.blocks[..], r.value[..]);
      }
    }
  }

  /** The path invariant makes the tree-aware readout exact. */
  lemma TreeReadsOut<V(!new)>(m: Values<V>, mem: seq<Block<V>>, overflow: seq<Block<V>>, stash: seq<Block<V>>,
                              out: seq<Block<V>>, cfg: Config<V>, height: nat)
    requires Lawful(m) && height <= MAX_TREE_HEIGHT && WellFormed(mem, stash, cfg, height)
    requires Slots(height + 1, cfg.z) <= |stash| && overflow == stash[Slots(height + 1, cfg.z)..]
    requires forall p :: Total(m, out, p) == Total(m, mem + overflow, p)
    requires Ordered(mem + overflow, cfg.z, height) && AllCoherent(mem + overflow) ==> IsReadout(m, mem + overflow, out)
    ensures ReadsOut(m, mem + stash, out)
  {
    hide Lawful, Slots, Live, Total, IsReadout, AllCoherent, Ordered, AllDummies, Known, IdsCoherent;
    TreeOrdered(mem, overflow, cfg.z, height);
    OverflowOnly(mem, stash, cfg, height);
    forall ids | Known(mem + overflow, ids) && IdsCoherent(ids) ensures IsReadout(m, mem + overflow, out) {
      KnownCoherent(mem + overflow, ids);
    }
    ReadsOutAll(m, mem, overflow, stash, out);
  }

  lemma TreeOrdered<V>(mem: seq<Block<V>>, overflow: seq<Block<V>>, z: nat, height: nat)
    requires height <= MAX_TREE_HEIGHT && PathInvariant(mem, z, height)
    ensures Ordered(mem + overflow, z, height)
  {
    hide Slots, Pow2, Bucket, HasBucket, NodeOk, Before;
    OldBucket(mem, overflow, z, 0);
    forall d: nat | d <= height ensures LevelOrdered(mem + overflow, z, d) {
      forall u: nat, v: nat | LeafAt(u, d) && LeafAt(v, d) && u < v ensures Before(mem + overflow, z, u, v) {
        TreeBefore(mem, z, height, d, u, v);
        BeforeStays(mem, overflow, z, u, v);
      }
    }
  }

  lemma BeforeStays<V>(mem: seq<Block<V>>, overflow: seq<Block<V>>, z: nat, u: nat, v: nat)
    requires Before(mem, z, u, v)
    ensures Before(mem + overflow, z, u, v)
  {
    hide Slots, Bucket, HasBucket, RoutingBits;
    OldBucket(mem, overflow, z, u);
    OldBucket(mem, overflow, z, v);
  }
}
