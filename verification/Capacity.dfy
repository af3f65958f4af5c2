/**
  How many real blocks a histogram holds: accesses and growths never add any, an append
  adds at most one, and while there are fewer than overflow slots no access can fail.
 */
module Capacity {
  import opened Wrappers
  import opened Blocks
  import opened Reduction
  import opened Routing
  import opened Greedy
  import opened SortReduce
  import opened Tree
  import opened Layout
  import opened Stash
  import opened Access
  import opened Contents

  /** The number of real blocks in tree and stash. */
  ghost function Load<V>(mem: seq<Block<V>>, stash: seq<Block<V>>): nat { |Live(mem)| + |Live(stash)| }

  /** There is room for the updates that count. */
  ghost predicate Fits<V>(mem: seq<Block<V>>, stash: seq<Block<V>>, us: seq<Update<V>>, s: nat) {
    Load(mem, stash) + EffectiveCount(us) < s
  }

  lemma {:induction false} FewerLive<V>(r: seq<Block<V>>, t: seq<Block<V>>)
    requires |r| == |t| && forall i :: 0 <= i < |r| && r[i].Real() ==> t[i].Real()
    ensures |Live(r)| <= |Live(t)|
  {
    if r != [] {
      var n := |r| - 1;
      LiveLast(r);
      LiveLast(t);
      hide Live;
      FewerLive(r[..n], t[..n]);
    }
  }

  /** What an access gathers, and what is left of it to write back. */
  lemma GatheredLoad<V(!new)>(mem: seq<Block<V>>, stash: seq<Block<V>>, cfg: Config<V>, height: nat, leaf: nat,
                              removed: Option<Payload>)
    requires height <= MAX_TREE_HEIGHT && LeafAt(leaf, height) && WellFormed(mem, stash, cfg, height)
    ensures Shape(mem, cfg.z, height)
    ensures |Live(Elsewhere(mem, cfg, height, leaf))|
              + |Live(Remaining(Merged(mem, stash, cfg, height, leaf), removed))| <= Load(mem, stash)
  {
    hide Live, Slots, LeafAt, SortedByKey, Reduced, AllDummies, Shape, Removed;
    WellFormedShape(mem, stash, cfg, height);
    var k := Slots(height + 1, cfg.z);
    var off, path, g := Elsewhere(mem, cfg, height, leaf), RootFirst(mem, cfg.z, height, leaf, height + 1),
        Gathered(mem, stash, cfg, height, leaf);
    SplitPath(mem, cfg.z, height, leaf, height + 1, cfg.Dummy());
    SamePathContents(mem, cfg.z, height, leaf, height + 1);
    assert |multiset(Live(mem))| == |multiset(Live(off))| + |multiset(Live(path))|;
    LiveConcat(path, stash[k..]);
    assert stash == stash[..k] + stash[k..];
    LiveConcat(stash[..k], stash[k..]);
    var t := SortedByKey(g, RankKey(leaf, height));
    SortedByKeyIsSorted(g, RankKey(leaf, height));
    LivePermutes(t, g);
    RemainingLive(cfg.values, t, removed);
  }

  lemma RemainingLive<V>(m: Values<V>, t: seq<Block<V>>, removed: Option<Payload>)
    ensures |Live(Remaining(Reduced(m, t), removed))| <= |Live(t)|
  {
    hide Live, Reduced;
    var r := Reduced(m, t);
    forall i | 0 <= i < |r| && r[i].Real() ensures t[i].Real() { Survives(m, t, i); }
    FewerLive(r, t);
    if removed.Some? { FewerLive(Removed(r, removed.value), r); }
  }

  /** With fewer blocks than overflow slots an access succeeds. */
  lemma RoomToAccess<V(!new)>(mem: seq<Block<V>>, stash: seq<Block<V>>, cfg: Config<V>, height: nat, leaf: nat,
                              removed: Option<Payload>)
    requires height <= MAX_TREE_HEIGHT && LeafAt(leaf, height) && WellFormed(mem, stash, cfg, height)
    requires Load(mem, stash) < cfg.s
    ensures CanAccess(mem, stash, cfg, height, leaf, removed)
  {
    hide Live, LeafAt, WellFormed, Merged, Overflow, Remaining, Elsewhere, LevelOf;
    GatheredLoad(mem, stash, cfg, height, leaf, removed);
    var l := Live(Remaining(Merged(mem, stash, cfg, height, leaf), removed));
    CountsAddUp(LevelsOf(l, leaf, height), cfg.z, height);
  }

  /** An access never adds blocks. */
  lemma AccessLoad<V(!new)>(mem: seq<Block<V>>, stash: seq<Block<V>>, mem': seq<Block<V>>, stash': seq<Block<V>>,
                            cfg: Config<V>, height: nat, leaf: nat, removed: Option<Payload>)
    requires height <= MAX_TREE_HEIGHT && LeafAt(leaf, height) && WellFormed(mem, stash, cfg, height)
    requires WrittenBack(mem, stash, mem', stash', cfg, height, leaf, removed)
    ensures Load(mem', stash') <= Load(mem, stash)
  {
    hide Live, LeafAt, WellFormed, Merged, Remaining, Blanked, Shape, AgreeOffPath, LaidOut, PathBucketIs, Slots;
    GatheredLoad(mem, stash, cfg, height, leaf, removed);
    var s := Remaining(Merged(mem, stash, cfg, height, leaf), removed);
    var laid :| WroteBack(s, stash', mem, mem', laid, cfg, leaf, height);
    WroteBackConserves(s, stash', mem, mem', laid, cfg, leaf, height);
    AgreeOffPathBlanked(mem, mem', cfg.z, height, leaf, cfg.Dummy());
    SplitPath(mem', cfg.z, height, leaf, height + 1, cfg.Dummy());
    var off, path := Elsewhere(mem, cfg, height, leaf), LeafFirst(mem', cfg.z, height, leaf, height + 1);
    assert |multiset(Live(mem'))| == |multiset(Live(off))| + |multiset(Live(path))|;
    assert |multiset(Live(path))| + |multiset(Live(stash'))| == |multiset(Live(s))|;
  }

  /** Both, for an access that has succeeded or not. */
  lemma LoadKept<V(!new)>(mem: seq<Block<V>>, stash: seq<Block<V>>, mem': seq<Block<V>>, stash': seq<Block<V>>,
                          cfg: Config<V>, height: nat, leaf: nat, removed: Option<Payload>, ok: bool)
    requires height <= MAX_TREE_HEIGHT && LeafAt(leaf, height) && WellFormed(mem, stash, cfg, height)
    requires ok ==> WrittenBack(mem, stash, mem', stash', cfg, height, leaf, removed)
    ensures Load(mem, stash) < cfg.s ==> CanAccess(mem, stash, cfg, height, leaf, removed)
    ensures ok ==> Load(mem', stash') <= Load(mem, stash)
  {
    hide LeafAt, WellFormed, WrittenBack, CanAccess, Load;
    if Load(mem, stash) < cfg.s { RoomToAccess(mem, stash, cfg, height, leaf, removed); }
    if ok { AccessLoad(mem, stash, mem', stash', cfg, height, leaf, removed); }
  }

  /** With fewer blocks than overflow slots there is a free one, and filling it adds one block. */
  lemma RoomToInsert<V>(mem: seq<Block<V>>, stash: seq<Block<V>>, cfg: Config<V>, height: nat, b: Block<V>)
    requires height <= MAX_TREE_HEIGHT && WellFormed(mem, stash, cfg, height)
    ensures var i := FreeSlot(stash, Slots(height + 1, cfg.z));
      && (Load(mem, stash) < cfg.s ==> i < |stash|)
      && (i < |stash| ==> Load(mem, stash[i := b]) <= Load(mem, stash) + 1)
  {
    hide Live, Slots, PathInvariant, AllDummies;
    var k := Slots(height + 1, cfg.z);
    var i := FreeSlot(stash, k);
    if i == |stash| {
      assert stash == stash[..k] + stash[k..];
      LiveConcat(stash[..k], stash[k..]);
      LiveAll(stash[k..]);
    } else {
      SlotFilled(stash, i, b);
      assert |multiset(Live(stash[i := b]))| == |multiset(Live(stash))| + |multiset(Live([b]))|;
    }
  }

  /** The same for a batch. */
  lemma RoomForBatch<V>(mem: seq<Block<V>>, stash: seq<Block<V>>, stash': seq<Block<V>>, us: seq<Update<V>>,
                        epoch: Byte, cfg: Config<V>, height: nat)
    requires height <= MAX_TREE_HEIGHT && WellFormed(mem, stash, cfg, height) && |stash'| == |stash|
    ensures var k, batch := Slots(height + 1, cfg.z), Live(UpdateBlocks(us, epoch, cfg.Dummy()));
      && |stash| == k + cfg.s
      && (Load(mem, stash) + EffectiveCount(us) <= cfg.s ==> |Live(stash[k..]) + batch| <= cfg.s)
      && (stash'[..k] == stash[..k] && Live(stash'[k..]) == Live(stash[k..]) + batch
          ==> Load(mem, stash') <= Load(mem, stash) + EffectiveCount(us))
  {
    hide Live, Slots, PathInvariant, AllDummies;
    EffectiveLive(us, epoch, cfg.Dummy());
    var k, batch := Slots(height + 1, cfg.z), UpdateBlocks(us, epoch, cfg.Dummy());
    assert stash == stash[..k] + stash[k..] && stash' == stash'[..k] + stash'[k..];
    LiveConcat(stash[..k], stash[k..]);
    LiveConcat(stash'[..k], stash'[k..]);
  }

  lemma GrowLoad<V>(mem: seq<Block<V>>, extra: seq<Block<V>>, stash: seq<Block<V>>, cfg: Config<V>, height: nat)
    requires AllDummies(extra) && Slots(height + 1, cfg.z) <= |stash|
    ensures Load(mem + extra, Extended(stash, cfg, height)) == Load(mem, stash)
  {
    hide Live, Slots, Extended;
    LiveConcat(mem, extra);
    LiveNone(extra);
    ExtendedLive(stash, cfg, height);
  }

  lemma ExtendedLive<V>(stash: seq<Block<V>>, cfg: Config<V>, height: nat)
    requires Slots(height + 1, cfg.z) <= |stash|
    ensures Live(Extended(stash, cfg, height)) == Live(stash)
  {
    hide Live, Slots;
    LiveAround(stash, Slots(height + 1, cfg.z), Dummies(cfg.z, cfg.Dummy()));
  }

  lemma LiveAround<V>(s: seq<Block<V>>, k: nat, d: seq<Block<V>>)
    requires k <= |s| && AllDummies(d)
    ensures Live(s[..k] + d + s[k..]) == Live(s)
  {
    hide Live;
    var path, rest := s[..k], s[k..];
    assert s == path + rest;
    LiveNone(d);
    LiveConcat(path, d);
    LiveConcat(path + d, rest);
    LiveConcat(path, rest);
  }

  lemma NothingHeld<V>(mem: seq<Block<V>>, stash: seq<Block<V>>, dummy: Block<V>)
    requires mem == Dummies(|mem|, dummy) && stash == Dummies(|stash|, dummy) && !dummy.Real()
    ensures Load(mem, stash) == 0
  {
    LiveNone(mem);
    LiveNone(stash);
  }
}
