/**
  How operations change what a histogram holds: what inserting, accessing a path and
  growing each do to the totals of all keys and to the keys present.
 */
module Contents {
  import opened Wrappers
  import opened Blocks
  import opened Reduction
  import opened Routing
  import opened Greedy
  import opened SortReduce
  import opened Tree
  import opened Layout
  import opened Stash
  import opened Access
  import opened Readout
  import opened Presence

  // ---- Updates --------------------------------------------------------------------------------------

  /** An update counts when it is real and its tag is not the dummies' tag. */
  predicate Effective<V>(u: Update<V>) { u.isReal && u.tag != 0 }

  function Share<V>(m: Values<V>, u: Update<V>, p: Payload): V {
    if Effective(u) && u.payload == p then u.value else m.zero
  }

  ghost function UpdatesTotal<V>(m: Values<V>, us: seq<Update<V>>, p: Payload): V {
    if us == [] then m.zero else m.plus(UpdatesTotal(m, us[..|us| - 1], p), Share(m, us[|us| - 1], p))
  }

  ghost predicate UpdatesKnown<V>(us: seq<Update<V>>, ids: Ids) {
    forall i :: 0 <= i < |us| && Effective(us[i]) ==> (us[i].tag, us[i].payload) in ids
  }

  /** Some of the updates counts and carries `p`. */
  ghost predicate Brings<V>(us: seq<Update<V>>, p: Payload) {
    exists i :: 0 <= i < |us| && Effective(us[i]) && us[i].payload == p
  }

  lemma BringsBoth<V>(us: seq<Update<V>>, vs: seq<Update<V>>, p: Payload)
    ensures Brings(us + vs, p) <==> Brings(us, p) || Brings(vs, p)
  {
    if i :| 0 <= i < |us| && Effective(us[i]) && us[i].payload == p { assert (us + vs)[i] == us[i]; }
    if i :| 0 <= i < |vs| && Effective(vs[i]) && vs[i].payload == p { assert (us + vs)[|us| + i] == vs[i]; }
  }

  lemma UpdateBlocksPresent<V>(us: seq<Update<V>>, epoch: Byte, dummy: Block<V>, p: Payload)
    requires !dummy.Real()
    ensures MatchCount(UpdateBlocks(us, epoch, dummy), p) > 0 <==> Brings(us, p)
  {
    hide MatchCount;
    var b := UpdateBlocks(us, epoch, dummy);
    CountPresent(b, p);
    if i :| 0 <= i < |us| && Effective(us[i]) && us[i].payload == p { assert Matches(b[i], p); }
    if i :| 0 <= i < |b| && Matches(b[i], p) { assert Effective(us[i]) && us[i].payload == p; }
  }

  /** How many of the updates count. */
  ghost function EffectiveCount<V>(us: seq<Update<V>>): (n: nat)
    ensures n <= |us|
  {
    if us == [] then 0 else EffectiveCount(us[..|us| - 1]) + if Effective(us[|us| - 1]) then 1 else 0
  }

  lemma {:induction false} EffectiveConcat<V>(us: seq<Update<V>>, vs: seq<Update<V>>)
    ensures EffectiveCount(us + vs) == EffectiveCount(us) + EffectiveCount(vs)
  {
    if vs == [] {
      assert us + vs == us;
    } else {
      assert (us + vs)[..|us + vs| - 1] == us + vs[..|vs| - 1];
      EffectiveConcat(us, vs[..|vs| - 1]);
    }
  }

  lemma {:induction false} EffectiveLive<V>(us: seq<Update<V>>, epoch: Byte, dummy: Block<V>)
    requires !dummy.Real()
    ensures |Live(UpdateBlocks(us, epoch, dummy))| == EffectiveCount(us)
  {
    if us != [] {
      var n := |us| - 1;
      EffectiveLive(us[..n], epoch, dummy);
      assert UpdateBlocks(us, epoch, dummy)[..n] == UpdateBlocks(us[..n], epoch, dummy);
    }
  }

  lemma {:induction false} UpdatesTotalConcat<V(!new)>(m: Values<V>, us: seq<Update<V>>, vs: seq<Update<V>>, p: Payload)
    requires Lawful(m)
    ensures UpdatesTotal(m, us + vs, p) == m.plus(UpdatesTotal(m, us, p), UpdatesTotal(m, vs, p))
  {
    if vs == [] {
      assert us + vs == us;
      Laws(m, UpdatesTotal(m, us, p), m.zero, m.zero);
    } else {
      var vs', x := vs[..|vs| - 1], vs[|vs| - 1];
      assert (us + vs)[..|us + vs| - 1] == us + vs';
      UpdatesTotalConcat(m, us, vs', p);
      Laws(m, UpdatesTotal(m, us, p), UpdatesTotal(m, vs', p), Share(m, x, p));
    }
  }

  lemma {:induction false} UpdateBlocksTotal<V(!new)>(m: Values<V>, us: seq<Update<V>>, epoch: Byte, dummy: Block<V>,
                                                      p: Payload)
    requires !dummy.Real()
    ensures Total(m, UpdateBlocks(us, epoch, dummy), p) == UpdatesTotal(m, us, p)
  {
    if us != [] {
      var n := |us| - 1;
      UpdateBlocksTotal(m, us[..n], epoch, dummy, p);
      assert UpdateBlocks(us, epoch, dummy)[..n] == UpdateBlocks(us[..n], epoch, dummy);
    }
  }

  // ---- Absorbing updates -------------------------------------------------------------------------------

  /**
    Afterwards every total is what it was with the updates' share added; no other keys have
    come in, and none has gone.
   */
  ghost predicate Absorbed<V(!new)>(m: Values<V>, mem: seq<Block<V>>, stash: seq<Block<V>>, mem': seq<Block<V>>,
                                    stash': seq<Block<V>>, us: seq<Update<V>>)
  {
    && (forall p :: StateTotal(m, mem', stash', p) == m.plus(StateTotal(m, mem, stash, p), UpdatesTotal(m, us, p)))
    && (forall ids {:trigger Known(mem', ids)} :: Known(mem, ids) && Known(stash, ids) && UpdatesKnown(us, ids) ==>
          Known(mem', ids) && Known(stash', ids))
    && (forall p :: Stored(mem', stash', p) <==> Stored(mem, stash, p) || Brings(us, p))
  }

  lemma AbsorbedThen<V(!new)>(m: Values<V>, mem: seq<Block<V>>, stash: seq<Block<V>>, mem1: seq<Block<V>>,
                              stash1: seq<Block<V>>, mem2: seq<Block<V>>, stash2: seq<Block<V>>, us: seq<Update<V>>,
                              vs: seq<Update<V>>)
    requires Lawful(m) && Absorbed(m, mem, stash, mem1, stash1, us) && Absorbed(m, mem1, stash1, mem2, stash2, vs)
    ensures Absorbed(m, mem, stash, mem2, stash2, us + vs)
  {
    hide StateTotal, UpdatesTotal, Known, Lawful, Stored, Brings;
    forall p ensures Stored(mem2, stash2, p) <==> Stored(mem, stash, p) || Brings(us + vs, p) { BringsBoth(us, vs, p); }
    forall p
      ensures StateTotal(m, mem2, stash2, p) == m.plus(StateTotal(m, mem, stash, p), UpdatesTotal(m, us + vs, p))
    {
      UpdatesTotalConcat(m, us, vs, p);
      Laws(m, StateTotal(m, mem, stash, p), UpdatesTotal(m, us, p), UpdatesTotal(m, vs, p));
    }
    forall ids | Known(mem, ids) && Known(stash, ids) && UpdatesKnown(us + vs, ids)
      ensures Known(mem2, ids) && Known(stash2, ids)
    {
      UpdatesKnownBoth(us, vs, ids);
      assert Known(mem1, ids);
    }
  }

  lemma UpdatesKnownBoth<V>(us: seq<Update<V>>, vs: seq<Update<V>>, ids: Ids)
    ensures UpdatesKnown(us + vs, ids) <==> UpdatesKnown(us, ids) && UpdatesKnown(vs, ids)
  {
    if UpdatesKnown(us + vs, ids) {
      forall i | 0 <= i < |us| ensures us[i] == (us + vs)[i] {}
      forall i | 0 <= i < |vs| ensures vs[i] == (us + vs)[|us| + i] {}
    }
  }

  lemma NoUpdates<V(!new)>(m: Values<V>, v: V, p: Payload)
    requires Lawful(m)
    ensures UpdatesTotal(m, [], p) == m.zero && m.plus(v, UpdatesTotal(m, [], p)) == v
  {
    hide Lawful;
    Laws(m, v, m.zero, m.zero);
  }

  lemma NothingAbsorbed<V(!new)>(m: Values<V>, mem: seq<Block<V>>, stash: seq<Block<V>>)
    requires Lawful(m)
    ensures Absorbed(m, mem, stash, mem, stash, [])
  {
    hide StateTotal, Known, Lawful, UpdatesTotal, Stored;
    forall p ensures StateTotal(m, mem, stash, p) == m.plus(StateTotal(m, mem, stash, p), UpdatesTotal(m, [], p)) {
      NoUpdates(m, StateTotal(m, mem, stash, p), p);
    }
  }

  // ---- Inserting ------------------------------------------------------------------------------------------

  /** A stash whose real blocks are the old ones and those of the updates. */
  lemma Gained<V(!new)>(m: Values<V>, mem: seq<Block<V>>, stash: seq<Block<V>>, stash': seq<Block<V>>,
                        us: seq<Update<V>>, epoch: Byte, dummy: Block<V>)
    requires Lawful(m) && !dummy.Real()
    requires multiset(Live(stash')) == multiset(Live(stash)) + multiset(Live(UpdateBlocks(us, epoch, dummy)))
    ensures Absorbed(m, mem, stash, mem, stash', us)
  {
    hide Live, Total, UpdatesTotal, Known, Lawful, MatchCount, Brings;
    var b := UpdateBlocks(us, epoch, dummy);
    LiveConcat(stash, b);
    forall p ensures Stored(mem, stash', p) <==> Stored(mem, stash, p) || Brings(us, p) {
      SamePresent(stash', stash + b, p);
      CountConcat(stash, b, p);
      UpdateBlocksPresent(us, epoch, dummy, p);
    }
    forall p ensures StateTotal(m, mem, stash', p) == m.plus(StateTotal(m, mem, stash, p), UpdatesTotal(m, us, p)) {
      TotalOfLive(m, stash', stash + b, p);
      TotalConcat(m, stash, b, p);
      UpdateBlocksTotal(m, us, epoch, dummy, p);
      Laws(m, Total(m, mem, p), Total(m, stash, p), Total(m, b, p));
    }
    forall ids | Known(mem, ids) && Known(stash, ids) && UpdatesKnown(us, ids) ensures Known(stash', ids) {
      UpdateBlocksKnown(us, epoch, dummy, ids);
      KnownBoth(stash, b, ids);
      KnownSubset(stash', stash + b, ids);
    }
  }

  lemma UpdateBlocksKnown<V>(us: seq<Update<V>>, epoch: Byte, dummy: Block<V>, ids: Ids)
    requires !dummy.Real() && UpdatesKnown(us, ids)
    ensures Known(UpdateBlocks(us, epoch, dummy), ids)
  {
  }

  /** A block put into a free slot. */
  lemma OneGained<V(!new)>(m: Values<V>, mem: seq<Block<V>>, stash: seq<Block<V>>, i: nat, u: Update<V>, epoch: Byte,
                           dummy: Block<V>)
    requires Lawful(m) && !dummy.Real() && i < |stash| && !stash[i].Real() && u.isReal
    ensures Absorbed(m, mem, stash, mem, stash[i := Block(u.tag, epoch, u.value, u.payload)], [u])
  {
    hide Live, Absorbed, Lawful;
    var b := Block(u.tag, epoch, u.value, u.payload);
    assert UpdateBlocks([u], epoch, dummy) == [b];
    SlotFilled(stash, i, b);
    Gained(m, mem, stash, stash[i := b], [u], epoch, dummy);
  }

  lemma SlotFilled<V>(s: seq<Block<V>>, i: nat, b: Block<V>)
    requires i < |s| && !s[i].Real()
    ensures multiset(Live(s[i := b])) == multiset(Live(s)) + multiset(Live([b]))
  {
    hide Live;
    var l, r := s[..i], s[i + 1..];
    assert s == l + [s[i]] + r && s[i := b] == l + [b] + r;
    LiveConcat(l + [s[i]], r);
    LiveConcat(l, [s[i]]);
    LiveConcat(l + [b], r);
    LiveConcat(l, [b]);
    LiveNone([s[i]]);
  }

  /** A window of updates compacted into the overflow. */
  lemma BatchGained<V(!new)>(mem: seq<Block<V>>, stash: seq<Block<V>>, stash': seq<Block<V>>, us: seq<Update<V>>,
                             epoch: Byte, cfg: Config<V>, height: nat)
    requires Lawful(cfg.values) && height <= MAX_TREE_HEIGHT && WellFormed(mem, stash, cfg, height)
    requires |stash'| == |stash|
    requires var k := Slots(height + 1, cfg.z);
      && stash'[..k] == stash[..k]
      && Live(stash'[k..]) == Live(stash[k..]) + Live(UpdateBlocks(us, epoch, cfg.Dummy()))
    ensures WellFormed(mem, stash', cfg, height) && Absorbed(cfg.values, mem, stash, mem, stash', us)
  {
    hide Live, Absorbed, Lawful, Slots, AllDummies, PathInvariant;
    var k := Slots(height + 1, cfg.z);
    assert stash == stash[..k] + stash[k..] && stash' == stash[..k] + stash'[k..];
    LiveConcat(stash[..k], stash[k..]);
    LiveConcat(stash[..k], stash'[k..]);
    Gained(cfg.values, mem, stash, stash', us, epoch, cfg.Dummy());
  }

  lemma InsertKeeps<V>(mem: seq<Block<V>>, stash: seq<Block<V>>, i: nat, b: Block<V>, cfg: Config<V>, height: nat)
    requires height <= MAX_TREE_HEIGHT && WellFormed(mem, stash, cfg, height)
    requires Slots(height + 1, cfg.z) <= i < |stash|
    ensures WellFormed(mem, stash[i := b], cfg, height)
  {
    hide Slots, PathInvariant;
    assert stash[i := b][..Slots(height + 1, cfg.z)] == stash[..Slots(height + 1, cfg.z)];
  }

  // ---- Accesses ----------------------------------------------------------------------------------------------

  ghost function Remaining<V>(s: seq<Block<V>>, removed: Option<Payload>): (r: seq<Block<V>>)
    ensures |r| == |s|
  {
    match removed case None => s case Some(p) => Removed(s, p)
  }

  /** The access leaves a free overflow slot; otherwise it fails. */
  ghost predicate CanAccess<V>(mem: seq<Block<V>>, stash: seq<Block<V>>, cfg: Config<V>, height: nat, leaf: nat,
                               removed: Option<Payload>)
    requires height <= MAX_TREE_HEIGHT && LeafAt(leaf, height) && WellFormed(mem, stash, cfg, height)
  {
    var l := Live(Remaining(Merged(mem, stash, cfg, height, leaf), removed));
    Overflow(LevelsOf(l, leaf, height), cfg.z, height) < cfg.s
  }

  /** The merged path, without the removed key, has been laid out and written back. */
  ghost predicate WrittenBack<V(!new)>(mem: seq<Block<V>>, stash: seq<Block<V>>, mem': seq<Block<V>>,
                                       stash': seq<Block<V>>, cfg: Config<V>, height: nat, leaf: nat,
                                       removed: Option<Payload>)
    requires height <= MAX_TREE_HEIGHT && LeafAt(leaf, height) && WellFormed(mem, stash, cfg, height)
  {
    exists laid :: WroteBack(Remaining(Merged(mem, stash, cfg, height, leaf), removed), stash', mem, mem', laid, cfg,
                             leaf, height)
  }

  /** The state after an access to the path of `leaf`: only that path and the overflow may have changed. */
  ghost predicate Accessed<V(!new)>(mem: seq<Block<V>>, stash: seq<Block<V>>, mem': seq<Block<V>>,
                                    stash': seq<Block<V>>, cfg: Config<V>, height: nat, leaf: nat,
                                    removed: Option<Payload>)
    requires height <= MAX_TREE_HEIGHT && LeafAt(leaf, height) && WellFormed(mem, stash, cfg, height)
  {
    && WellFormed(mem', stash', cfg, height)
    && AgreeOffPath(mem, mem', cfg.z, height, leaf)
    && (forall p :: StateTotal(cfg.values, mem', stash', p)
                 == if removed == Some(p) then Total(cfg.values, Elsewhere(mem, cfg, height, leaf), p)
                    else StateTotal(cfg.values, mem, stash, p))
    && (forall ids {:trigger Known(mem', ids)} ::
          Known(mem, ids) && Known(stash, ids) ==> Known(mem', ids) && Known(stash', ids))
    && (forall p :: Stored(mem', stash', p)
               <==> if removed == Some(p) then MatchCount(Elsewhere(mem, cfg, height, leaf), p) > 0
                    else Stored(mem, stash, p))
  }

  lemma AccessedSums<V(!new)>(mem: seq<Block<V>>, stash: seq<Block<V>>, mem': seq<Block<V>>, stash': seq<Block<V>>,
                              cfg: Config<V>, height: nat, leaf: nat, p: Payload)
    requires height <= MAX_TREE_HEIGHT && LeafAt(leaf, height) && WellFormed(mem, stash, cfg, height)
    requires Shape(mem, cfg.z, height)
    requires Accessed(mem, stash, mem', stash', cfg, height, leaf, Some(p))
    ensures WellFormed(mem', stash', cfg, height)
    ensures forall q :: q != p ==> StateTotal(cfg.values, mem', stash', q) == StateTotal(cfg.values, mem, stash, q)
    ensures StateTotal(cfg.values, mem', stash', p) == Total(cfg.values, Elsewhere(mem, cfg, height, leaf), p)
    ensures forall ids :: Known(mem, ids) && Known(stash, ids) ==> Known(mem', ids) && Known(stash', ids)
    ensures forall q :: q != p ==> (Stored(mem', stash', q) <==> Stored(mem, stash, q))
    ensures Stored(mem', stash', p) <==> MatchCount(Elsewhere(mem, cfg, height, leaf), p) > 0
  {
    hide WellFormed, StateTotal, Known, AgreeOffPath, Elsewhere, Stored, MatchCount;
  }

  lemma AccessDone<V(!new)>(mem: seq<Block<V>>, stash: seq<Block<V>>, after: seq<Block<V>>, mem': seq<Block<V>>,
                            laid: seq<Block<V>>, cfg: Config<V>, height: nat, leaf: nat, removed: Option<Payload>)
    requires Lawful(cfg.values) && height <= MAX_TREE_HEIGHT && LeafAt(leaf, height)
    requires WellFormed(mem, stash, cfg, height)
    requires WroteBack(Remaining(Merged(mem, stash, cfg, height, leaf), removed), after, mem, mem', laid, cfg, leaf,
                       height)
    ensures Accessed(mem, stash, mem', after, cfg, height, leaf, removed)
  {
    hide Slots, Lawful, LeafAt, Total, LaidOut, PathBucketIs, AgreeOffPath, Reduced, SortedByKey, RankedForPath,
         Removed, Known, AllDummies, StateTotal, Elsewhere, Stored, MatchCount, Gathered;
    var merged := Merged(mem, stash, cfg, height, leaf);
    var s := Remaining(merged, removed);
    MergedIsRanked(cfg.values, Gathered(mem, stash, cfg, height, leaf), leaf, height);
    if removed.Some? { RemovedIsRanked(merged, removed.value, leaf, height); }
    AccessKeeps(mem, stash, s, after, mem', laid, cfg, height, leaf);
    forall p ensures StateTotal(cfg.values, mem', after, p)
                  == if removed == Some(p) then Total(cfg.values, Elsewhere(mem, cfg, height, leaf), p)
                     else StateTotal(cfg.values, mem, stash, p)
    {
      WrittenTotals(mem, s, after, mem', laid, cfg, height, leaf, p);
      GatheredTotals(mem, stash, cfg, height, leaf, p);
      SortReduceKeepsTotals(cfg.values, Gathered(mem, stash, cfg, height, leaf), RankKey(leaf, height), p);
      if removed.Some? { RemovedTotals(cfg.values, merged, removed.value, p); }
      Laws(cfg.values, Total(cfg.values, Elsewhere(mem, cfg, height, leaf), p), cfg.values.zero, cfg.values.zero);
    }
    forall p ensures Stored(mem', after, p)
                <==> if removed == Some(p) then MatchCount(Elsewhere(mem, cfg, height, leaf), p) > 0
                     else Stored(mem, stash, p)
    {
      WrittenStored(mem, s, after, mem', laid, cfg, height, leaf, p);
      GatheredStored(mem, stash, cfg, height, leaf, p);
      MergedPresent(mem, stash, cfg, height, leaf, p);
      if removed.Some? { RemovedPresent(merged, removed.value, p); }
    }
    forall ids | Known(mem, ids) && Known(stash, ids) ensures Known(mem', ids) && Known(after, ids) {
      MergedKnown(mem, stash, cfg, height, leaf, ids);
      if removed.Some? { RemovedKnown(merged, removed.value, ids); }
      AccessKnown(mem, s, after, mem', laid, cfg, height, leaf, ids);
    }
  }

  lemma AccessAbsorbsNothing<V(!new)>(mem: seq<Block<V>>, stash: seq<Block<V>>, mem': seq<Block<V>>,
                                      stash': seq<Block<V>>, cfg: Config<V>, height: nat, leaf: nat)
    requires Lawful(cfg.values) && height <= MAX_TREE_HEIGHT && LeafAt(leaf, height)
    requires WellFormed(mem, stash, cfg, height)
    requires Accessed(mem, stash, mem', stash', cfg, height, leaf, None)
    ensures Absorbed(cfg.values, mem, stash, mem', stash', [])
  {
    hide StateTotal, Known, Lawful, WellFormed, AgreeOffPath, UpdatesTotal, Stored, MatchCount;
    forall p ensures StateTotal(cfg.values, mem', stash', p)
                  == cfg.values.plus(StateTotal(cfg.values, mem, stash, p), UpdatesTotal(cfg.values, [], p))
    {
      NoUpdates(cfg.values, StateTotal(cfg.values, mem, stash, p), p);
    }
    forall ids | Known(mem, ids) && Known(stash, ids) ensures Known(mem', ids) && Known(stash', ids) {}
  }

  // ---- Growing -----------------------------------------------------------------------------------------------

  /** The stash with room for one more bucket in its path buffer. */
  ghost function Extended<V>(stash: seq<Block<V>>, cfg: Config<V>, height: nat): seq<Block<V>>
    requires Slots(height + 1, cfg.z) <= |stash|
  {
    stash[..Slots(height + 1, cfg.z)] + Dummies(cfg.z, cfg.Dummy()) + stash[Slots(height + 1, cfg.z)..]
  }

  lemma GrowKeeps<V(!new)>(mem: seq<Block<V>>, extra: seq<Block<V>>, stash: seq<Block<V>>, cfg: Config<V>, height: nat)
    requires Lawful(cfg.values) && height < MAX_TREE_HEIGHT && WellFormed(mem, stash, cfg, height)
    requires |extra| == |mem| && AllDummies(extra)
    ensures WellFormed(mem + extra, Extended(stash, cfg, height), cfg, height + 1)
    ensures Absorbed(cfg.values, mem, stash, mem + extra, Extended(stash, cfg, height), [])
  {
    hide Slots, Lawful, PathInvariant, Absorbed, Live;
    var k, stash' := Slots(height + 1, cfg.z), Extended(stash, cfg, height);
    SlotsNext(height + 1, cfg.z);
    GrowKeepsInvariant(mem, extra, cfg.z, height);
    assert stash'[..Slots(height + 2, cfg.z)] == stash[..k] + Dummies(cfg.z, cfg.Dummy());
    assert stash == stash[..k] + stash[k..];
    LiveConcat(stash[..k], stash[k..]);
    LiveConcat(stash[..k] + Dummies(cfg.z, cfg.Dummy()), stash[k..]);
    LiveConcat(stash[..k], Dummies(cfg.z, cfg.Dummy()));
    LiveNone(Dummies(cfg.z, cfg.Dummy()));
    SameLiveAbsorbs(cfg.values, mem, stash, mem + extra, stash');
  }

  lemma SameLiveAbsorbs<V(!new)>(m: Values<V>, mem: seq<Block<V>>, stash: seq<Block<V>>, mem': seq<Block<V>>,
                                 stash': seq<Block<V>>)
    requires Lawful(m) && Live(mem') == Live(mem) && Live(stash') == Live(stash)
    ensures Absorbed(m, mem, stash, mem', stash', [])
  {
    hide Lawful, Total, Live, Known, UpdatesTotal, MatchCount;
    forall p ensures Stored(mem', stash', p) <==> Stored(mem, stash, p) {
      SamePresent(mem', mem, p);
      SamePresent(stash', stash, p);
    }
    forall p ensures StateTotal(m, mem', stash', p) == m.plus(StateTotal(m, mem, stash, p), UpdatesTotal(m, [], p)) {
      TotalOfLive(m, mem, mem', p);
      TotalOfLive(m, stash, stash', p);
      NoUpdates(m, StateTotal(m, mem, stash, p), p);
    }
    forall ids | Known(mem, ids) && Known(stash, ids) ensures Known(mem', ids) && Known(stash', ids) {
      KnownSubset(mem', mem, ids);
      KnownSubset(stash', stash, ids);
    }
  }

  // ---- The initial state ---------------------------------------------------------------------------------------

  lemma EmptyState<V(!new)>(mem: seq<Block<V>>, stash: seq<Block<V>>, cfg: Config<V>, height: nat)
    requires Lawful(cfg.values) && height <= MAX_TREE_HEIGHT && Shape(mem, cfg.z, height)
    requires |stash| == Slots(height + 1, cfg.z) + cfg.s
    requires AllDummies(mem) && AllDummies(stash)
    ensures WellFormed(mem, stash, cfg, height)
    ensures forall p :: StateTotal(cfg.values, mem, stash, p) == cfg.values.zero
    ensures forall ids :: Known(mem, ids) && Known(stash, ids)
    ensures forall p :: !Stored(mem, stash, p)
  {
    hide Slots, Lawful, Total, LeafAt, MatchCount;
    forall p ensures !Stored(mem, stash, p) {
      DummiesAbsent(mem, p);
      DummiesAbsent(stash, p);
    }
    forall p ensures StateTotal(cfg.values, mem, stash, p) == cfg.values.zero {
      DummiesTotal(cfg.values, mem, p);
      DummiesTotal(cfg.values, stash, p);
      Laws(cfg.values, cfg.values.zero, cfg.values.zero, cfg.values.zero);
    }
    NodeHasBucket(mem, cfg.z, height, 0);
    forall d: nat, node: nat | d <= height && LeafAt(node, d) ensures NodeOk(mem, cfg.z, node, d) {
      LevelHasBucket(mem, cfg.z, height, node, d);
    }
  }
}
