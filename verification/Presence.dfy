/**
  Which keys are stored at all, whatever their values: how an access keeps every key but
  the one it removes.
 */
module Presence {
  import opened Blocks
  import opened Reduction
  import opened Routing
  import opened SortReduce
  import opened Tree
  import opened Layout
  import opened Stash
  import opened Access
  import opened Readout

  /** Some block of the tree or the stash carries `p`. */
  ghost predicate Stored<V>(mem: seq<Block<V>>, stash: seq<Block<V>>, p: Payload) {
    MatchCount(mem, p) > 0 || MatchCount(stash, p) > 0
  }

  lemma SamePresent<V>(s: seq<Block<V>>, t: seq<Block<V>>, p: Payload)
    requires multiset(Live(s)) == multiset(Live(t))
    ensures MatchCount(s, p) > 0 <==> MatchCount(t, p) > 0
  {
    hide Live, MatchCount;
    CountLive(s, p);
    CountLive(t, p);
    CountPermutes(Live(s), Live(t), p);
  }

  lemma DummiesAbsent<V>(s: seq<Block<V>>, p: Payload)
    requires AllDummies(s)
    ensures MatchCount(s, p) == 0
  {
    CountLive(s, p);
    LiveNone(s);
  }

  lemma ReducedPresent<V>(m: Values<V>, s: seq<Block<V>>, p: Payload)
    ensures MatchCount(Reduced(m, s), p) > 0 <==> MatchCount(s, p) > 0
  {
    hide Reduced, MatchCount;
    var r := Reduced(m, s);
    CountPresent(s, p);
    CountPresent(r, p);
    if i :| 0 <= i < |s| && Matches(s[i], p) { SomeSurvives(m, s, p, i); }
    if i :| 0 <= i < |r| && Matches(r[i], p) {
      Survives(m, s, i);
      assert Matches(s[i], p);
    }
  }

  lemma RemovedPresent<V>(s: seq<Block<V>>, q: Payload, p: Payload)
    ensures MatchCount(Removed(s, q), p) > 0 <==> p != q && MatchCount(s, p) > 0
  {
    hide MatchCount;
    var r := Removed(s, q);
    CountPresent(s, p);
    CountPresent(r, p);
    if p != q {
      if i :| 0 <= i < |s| && Matches(s[i], p) { assert Matches(r[i], p); }
      if i :| 0 <= i < |r| && Matches(r[i], p) { assert Matches(s[i], p); }
    }
  }

  /** A stored key is off the path or among what an access gathers. */
  lemma GatheredStored<V(!new)>(mem: seq<Block<V>>, stash: seq<Block<V>>, cfg: Config<V>, height: nat, leaf: nat,
                                p: Payload)
    requires height <= MAX_TREE_HEIGHT && LeafAt(leaf, height) && WellFormed(mem, stash, cfg, height)
    ensures Shape(mem, cfg.z, height)
    ensures Stored(mem, stash, p) <==> MatchCount(Elsewhere(mem, cfg, height, leaf), p) > 0
                                       || MatchCount(Gathered(mem, stash, cfg, height, leaf), p) > 0
  {
    hide Slots, Live, LeafAt, AllDummies, Blanked, MatchCount;
    var k := Slots(height + 1, cfg.z);
    var off, path := Elsewhere(mem, cfg, height, leaf), RootFirst(mem, cfg.z, height, leaf, height + 1);
    SplitPath(mem, cfg.z, height, leaf, height + 1, cfg.Dummy());
    SamePathContents(mem, cfg.z, height, leaf, height + 1);
    LiveConcat(off, path);
    SamePresent(mem, off + path, p);
    CountConcat(off, path, p);
    CountConcat(path, stash[k..], p);
    assert stash == stash[..k] + stash[k..];
    CountConcat(stash[..k], stash[k..], p);
    DummiesAbsent(stash[..k], p);
  }

  /** Merging loses no key and invents none. */
  lemma MergedPresent<V(!new)>(mem: seq<Block<V>>, stash: seq<Block<V>>, cfg: Config<V>, height: nat, leaf: nat,
                               p: Payload)
    requires height <= MAX_TREE_HEIGHT && LeafAt(leaf, height) && WellFormed(mem, stash, cfg, height)
    ensures MatchCount(Merged(mem, stash, cfg, height, leaf), p) > 0
       <==> MatchCount(Gathered(mem, stash, cfg, height, leaf), p) > 0
  {
    hide SortedByKey, Reduced, MatchCount, WellFormed, LeafAt, Gathered;
    var g := Gathered(mem, stash, cfg, height, leaf);
    var t := SortedByKey(g, RankKey(leaf, height));
    SortedByKeyIsSorted(g, RankKey(leaf, height));
    CountPermutes(t, g, p);
    ReducedPresent(cfg.values, t, p);
  }

  /** After the write-back of `s` the keys are those off the path and those of `s`. */
  lemma WrittenStored<V(!new)>(mem: seq<Block<V>>, s: seq<Block<V>>, after: seq<Block<V>>, mem': seq<Block<V>>,
                               laid: seq<Block<V>>, cfg: Config<V>, height: nat, leaf: nat, p: Payload)
    requires height <= MAX_TREE_HEIGHT && LeafAt(leaf, height) && Shape(mem, cfg.z, height)
    requires WroteBack(s, after, mem, mem', laid, cfg, leaf, height)
    ensures Stored(mem', after, p) <==> MatchCount(Elsewhere(mem, cfg, height, leaf), p) > 0 || MatchCount(s, p) > 0
  {
    hide Slots, Live, LeafAt, Blanked, LaidOut, PathBucketIs, AgreeOffPath, Shape, MatchCount;
    WroteBackConserves(s, after, mem, mem', laid, cfg, leaf, height);
    AgreeOffPathBlanked(mem, mem', cfg.z, height, leaf, cfg.Dummy());
    var off, path := Elsewhere(mem', cfg, height, leaf), LeafFirst(mem', cfg.z, height, leaf, height + 1);
    SplitPath(mem', cfg.z, height, leaf, height + 1, cfg.Dummy());
    LiveConcat(off, path);
    SamePresent(mem', off + path, p);
    CountConcat(off, path, p);
    LiveConcat(path, after);
    SamePresent(path + after, s, p);
    CountConcat(path, after, p);
  }

  /** Off the path to its leaf there are no blocks of a key with one tag. */
  lemma AbsentElsewhere<V(!new)>(mem: seq<Block<V>>, cfg: Config<V>, height: nat, ids: Ids, t: Tag, p: Payload)
    requires height <= MAX_TREE_HEIGHT && PathInvariant(mem, cfg.z, height) && Known(mem, ids) && OneTag(ids, t, p)
    ensures LeafAt(AddressToLeaf(t, height), height)
    ensures MatchCount(Elsewhere(mem, cfg, height, AddressToLeaf(t, height)), p) == 0
  {
    hide MatchCount, AddressToLeaf, LeafAt, OneTag, Known;
    AddressIsLeaf(t, height);
    var off := Elsewhere(mem, cfg, height, AddressToLeaf(t, height));
    CountPresent(off, p);
    if i :| 0 <= i < |off| && Matches(off[i], p) { ElsewhereSlot(mem, cfg, height, ids, t, p, i); }
  }
}
