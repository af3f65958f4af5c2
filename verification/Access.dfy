/**
  One path access on the state of a histogram: the buckets of a path and the overflow are
  gathered, sorted and reduced, possibly relieved of one key, and written back.  Here the
  state is a pair of sequences, the tree's slots and the stash's slots.
 */
module Access {
  import opened Arithmetic
  import opened Blocks
  import opened Reduction
  import opened Routing
  import opened SortReduce
  import opened Tree
  import opened Layout
  import opened Stash

  // ---- The state between operations ---------------------------------------------------------------

  /** The shape, the path invariant, and an empty path buffer. */
  ghost predicate WellFormed<V>(mem: seq<Block<V>>, stash: seq<Block<V>>, cfg: Config<V>, height: nat)
    requires height <= MAX_TREE_HEIGHT
  {
    && PathInvariant(mem, cfg.z, height)
    && |stash| == Slots(height + 1, cfg.z) + cfg.s
    && AllDummies(stash[..Slots(height + 1, cfg.z)])
  }

  lemma WellFormedShape<V>(mem: seq<Block<V>>, stash: seq<Block<V>>, cfg: Config<V>, height: nat)
    requires height <= MAX_TREE_HEIGHT && WellFormed(mem, stash, cfg, height)
    ensures Shape(mem, cfg.z, height) && |stash| == Slots(height + 1, cfg.z) + cfg.s
  {
  }

  lemma WellFormedTree<V>(mem: seq<Block<V>>, stash: seq<Block<V>>, cfg: Config<V>, height: nat)
    requires height <= MAX_TREE_HEIGHT && WellFormed(mem, stash, cfg, height)
    ensures PathInvariant(mem, cfg.z, height)
  {
  }

  /** What tree and stash together hold for key `p`. */
  ghost function StateTotal<V>(m: Values<V>, mem: seq<Block<V>>, stash: seq<Block<V>>, p: Payload): V {
    m.plus(Total(m, mem, p), Total(m, stash, p))
  }

  /** The stash after the buckets of the path have been read in. */
  ghost function Gathered<V>(mem: seq<Block<V>>, stash: seq<Block<V>>, cfg: Config<V>, height: nat,
                             leaf: nat): (r: seq<Block<V>>)
    requires height <= MAX_TREE_HEIGHT && LeafAt(leaf, height) && WellFormed(mem, stash, cfg, height)
    ensures |r| == |stash|
  {
    RootFirst(mem, cfg.z, height, leaf, height + 1) + stash[Slots(height + 1, cfg.z)..]
  }

  ghost function Merged<V>(mem: seq<Block<V>>, stash: seq<Block<V>>, cfg: Config<V>, height: nat,
                           leaf: nat): (r: seq<Block<V>>)
    requires height <= MAX_TREE_HEIGHT && LeafAt(leaf, height) && WellFormed(mem, stash, cfg, height)
    ensures |r| == |stash|
  {
    Reduced(cfg.values, SortedByKey(Gathered(mem, stash, cfg, height, leaf), RankKey(leaf, height)))
  }

  /** The tree without the path. */
  ghost function Elsewhere<V>(mem: seq<Block<V>>, cfg: Config<V>, height: nat, leaf: nat): (r: seq<Block<V>>)
    requires Shape(mem, cfg.z, height) && LeafAt(leaf, height)
    ensures Shape(r, cfg.z, height)
  {
    Blanked(mem, cfg.z, height, leaf, height + 1, cfg.Dummy())
  }

  // ---- Totals across an access -----------------------------------------------------------------------

  /** A key's total is what lies off the path and what an access gathers. */
  lemma GatheredTotals<V(!new)>(mem: seq<Block<V>>, stash: seq<Block<V>>, cfg: Config<V>, height: nat, leaf: nat,
                                p: Payload)
    requires Lawful(cfg.values) && height <= MAX_TREE_HEIGHT && LeafAt(leaf, height)
    requires WellFormed(mem, stash, cfg, height)
    ensures StateTotal(cfg.values, mem, stash, p)
         == cfg.values.plus(Total(cfg.values, Elsewhere(mem, cfg, height, leaf), p),
                            Total(cfg.values, Gathered(mem, stash, cfg, height, leaf), p))
  {
    hide Slots, Live, Lawful, LeafAt, Total, AllDummies, Blanked;
    var m, k := cfg.values, Slots(height + 1, cfg.z);
    var off, path := Elsewhere(mem, cfg, height, leaf), RootFirst(mem, cfg.z, height, leaf, height + 1);
    SplitPath(mem, cfg.z, height, leaf, height + 1, cfg.Dummy());
    SamePathContents(mem, cfg.z, height, leaf, height + 1);
    LiveConcat(off, path);
    TotalOfLive(m, mem, off + path, p);
    TotalConcat(m, off, path, p);
    TotalConcat(m, path, stash[k..], p);
    assert stash == stash[..k] + stash[k..];
    TotalConcat(m, stash[..k], stash[k..], p);
    DummiesTotal(m, stash[..k], p);
    Laws(m, Total(m, stash[k..], p), m.zero, m.zero);
    Laws(m, Total(m, off, p), Total(m, path, p), Total(m, stash[k..], p));
  }

  lemma DummiesTotal<V(!new)>(m: Values<V>, s: seq<Block<V>>, p: Payload)
    requires Lawful(m) && AllDummies(s)
    ensures Total(m, s, p) == m.zero
  {
    TotalAbsent(m, s, p);
  }

  /** After the write-back of `s`, the totals are those off the path and those of `s`. */
  lemma WrittenTotals<V(!new)>(mem: seq<Block<V>>, s: seq<Block<V>>, after: seq<Block<V>>, mem': seq<Block<V>>,
                               laid: seq<Block<V>>, cfg: Config<V>, height: nat, leaf: nat, p: Payload)
    requires Lawful(cfg.values) && height <= MAX_TREE_HEIGHT && LeafAt(leaf, height) && Shape(mem, cfg.z, height)
    requires WroteBack(s, after, mem, mem', laid, cfg, leaf, height)
    ensures StateTotal(cfg.values, mem', after, p)
         == cfg.values.plus(Total(cfg.values, Elsewhere(mem, cfg, height, leaf), p), Total(cfg.values, s, p))
  {
    hide Slots, Live, Lawful, LeafAt, Total, Blanked, LaidOut, PathBucketIs, AgreeOffPath, Shape;
    var m := cfg.values;
    WroteBackConserves(s, after, mem, mem', laid, cfg, leaf, height);
    AgreeOffPathBlanked(mem, mem', cfg.z, height, leaf, cfg.Dummy());
    var off, path := Elsewhere(mem', cfg, height, leaf), LeafFirst(mem', cfg.z, height, leaf, height + 1);
    SplitPath(mem', cfg.z, height, leaf, height + 1, cfg.Dummy());
    LiveConcat(off, path);
    TotalOfLive(m, mem', off + path, p);
    TotalConcat(m, off, path, p);
    LiveConcat(path, after);
    TotalOfLive(m, path + after, s, p);
    TotalConcat(m, path, after, p);
    Laws(m, Total(m, off, p), Total(m, path, p), Total(m, after, p));
  }

  // ---- The invariant across an access -----------------------------------------------------------------

  lemma AccessKeeps<V>(mem: seq<Block<V>>, stash: seq<Block<V>>, s: seq<Block<V>>, after: seq<Block<V>>,
                       mem': seq<Block<V>>, laid: seq<Block<V>>, cfg: Config<V>, height: nat, leaf: nat)
    requires height <= MAX_TREE_HEIGHT && LeafAt(leaf, height) && WellFormed(mem, stash, cfg, height)
    requires WroteBack(s, after, mem, mem', laid, cfg, leaf, height) && RankedForPath(s, leaf, height)
    ensures WellFormed(mem', after, cfg, height)
  {
    hide Slots, LeafAt, LaidOut, PathBucketIs, AgreeOffPath, PathInvariant, RankedForPath;
    WroteBackOnPath(s, after, mem, mem', laid, cfg, leaf, height);
    assert after[..Slots(height + 1, cfg.z)] == Dummies(Slots(height + 1, cfg.z), cfg.Dummy());
  }

  /** The keys that blocks may carry, each with the tags it may carry. */
  type Ids = iset<(Tag, Payload)>

  ghost predicate Known<V>(s: seq<Block<V>>, ids: Ids) {
    forall i :: 0 <= i < |s| && s[i].Real() ==> (s[i].tag, s[i].payload) in ids
  }

  lemma {:induction false} KnownLive<V>(s: seq<Block<V>>, ids: Ids)
    ensures Known(s, ids) <==> Known(Live(s), ids)
  {
    if s != [] {
      var n := |s| - 1;
      KnownLive(s[..n], ids);
      var l, l' := Live(s[..n]), Live(s);
      assert l'[..|l|] == l;
      if Known(s, ids) { assert Known(s[..n], ids); }
      if Known(l', ids) {
        forall i | 0 <= i < |l| && l[i].Real() ensures (l[i].tag, l[i].payload) in ids { assert l[i] == l'[i]; }
        forall i | 0 <= i < |s| && s[i].Real() ensures (s[i].tag, s[i].payload) in ids {
          if i < n { assert s[i] == s[..n][i]; } else { assert l'[|l|] == s[n]; }
        }
      }
    }
  }

  lemma KnownSubset<V>(s: seq<Block<V>>, t: seq<Block<V>>, ids: Ids)
    requires Known(t, ids) && multiset(Live(s)) <= multiset(Live(t))
    ensures Known(s, ids)
  {
    hide Live;
    KnownLive(t, ids);
    var l, k := Live(s), Live(t);
    forall i | 0 <= i < |l| ensures (l[i].tag, l[i].payload) in ids {
      assert l[i] in multiset(l);
      assert l[i] in k;
    }
    KnownLive(s, ids);
  }

  /** An access brings in no keys. */
  lemma AccessKnown<V>(mem: seq<Block<V>>, s: seq<Block<V>>, after: seq<Block<V>>, mem': seq<Block<V>>,
                       laid: seq<Block<V>>, cfg: Config<V>, height: nat, leaf: nat, ids: Ids)
    requires height <= MAX_TREE_HEIGHT && LeafAt(leaf, height) && Shape(mem, cfg.z, height)
    requires WroteBack(s, after, mem, mem', laid, cfg, leaf, height)
    requires Known(mem, ids) && Known(s, ids)
    ensures Known(mem', ids) && Known(after, ids)
  {
    hide Slots, Live, LeafAt, Blanked, LaidOut, PathBucketIs, AgreeOffPath, Shape, Known;
    WroteBackConserves(s, after, mem, mem', laid, cfg, leaf, height);
    AgreeOffPathBlanked(mem, mem', cfg.z, height, leaf, cfg.Dummy());
    SplitPath(mem, cfg.z, height, leaf, height + 1, cfg.Dummy());
    SplitPath(mem', cfg.z, height, leaf, height + 1, cfg.Dummy());
    var off, path := Elsewhere(mem, cfg, height, leaf), LeafFirst(mem', cfg.z, height, leaf, height + 1);
    LiveConcat(mem, s);
    assert multiset(Live(mem' + after)) <= multiset(Live(mem + s)) by { LiveConcat(mem', after); }
    KnownBoth(mem, s, ids);
    KnownSubset(mem' + after, mem + s, ids);
    KnownBoth(mem', after, ids);
  }

  lemma KnownBoth<V>(s: seq<Block<V>>, t: seq<Block<V>>, ids: Ids)
    ensures Known(s + t, ids) <==> Known(s, ids) && Known(t, ids)
  {
    if Known(s + t, ids) {
      forall i | 0 <= i < |s| ensures s[i] == (s + t)[i] {}
      forall i | 0 <= i < |t| ensures t[i] == (s + t)[|s| + i] {}
    }
  }

  lemma MergedKnown<V(!new)>(mem: seq<Block<V>>, stash: seq<Block<V>>, cfg: Config<V>, height: nat, leaf: nat, ids: Ids)
    requires height <= MAX_TREE_HEIGHT && LeafAt(leaf, height) && WellFormed(mem, stash, cfg, height)
    requires Known(mem, ids) && Known(stash, ids)
    ensures Known(Gathered(mem, stash, cfg, height, leaf), ids)
    ensures Known(SortedByKey(Gathered(mem, stash, cfg, height, leaf), RankKey(leaf, height)), ids)
    ensures Known(Merged(mem, stash, cfg, height, leaf), ids)
  {
    hide Slots, Live, LeafAt, SortedByKey, Reduced, Shape, AllDummies;
    var k := Slots(height + 1, cfg.z);
    var path := RootFirst(mem, cfg.z, height, leaf, height + 1);
    SplitPath(mem, cfg.z, height, leaf, height + 1, cfg.Dummy());
    SamePathContents(mem, cfg.z, height, leaf, height + 1);
    KnownSubset(path, mem, ids);
    assert stash == stash[..k] + stash[k..];
    KnownBoth(stash[..k], stash[k..], ids);
    KnownBoth(path, stash[k..], ids);
    var g := Gathered(mem, stash, cfg, height, leaf);
    var t := SortedByKey(g, RankKey(leaf, height));
    SortedByKeyIsSorted(g, RankKey(leaf, height));
    LivePermutes(t, g);
    KnownSubset(t, g, ids);
    var r := Reduced(cfg.values, t);
    forall i | 0 <= i < |r| && r[i].Real() ensures (r[i].tag, r[i].payload) in ids { Survives(cfg.values, t, i); }
  }

  lemma RemovedKnown<V>(s: seq<Block<V>>, p: Payload, ids: Ids)
    requires Known(s, ids)
    ensures Known(Removed(s, p), ids)
  {
    var r := Removed(s, p);
    forall i | 0 <= i < |r| ensures r[i].Real() ==> r[i] == s[i] {}
  }

  // ---- What a read returns ------------------------------------------------------------------------------

  /** Tags that agree in every bit but bit 31. */
  ghost predicate SameRank(a: Tag, b: Tag) {
    a % 0x8000_0000 == b % 0x8000_0000 && a / 0x1_0000_0000 == b / 0x1_0000_0000
  }

  /** Blocks of key `p` all carry tag `t`. */
  ghost predicate OneTag(ids: Ids, t: Tag, p: Payload) {
    forall id :: id in ids && id.1 == p ==> id.0 == t
  }

  /** The same, and no other key's tag is ranked like `t`. */
  ghost predicate Unambiguous(ids: Ids, t: Tag, p: Payload) {
    OneTag(ids, t, p) && forall id :: id in ids && SameRank(id.0, t) ==> id.1 == p
  }

  lemma SortedAdjacent<V(!new)>(s: seq<Block<V>>, leaf: nat, height: nat, ids: Ids, t: Tag, p: Payload)
    requires height <= MAX_TREE_HEIGHT && LeafAt(leaf, height) && Unambiguous(ids, t, p)
    requires Known(SortedByKey(s, RankKey(leaf, height)), ids)
    ensures Adjacent(SortedByKey(s, RankKey(leaf, height)), p)
  {
    hide SortedByKey, LeafAt, PathRankKey, RoutingBits;
    var u := SortedByKey(s, RankKey(leaf, height));
    SortedByKeyIsSorted(s, RankKey(leaf, height));
    forall i, j, k | 0 <= i < j < k < |u| && Matches(u[i], p) && Matches(u[k], p) ensures Matches(u[j], p) {
      assert (u[i].tag, u[i].payload) in ids && (u[k].tag, u[k].payload) in ids;
      assert RankKey(leaf, height)(u[i]) <= RankKey(leaf, height)(u[j]) <= RankKey(leaf, height)(u[k]);
      RankKeyInjective(u[i].tag, u[j].tag, leaf, height);
      assert (u[j].tag, u[j].payload) in ids;
    }
  }

  lemma NodeDepth(node: nat, height: nat) returns (d: nat)
    requires 0 < node < Pow2(height + 1)
    ensures d <= height && LeafAt(node, d)
  {
    d := FloorLog(node);
    if d > height { Pow2Monotone(height, d); }
  }

  /** Off the path to its leaf, a key has no blocks. */
  lemma NothingElsewhere<V(!new)>(mem: seq<Block<V>>, cfg: Config<V>, height: nat, ids: Ids, t: Tag, p: Payload)
    requires Lawful(cfg.values) && height <= MAX_TREE_HEIGHT && PathInvariant(mem, cfg.z, height)
    requires Known(mem, ids) && OneTag(ids, t, p)
    ensures LeafAt(AddressToLeaf(t, height), height)
    ensures Total(cfg.values, Elsewhere(mem, cfg, height, AddressToLeaf(t, height)), p) == cfg.values.zero
  {
    AddressIsLeaf(t, height);
    var off := Elsewhere(mem, cfg, height, AddressToLeaf(t, height));
    forall i | 0 <= i < |off| && off[i].Real() ensures off[i].payload != p {
      ElsewhereSlot(mem, cfg, height, ids, t, p, i);
    }
    TotalAbsent(cfg.values, off, p);
  }

  lemma ElsewhereSlot<V>(mem: seq<Block<V>>, cfg: Config<V>, height: nat, ids: Ids, t: Tag, p: Payload, i: nat)
    requires height <= MAX_TREE_HEIGHT && PathInvariant(mem, cfg.z, height) && LeafAt(AddressToLeaf(t, height), height)
    requires Known(mem, ids) && OneTag(ids, t, p)
    requires var off := Elsewhere(mem, cfg, height, AddressToLeaf(t, height)); i < |off| && off[i].Real()
    ensures Elsewhere(mem, cfg, height, AddressToLeaf(t, height))[i].payload != p
  {
    hide Slots, LeafAt, Pow2, AddressToLeaf, Blanked, SameRank, NodeOnPath;
    var leaf, z := AddressToLeaf(t, height), cfg.z;
    var off := Elsewhere(mem, cfg, height, leaf);
    var node := BucketOfSlot(i, z, Pow2(height + 1));
    BlankedAt(mem, z, height, leaf, height + 1, cfg.Dummy(), node);
    var j := i - Slots(node, z);
    assert off[i] == Bucket(off, z, node)[j];
    if !OnPath(node, leaf, height, height + 1) {
      assert off[i] == Bucket(mem, z, node)[j] == mem[i];
      if node > 0 {
        var d := NodeDepth(node, height);
        NodeOfTag(t, d, height);
        assert NodeOk(mem, z, node, d);
      }
    }
  }

  /** A read returns the key's whole total, when no other key's tag is ranked like its own. */
  lemma ReadReturnsTotal<V(!new)>(mem: seq<Block<V>>, stash: seq<Block<V>>, cfg: Config<V>, height: nat, ids: Ids,
                                  t: Tag, p: Payload)
    requires Lawful(cfg.values) && height <= MAX_TREE_HEIGHT && WellFormed(mem, stash, cfg, height)
    requires Known(mem, ids) && Known(stash, ids) && Unambiguous(ids, t, p)
    ensures LeafAt(AddressToLeaf(t, height), height)
    ensures LastMatch(cfg.values, Merged(mem, stash, cfg, height, AddressToLeaf(t, height)), p)
         == StateTotal(cfg.values, mem, stash, p)
  {
    hide Slots, LeafAt, Lawful, Reduced, SortedByKey, Total, LastMatch, Known, OneTag, AddressToLeaf, Shape, AllDummies;
    var m := cfg.values;
    NothingElsewhere(mem, cfg, height, ids, t, p);
    var leaf := AddressToLeaf(t, height);
    var g := Gathered(mem, stash, cfg, height, leaf);
    var u := SortedByKey(g, RankKey(leaf, height));
    MergedKnown(mem, stash, cfg, height, leaf, ids);
    SortedAdjacent(g, leaf, height, ids, t, p);
    AdjacentLeavesOne(m, u, p);
    LastMatchIsTotal(m, Reduced(m, u), p);
    SortReduceKeepsTotals(m, g, RankKey(leaf, height), p);
    GatheredTotals(mem, stash, cfg, height, leaf, p);
    Laws(m, Total(m, g, p), m.zero, m.zero);
  }
}
