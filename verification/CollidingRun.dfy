/**
  A run whose last read misses something, for any two keys whose tags are ranked alike: a
  tree of height one with buckets of one slot, and one overflow slot.
 */
module CollidingRun {
  import opened Arithmetic
  import opened Bits
  import opened Wrappers
  import opened Blocks
  import opened Reduction
  import opened Routing
  import opened Greedy
  import opened SortReduce
  import opened Tree
  import opened Layout
  import opened Stash
  import opened Access
  import opened Contents
  import opened Capacity
  import opened Collisions
  import opened Clock
  import opened Steps
  import opened Resize
  import opened Crypto
  import opened Histogram

  // ---- The small tree ------------------------------------------------------------------------------------

  function SmallConfig<V>(m: Values<V>, k: nat): Config<V> { Config(1, k, 4, 1, m) }

  lemma SmallLeaves(leaf: nat)
    requires 2 <= leaf <= 3
    ensures LeafAt(leaf, 1) && NodeOnPath(leaf, 1, 1) == leaf && NodeOnPath(leaf, 0, 1) == 1 && Pow2(2) == 4
    ensures Pow2(1) == 2
  {
    assert Pow2(1) == 2 && Pow2(2) == 4;
  }

  lemma SmallSlots()
    ensures Slots(0, 1) == 0 && Slots(1, 1) == 1 && Slots(2, 1) == 2 && Slots(3, 1) == 3 && Slots(4, 1) == 4
  {
  }

  lemma SmallBucket<V>(mem: seq<Block<V>>, node: nat)
    requires |mem| == 4 && node < 4
    ensures HasBucket(mem, 1, node) && Bucket(mem, 1, node) == [mem[node]]
  {
  }

  /** What an access to `leaf` gathers. */
  lemma SmallGathered<V>(mem: seq<Block<V>>, stash: seq<Block<V>>, cfg: Config<V>, leaf: nat)
    requires cfg.z == 1 && 2 <= leaf <= 3 && LeafAt(leaf, 1) && WellFormed(mem, stash, cfg, 1) && |mem| == 4
    requires |stash| == 3
    ensures Gathered(mem, stash, cfg, 1, leaf) == [mem[1], mem[leaf], stash[2]]
  {
    SmallLeaves(leaf);
    SmallSlots();
    SmallBucket(mem, 1);
    SmallBucket(mem, leaf);
    hide WellFormed, LeafAt, Pow2, Bucket, HasBucket, Slots, NodeOnPath;
    WellFormedShape(mem, stash, cfg, 1);
    hide Shape;
    assert RootFirst(mem, 1, 1, leaf, 0) == [];
    assert RootFirst(mem, 1, 1, leaf, 1) == [mem[1]];
    assert RootFirst(mem, 1, 1, leaf, 2) == [mem[1], mem[leaf]];
    assert stash[2..] == [stash[2]];
  }

  /** Sorted by rank, the one real block comes first. */
  lemma OneSorted<V(!new)>(d: Block<V>, b: Block<V>, leaf: nat)
    requires LeafAt(leaf, 1) && !d.Real() && b.Real()
    ensures SortedByKey([d, d, b], RankKey(leaf, 1)) == [b, d, d]
  {
    hide SortedByKey, PathRankKey, LeafAt;
    var s, u := [d, d, b], SortedByKey([d, d, b], RankKey(leaf, 1));
    SortedByKeyIsSorted(s, RankKey(leaf, 1));
    assert multiset(s) == multiset{d, d, b} && u == [u[0], u[1], u[2]];
    assert multiset(u) == multiset{u[0], u[1], u[2]};
    forall i | 0 <= i < 3 ensures u[i] == d || u[i] == b { assert u[i] in multiset(u); }
    assert b in multiset(u);
    var i :| 0 <= i < 3 && u[i] == b;
    RankOrder(u[0].tag, u[i].tag, leaf, 1);
    assert u[0] == b;
    assert multiset{u[0], u[1], u[2]}[b] == 1;
  }

  /** Merging a path with one real block. */
  lemma OneMerged<V(!new)>(mem: seq<Block<V>>, stash: seq<Block<V>>, cfg: Config<V>, leaf: nat, b: Block<V>)
    requires cfg.z == 1 && 2 <= leaf <= 3 && LeafAt(leaf, 1) && WellFormed(mem, stash, cfg, 1) && |mem| == 4
    requires |stash| == 3
    requires b.Real() && mem[1] == mem[leaf] == cfg.Dummy() && stash[2] == b
    ensures Merged(mem, stash, cfg, 1, leaf) == [b, cfg.Dummy(), cfg.Dummy()]
    ensures Live([b, cfg.Dummy(), cfg.Dummy()]) == [b]
  {
    hide SortedByKey, LeafAt, WellFormed;
    SmallGathered(mem, stash, cfg, leaf);
    OneSorted(cfg.Dummy(), b, leaf);
    var u := [b, cfg.Dummy(), cfg.Dummy()];
    assert Reduced(cfg.values, u) == u;
    OneLive(b, cfg.Dummy());
  }

  lemma OneLive<V>(b: Block<V>, d: Block<V>)
    requires b.Real() && !d.Real()
    ensures Live([b, d, d]) == [b]
  {
    assert [b, d, d] == [b] + [d, d];
    hide Live;
    LiveConcat([b], [d, d]);
    LiveAll([b]);
    LiveNone([d, d]);
  }

  /** One block goes to the deepest level its path shares, and nothing overflows. */
  lemma OneAssigned<V>(b: Block<V>, leaf: nat)
    requires LeafAt(leaf, 1)
    ensures var l := LevelOf(b.tag, leaf, 1); var levels := LevelsOf([b], leaf, 1);
      l <= 1 && levels == [l] && Counts(levels, 1, 1) == [0, 0][l := 1] && Overflow(levels, 1, 1) == 0
  {
    hide LevelOf, LeafAt;
    var l := LevelOf(b.tag, leaf, 1);
    var levels := LevelsOf([b], leaf, 1);
    assert levels == [l] && levels[..0] == [];
    assert Counts(levels[..0], 1, 1) == [0, 0];
  }

  /** A write-back of one block lays it out in the bucket of its level. */
  lemma OneLaid<V>(b: Block<V>, d: Block<V>, laid: seq<Block<V>>, leaf: nat)
    requires LeafAt(leaf, 1) && b.Real() && !d.Real() && |laid| == 3 && multiset(laid) == multiset([b, d, d])
    requires LaidOut([b], laid, LevelsOf([b], leaf, 1), 1, 1)
    ensures laid == [d, d, d][1 - LevelOf(b.tag, leaf, 1) := b]
  {
    hide LevelOf, LeafAt, LevelsOf, Counts, Overflow, FromLevel;
    OneAssigned(b, leaf);
    SmallSlots();
    var levels, l := LevelsOf([b], leaf, 1), LevelOf(b.tag, leaf, 1);
    OneFromLevel(l);
    assert BucketSlot([b], laid, levels, 1, 1, l, 0) && BucketSlot([b], laid, levels, 1, 1, 1 - l, 0);
    assert !laid[2].Real();
    forall i | 0 <= i < 3 ensures laid[i] == b || laid[i] == d {
      assert laid[i] in multiset(laid);
      assert laid[i] in [b, d, d];
    }
  }

  lemma OneFromLevel(l: nat)
    requires l <= 1
    ensures FromLevel([0, 0][l := 1], l + 1) == 0
  {
  }

  // ---- Accesses to the small tree -----------------------------------------------------------------------------

  /** An access that finds one block in the overflow and an empty path moves it into its bucket. */
  lemma OneMoves<V(!new)>(mem: seq<Block<V>>, stash: seq<Block<V>>, cfg: Config<V>, leaf: nat, b: Block<V>)
    requires cfg.z == 1 && cfg.s == 1 && 2 <= leaf <= 3 && LeafAt(leaf, 1) && WellFormed(mem, stash, cfg, 1)
    requires |mem| == 4 && |stash| == 3
    requires b.Real() && mem[1] == mem[leaf] == cfg.Dummy() && stash[2] == b
    ensures CanAccess(mem, stash, cfg, 1, leaf, None)
    ensures forall mem', stash' :: WrittenBack(mem, stash, mem', stash', cfg, 1, leaf, None) ==>
              (mem' == mem[(if LevelOf(b.tag, leaf, 1) == 1 then leaf else 1) := b]
               && stash' == [cfg.Dummy(), cfg.Dummy(), cfg.Dummy()])
  {
    hide WellFormed, LeafAt, LevelOf, Merged, LevelsOf, Overflow, WroteBack;
    OneMerged(mem, stash, cfg, leaf, b);
    OneAssigned(b, leaf);
    forall mem', stash' | WrittenBack(mem, stash, mem', stash', cfg, 1, leaf, None)
      ensures mem' == mem[(if LevelOf(b.tag, leaf, 1) == 1 then leaf else 1) := b]
      ensures stash' == [cfg.Dummy(), cfg.Dummy(), cfg.Dummy()]
    {
      var laid :| WroteBack(Remaining(Merged(mem, stash, cfg, 1, leaf), None), stash', mem, mem', laid, cfg, leaf, 1);
      OneWritten(mem, mem', stash', laid, cfg, leaf, b);
    }
  }

  lemma OneWritten<V>(mem: seq<Block<V>>, mem': seq<Block<V>>, stash': seq<Block<V>>, laid: seq<Block<V>>,
                      cfg: Config<V>, leaf: nat, b: Block<V>)
    requires cfg.z == 1 && cfg.s == 1 && 2 <= leaf <= 3 && LeafAt(leaf, 1) && |mem| == 4 && b.Real()
    requires mem[1] == mem[leaf] == cfg.Dummy()
    requires WroteBack([b, cfg.Dummy(), cfg.Dummy()], stash', mem, mem', laid, cfg, leaf, 1)
    ensures mem' == mem[(if LevelOf(b.tag, leaf, 1) == 1 then leaf else 1) := b]
    ensures stash' == [cfg.Dummy(), cfg.Dummy(), cfg.Dummy()]
  {
    hide LeafAt, LevelOf, LevelsOf, LaidOut, Live, Pow2;
    var d := cfg.Dummy();
    OneLive(b, d);
    SmallSlots();
    SmallLeaves(leaf);
    OneAssigned(b, leaf);
    OneLaid(b, d, laid, leaf);
    SmallTail(laid, stash', cfg);
    assert |mem'| == 4;
    SmallTree(mem, mem', laid, leaf);
  }

  /** The small tree after a write-back along the path to `leaf`. */
  lemma SmallTree<V>(mem: seq<Block<V>>, mem': seq<Block<V>>, laid: seq<Block<V>>, leaf: nat)
    requires 2 <= leaf <= 3 && LeafAt(leaf, 1) && |mem| == |mem'| == 4 && |laid| == 3
    requires AgreeOffPath(mem, mem', 1, 1, leaf) && forall k: nat :: k <= 1 ==> PathBucketIs(mem', laid, 1, leaf, 1, k)
    ensures mem' == mem[1 := laid[1]][leaf := laid[0]]
  {
    hide LeafAt;
    assert PathBucketIs(mem', laid, 1, leaf, 1, 0) && PathBucketIs(mem', laid, 1, leaf, 1, 1);
    SmallSlots();
    SmallBucket(mem', 1);
    SmallBucket(mem', leaf);
    assert laid[1..2] == [laid[1]] && laid[0..1] == [laid[0]];
    hide PathBucketIs, Bucket;
    SmallOff(mem, mem', leaf, 0);
    SmallOff(mem, mem', leaf, 5 - leaf);
  }

  lemma SmallOff<V>(mem: seq<Block<V>>, mem': seq<Block<V>>, leaf: nat, node: nat)
    requires 2 <= leaf <= 3 && LeafAt(leaf, 1) && |mem| == |mem'| == 4 && node < 4 && node != 1 && node != leaf
    requires AgreeOffPath(mem, mem', 1, 1, leaf)
    ensures mem'[node] == mem[node]
  {
    hide LeafAt;
    OffSmallPath(node, leaf);
    SmallSlots();
    assert SameBucket(mem, mem', 1, node);
    SmallBucket(mem, node);
    SmallBucket(mem', node);
  }

  lemma SmallTail<V>(laid: seq<Block<V>>, stash': seq<Block<V>>, cfg: Config<V>)
    requires |laid| == 3 && laid[2] == cfg.Dummy() && stash' == Dummies(2, cfg.Dummy()) + laid[2..]
    ensures stash' == [cfg.Dummy(), cfg.Dummy(), cfg.Dummy()]
  {
    assert laid[2..] == [cfg.Dummy()] && Dummies(2, cfg.Dummy()) == [cfg.Dummy(), cfg.Dummy()];
  }

  lemma OffSmallPath(node: nat, leaf: nat)
    requires 2 <= leaf <= 3 && node != 1 && node != leaf
    ensures !OnPath(node, leaf, 1, 2)
  {
    SmallLeaves(leaf);
    hide NodeOnPath;
    forall d: nat | d < 2 ensures node != NodeOnPath(leaf, d, 1) { assert d == 0 || d == 1; }
  }

  // ---- The keys' leaf --------------------------------------------------------------------------------------------

  /** Tags ranked alike have the same leaves, and the same key on every path. */
  lemma SameRankSamePath(a: Tag, b: Tag, leaf: nat, height: nat)
    requires height <= MAX_TREE_HEIGHT && SameRank(a, b) && a != 0 && b != 0
    ensures AddressToLeaf(a, height) == AddressToLeaf(b, height)
    ensures PathRankKey(a, leaf, height) == PathRankKey(b, leaf, height)
  {
    RoutingBitsAre(a);
    RoutingBitsAre(b);
    hide RoutingBits, Xor, LowBits, Shr;
  }

  lemma OwnLeafLevel(tag: Tag)
    ensures var leaf := AddressToLeaf(tag, 1);
      && 2 <= leaf <= 3 && LeafAt(leaf, 1) && LeafAt(5 - leaf, 1)
      && LevelOf(tag, leaf, 1) == 1 && LevelOf(tag, 5 - leaf, 1) == 0
  {
    AddressIsLeaf(tag, 1);
    var leaf := AddressToLeaf(tag, 1);
    assert Pow2(1) == 2 && Pow2(2) == 4;
    SmallLeaves(leaf);
    SmallLeaves(5 - leaf);
    hide AddressToLeaf, DeepestSharedLevel, Pow2, NodeOnPath;
    SharedLevel(leaf, tag, 1, 1);
    SharedLevel(5 - leaf, tag, 1, 1);
  }

  // ---- The read that misses -------------------------------------------------------------------------------

  /** The key's blocks, one in the root and one in the overflow, with the other key's between them. */
  lemma TwinsMerged<V(!new)>(mem: seq<Block<V>>, stash: seq<Block<V>>, cfg: Config<V>, leaf: nat, a: Block<V>,
                             b: Block<V>, c: Block<V>)
    requires cfg.z == 1 && cfg.s == 1 && 2 <= leaf <= 3 && LeafAt(leaf, 1) && WellFormed(mem, stash, cfg, 1)
    requires |mem| == 4 && |stash| == 3
    requires mem[1] == a && mem[leaf] == b && stash[2] == c && a.Real() && b.Real() && a.tag == c.tag
    requires SameRank(a.tag, b.tag)
    requires a.payload == c.payload != b.payload
    ensures Merged(mem, stash, cfg, 1, leaf) == [a, b, c]
    ensures LastMatch(cfg.values, [a, b, c], a.payload) == c.value
    ensures CanAccess(mem, stash, cfg, 1, leaf, Some(a.payload))
  {
    hide LeafAt, WellFormed, PathRankKey, SortedByKey, LevelsOf, Overflow, SameRank, LastMatch;
    SmallGathered(mem, stash, cfg, leaf);
    SameRankSamePath(a.tag, b.tag, leaf, 1);
    SortIdle([a, b, c], RankKey(leaf, 1));
    assert Reduced(cfg.values, [a, b, c]) == [a, b, c];
    LastMatchAt(cfg.values, [a, b, c], a.payload, 2);
    var left := Removed([a, b, c], a.payload);
    assert left == [a.(tag := 0), b, c.(tag := 0)];
    MiddleLive(a.(tag := 0), b, c.(tag := 0));
    OneAssigned(b, leaf);
  }

  lemma MiddleLive<V>(a: Block<V>, b: Block<V>, c: Block<V>)
    requires !a.Real() && b.Real() && !c.Real()
    ensures Live([a, b, c]) == [b]
  {
    hide Live;
    var ab := [a] + [b];
    assert ab == [a, b] && [a, b, c] == ab + [c];
    LiveConcat(ab, [c]);
    LiveConcat([a], [b]);
    LiveNone([a]);
    LiveAll([b]);
    LiveNone([c]);
  }

  /** What the small tree holds for the key: the values of its two blocks. */
  lemma TwinsTotal<V(!new)>(mem: seq<Block<V>>, stash: seq<Block<V>>, m: Values<V>, d: Block<V>, leaf: nat, a: Block<V>,
                            b: Block<V>, c: Block<V>)
    requires Lawful(m) && 2 <= leaf <= 3 && !d.Real() && stash == [d, d, c] && mem == [d, d, d, d][leaf := b][1 := a]
    requires a.Real() && c.Real() && a.payload == c.payload != b.payload
    ensures StateTotal(m, mem, stash, a.payload) == m.plus(a.value, c.value)
  {
    hide Lawful;
    var p, z := a.payload, m.zero;
    var none: seq<Block<V>> := [];
    assert mem == (((none + [d]) + [a]) + [mem[2]]) + [mem[3]] && stash == ((none + [d]) + [d]) + [c];
    assert Total(m, none, p) == z;
    Laws(m, z, z, z);
    Laws(m, a.value, z, z);
    Laws(m, c.value, z, z);
    hide Total;
    TotalAppend(m, none, d, p);
    TotalAppend(m, none + [d], a, p);
    TotalAppend(m, (none + [d]) + [a], mem[2], p);
    TotalAppend(m, ((none + [d]) + [a]) + [mem[2]], mem[3], p);
    TotalAppend(m, none + [d], d, p);
    TotalAppend(m, (none + [d]) + [d], c, p);
  }

  /** Two tags that differ in bit 31 only. */
  lemma TwinTags()
    ensures SameRank(1, 0x8000_0001)
  {
  }

  // ---- The exact condition ----------------------------------------------------------------------------------

  /** If the state obeys the invariants and stores only keys from `ids`, the read of `p` returns its whole total. */
  ghost predicate ReadsWhole<V(!new)>(cfg: Config<V>, height: nat, mem: seq<Block<V>>, stash: seq<Block<V>>, ids: Ids,
                                      t: Tag, p: Payload) {
    height <= MAX_TREE_HEIGHT && WellFormed(mem, stash, cfg, height) && Known(mem, ids) && Known(stash, ids)
    && LeafAt(AddressToLeaf(t, height), height) ==>
      (LastMatch(cfg.values, Merged(mem, stash, cfg, height, AddressToLeaf(t, height)), p)
       == StateTotal(cfg.values, mem, stash, p))
  }

  /** The state of the run, seen from outside: it obeys the invariants and stores the two keys. */
  lemma TwinsWellFormed<V>(mem: seq<Block<V>>, stash: seq<Block<V>>, cfg: Config<V>, leaf: nat, a: Block<V>,
                           b: Block<V>, c: Block<V>)
    requires cfg.z == 1 && cfg.s == 1 && 2 <= leaf <= 3 && stash == [cfg.Dummy(), cfg.Dummy(), c]
    requires mem == [cfg.Dummy(), cfg.Dummy(), cfg.Dummy(), cfg.Dummy()][leaf := b][1 := a]
    requires AddressToLeaf(b.tag, 1) == leaf
    ensures WellFormed(mem, stash, cfg, 1)
  {
    SmallSlots();
    SmallLeaves(leaf);
    AddressIsLeaf(a.tag, 0);
    hide AddressToLeaf;
    SmallBucket(mem, 0);
    assert AllDummies(stash[..2]);
    forall d: nat, node: nat | d <= 1 && LeafAt(node, d) ensures NodeOk(mem, 1, node, d) {
      SmallBucket(mem, node);
      assert node == 1 || node == 2 || node == 3;
    }
  }

  lemma TwinsKnown<V>(mem: seq<Block<V>>, stash: seq<Block<V>>, ids: Ids, d: Block<V>, leaf: nat, a: Block<V>,
                      b: Block<V>, c: Block<V>)
    requires 2 <= leaf <= 3 && !d.Real() && stash == [d, d, c] && mem == [d, d, d, d][leaf := b][1 := a]
    requires (a.tag, a.payload) in ids && (b.tag, b.payload) in ids && (c.tag, c.payload) in ids
    ensures Known(mem, ids) && Known(stash, ids)
  {
  }

  /** A key whose tag is ranked like that of another key: some state makes its read miss. */
  lemma TwinsMiss<V(!new)>(m: Values<V>, ids: Ids, t: Tag, p: Payload, u: Tag, q: Payload, v: V)
    requires Lawful(m) && v != m.zero && t != 0 && u != 0 && (t, p) in ids && (u, q) in ids && SameRank(t, u) && p != q
    ensures exists cfg: Config<V>, mem, stash :: cfg.values == m && !ReadsWhole(cfg, 1, mem, stash, ids, t, p)
  {
    hide WellFormed, Lawful, AddressToLeaf, LevelOf, LeafAt, CanAccess, Merged, LastMatch, StateTotal, SameRank, Known;
    var cfg, leaf := SmallConfig(m, |p|), AddressToLeaf(t, 1);
    OwnLeafLevel(t);
    var d, a, b, c := cfg.Dummy(), Block(t, 0, v, p), Block(u, 0, m.zero, q), Block(t, 0, m.zero, p);
    var mem, stash := [d, d, d, d][leaf := b][1 := a], [d, d, c];
    SameRankSamePath(t, u, leaf, 1);
    TwinsWellFormed(mem, stash, cfg, leaf, a, b, c);
    TwinsKnown(mem, stash, ids, d, leaf, a, b, c);
    TwinsMerged(mem, stash, cfg, leaf, a, b, c);
    TwinsTotal(mem, stash, m, d, leaf, a, b, c);
    Laws(m, v, m.zero, m.zero);
    assert !ReadsWhole(cfg, 1, mem, stash, ids, t, p);
  }

  /**
    Among keys of which this one has one tag, its read returns the whole total in every state,
    whatever the parameters and whatever is stored, exactly when no other key's tag is ranked
    like its own.
   */
  lemma ReadsWholeIffAlone<V(!new)>(m: Values<V>, ids: Ids, t: Tag, p: Payload, v: V)
    requires Lawful(m) && v != m.zero && (t, p) in ids && OneTag(ids, t, p) && forall id :: id in ids ==> id.0 != 0
    ensures Unambiguous(ids, t, p) <==>
            forall cfg: Config<V>, height, mem, stash ::
              cfg.values == m ==> ReadsWhole(cfg, height, mem, stash, ids, t, p)
  {
    hide Lawful, ReadsWhole, SameRank;
    if Unambiguous(ids, t, p) {
      forall cfg: Config<V>, height, mem, stash | cfg.values == m
        ensures ReadsWhole(cfg, height, mem, stash, ids, t, p)
      {
        AloneReadsWhole(cfg, height, mem, stash, ids, t, p);
      }
    } else {
      var id :| id in ids && SameRank(id.0, t) && id.1 != p;
      SameRankSymmetric(id.0, t);
      TwinsMiss(m, ids, t, p, id.0, id.1, v);
    }
  }

  lemma SameRankSymmetric(a: Tag, b: Tag)
    requires SameRank(a, b)
    ensures SameRank(b, a)
  {
  }

  lemma AloneReadsWhole<V(!new)>(cfg: Config<V>, height: nat, mem: seq<Block<V>>, stash: seq<Block<V>>, ids: Ids,
                                 t: Tag, p: Payload)
    requires Lawful(cfg.values) && Unambiguous(ids, t, p)
    ensures ReadsWhole(cfg, height, mem, stash, ids, t, p)
  {
    hide Lawful, WellFormed, Known, Unambiguous, LeafAt, AddressToLeaf, Merged, LastMatch, StateTotal;
    if height <= MAX_TREE_HEIGHT && WellFormed(mem, stash, cfg, height) && Known(mem, ids) && Known(stash, ids) {
      ReadReturnsTotal(mem, stash, cfg, height, ids, t, p);
    }
  }

  // ---- The run --------------------------------------------------------------------------------------------

  /** After inserting into an empty stash. */
  lemma InsertedIs<V>(stash: seq<Block<V>>, cfg: Config<V>, b: Block<V>)
    requires cfg.z == 1 && stash == [cfg.Dummy(), cfg.Dummy(), cfg.Dummy()]
    ensures FreeSlot(stash, Slots(2, 1)) == 2 && Inserted(stash, cfg, 1, b) == [cfg.Dummy(), cfg.Dummy(), b]
  {
    SmallSlots();
  }

  /** The first three appends of a histogram with an interval of four evict nothing. */
  lemma QuietStart<V>(mem: seq<Block<V>>, stash: seq<Block<V>>, cfg: Config<V>, c: Counters, oracle: Oracle,
                      b: Block<V>)
    requires cfg.z == 1 && cfg.a == 4 && c.height == 1 && c.sweepEnd == 0 && c.appendCtr < 3
    requires WellFormed(mem, stash, cfg, 1) && stash == [cfg.Dummy(), cfg.Dummy(), cfg.Dummy()]
    ensures !EvictDue(c, cfg.a) && CanAppend(mem, stash, cfg, c, None, oracle, b)
  {
    hide WellFormed, CanEvictWith;
    SmallSlots();
    InsertedIs(stash, cfg, b);
  }

  lemma SmallHeight()
    ensures TreeHeightForCapacity(2, 1) == 1
  {
    assert FloorLog(1) == 0 && FloorLog(2) == 1;
  }

  lemma EmptySmall<V>(mem: seq<Block<V>>, stash: seq<Block<V>>, cfg: Config<V>)
    requires cfg.z == 1 && cfg.s == 1 && WellFormed(mem, stash, cfg, 1)
    ensures |mem| == 4 && |stash| == 3
  {
    SmallSlots();
    assert Pow2(1) == 2 && Pow2(2) == 4;
  }

  /** A small histogram early in its life, with an empty stash. */
  ghost predicate Small<V(!new)>(h: ObliviousHistogram<V>, m: Values<V>, k: nat, n: nat)
    reads h.Footprint(), h, h.stash
  {
    && h.Valid() && h.cfg == SmallConfig(m, k) && h.height == 1 && h.epoch == 0 && h.sweepEnd == 0 && h.appendCtr == n
    && h.autoResize == None
    && |h.TreeSlots()| == 4 && |h.StashSlots()| == 3
  }

  method Put<V(!new)>(h: ObliviousHistogram<V>, tag: Tag, value: V, payload: Payload, ghost m: Values<V>, ghost k: nat,
                      ghost n: nat)
    requires Small(h, m, k, n) && n < 3 && h.StashSlots() == [h.cfg.Dummy(), h.cfg.Dummy(), h.cfg.Dummy()]
    modifies h, h.physicalMemory, h.stash, h.stash.blocks
    ensures Small(h, m, k, n + 1) && h.physicalMemory == old(h.physicalMemory) && h.stash.blocks == old(h.stash.blocks)
    ensures h.TreeSlots() == old(h.TreeSlots())
    ensures h.StashSlots() == [h.cfg.Dummy(), h.cfg.Dummy(), Block(tag, 0, value, payload)]
  {
    hide WellFormed, Lawful, Absorbed, CanAppend, Inserted, EvictLeaf, Evicted, AppendStep;
    QuietStart(h.TreeSlots(), h.StashSlots(), h.cfg, h.Now(), h.oracle, Block(tag, 0, value, payload));
    InsertedIs(h.StashSlots(), h.cfg, Block(tag, 0, value, payload));
    ghost var s := h.Snapshot();
    var ok := h.AppendPrepared(tag, value, payload);
    assert ok;
    QuietAppend(h.cfg, h.oracle, s, Block(tag, 0, value, payload), h.Snapshot());
  }

  method Settle<V(!new)>(h: ObliviousHistogram<V>, leaf: nat, ghost b: Block<V>, ghost m: Values<V>, ghost k: nat,
                         ghost n: nat)
    requires Small(h, m, k, n) && 2 <= leaf <= 3 && LeafAt(leaf, 1) && b.Real()
    requires h.TreeSlots()[1] == h.TreeSlots()[leaf] == h.cfg.Dummy() && h.StashSlots()[2] == b
    modifies h.physicalMemory, h.stash.blocks
    ensures Small(h, m, k, n) && h.StashSlots() == [h.cfg.Dummy(), h.cfg.Dummy(), h.cfg.Dummy()]
    ensures h.TreeSlots() == old(h.TreeSlots())[(if LevelOf(b.tag, leaf, 1) == 1 then leaf else 1) := b]
  {
    hide WellFormed, Lawful, Absorbed, CanAccess, WrittenBack, LevelOf;
    SmallLeaves(leaf);
    OneMoves(h.TreeSlots(), h.StashSlots(), h.cfg, leaf, b);
    var ok := h.ReadDummy(leaf - 2);
    assert ok;
  }

  /** An append and a dummy read of `leaf`, which moves the block to `node`. */
  method Send<V(!new)>(h: ObliviousHistogram<V>, tag: Tag, value: V, payload: Payload, leaf: nat, ghost node: nat,
                       ghost m: Values<V>, ghost k: nat, ghost n: nat)
    requires Small(h, m, k, n) && n < 2 && h.StashSlots() == [h.cfg.Dummy(), h.cfg.Dummy(), h.cfg.Dummy()]
    requires 2 <= leaf <= 3 && LeafAt(leaf, 1) && tag != 0 && h.TreeSlots()[1] == h.TreeSlots()[leaf] == h.cfg.Dummy()
    requires node == if LevelOf(tag, leaf, 1) == 1 then leaf else 1
    modifies h, h.physicalMemory, h.stash, h.stash.blocks
    ensures Small(h, m, k, n + 1) && h.physicalMemory == old(h.physicalMemory) && h.stash.blocks == old(h.stash.blocks)
    ensures h.StashSlots() == [h.cfg.Dummy(), h.cfg.Dummy(), h.cfg.Dummy()]
    ensures h.TreeSlots() == old(h.TreeSlots())[node := Block(tag, 0, value, payload)]
  {
    hide WellFormed, Lawful, LevelOf, LeafAt, StateTotal, Load;
    Put(h, tag, value, payload, m, k, n);
    Settle(h, leaf, Block(tag, 0, value, payload), m, k, n + 1);
  }

  method Fresh<V(!new)>(m: Values<V>, k: nat, prf: Cipher, oracle: Oracle) returns (h: ObliviousHistogram<V>)
    requires Lawful(m)
    ensures fresh(h) && fresh(h.Footprint()) && Small(h, m, k, 0)
    ensures h.TreeSlots() == [h.cfg.Dummy(), h.cfg.Dummy(), h.cfg.Dummy(), h.cfg.Dummy()]
    ensures h.StashSlots() == [h.cfg.Dummy(), h.cfg.Dummy(), h.cfg.Dummy()]
  {
    hide WellFormed, Lawful, StateTotal, Load, Known;
    SmallHeight();
    h := new ObliviousHistogram<V>(2, SmallConfig(m, k), prf, oracle);
    EmptySmall(h.TreeSlots(), h.StashSlots(), h.cfg);
  }

  /**
    For any two keys whose tags are ranked alike, and any value but the default: appending and
    dummy reads lead to a state in which the key's total is that value, the read of the key
    would succeed, and it would return the default.
   */
  method ReachTwins<V(!new)>(m: Values<V>, p: Payload, q: Payload, tp: Tag, tq: Tag, v: V, prf: Cipher, oracle: Oracle)
      returns (h: ObliviousHistogram<V>)
    requires Lawful(m) && p != q && tp != 0 && tq != 0 && SameRank(tp, tq) && v != m.zero
    ensures fresh(h) && h.Valid() && LeafAt(AddressToLeaf(tp, h.height), h.height)
    ensures h.SumOf(p) == v != m.zero
    ensures CanAccess(h.TreeSlots(), h.StashSlots(), h.cfg, h.height, AddressToLeaf(tp, h.height), Some(p))
    ensures LastMatch(m, Merged(h.TreeSlots(), h.StashSlots(), h.cfg, h.height, AddressToLeaf(tp, h.height)), p)
              == m.zero
  {
    hide WellFormed, Lawful, AddressToLeaf, LevelOf, LeafAt, CanAccess, Merged, LastMatch, StateTotal, SameRank, Load;
    ghost var k := |p|;
    h := Fresh(m, |p|, prf, oracle);
    ghost var d := h.cfg.Dummy();
    var leaf := AddressToLeaf(tp, 1);
    OwnLeafLevel(tp);
    OwnLeafLevel(tq);
    SameRankSamePath(tp, tq, leaf, 1);
    var a, b, c := Block(tp, 0, v, p), Block(tq, 0, m.zero, q), Block(tp, 0, m.zero, p);
    Send(h, tq, m.zero, q, leaf, leaf, m, k, 0);
    assert h.TreeSlots() == [d, d, d, d][leaf := b];
    Send(h, tp, v, p, 5 - leaf, 1, m, k, 1);
    assert h.TreeSlots() == [d, d, d, d][leaf := b][1 := a];
    Put(h, tp, m.zero, p, m, k, 2);
    TwinsMerged(h.TreeSlots(), h.StashSlots(), h.cfg, leaf, a, b, c);
    TwinsTotal(h.TreeSlots(), h.StashSlots(), m, d, leaf, a, b, c);
    Laws(m, v, m.zero, m.zero);
  }
}
