/**
  The oblivious stash: one buffer with room for the buckets of a path, followed by the
  overflow slots.  Its operations read a path in, merge it with the overflow, insert and
  remove blocks, and write the blocks back along the path.
 */
module Stash {
  import opened Arithmetic
  import opened Networks
  import opened Compaction
  import opened Blocks
  import opened Reduction
  import opened Routing
  import opened Greedy
  import opened SortReduce
  import opened Tree
  import opened Layout

  /** The constants of a histogram: bucket size, key length, eviction interval, overflow slots, values. */
  datatype Config<!V> = Config(z: nat, k: nat, a: nat, s: nat, values: Values<V>) {
    function Dummy(): Block<V> { Block(0, 0, values.zero, seq(k, _ => 0)) }
  }

  // ---- Blocks in rank order --------------------------------------------------------------------

  /** Of any two real blocks the earlier one shares at least as much of the path. */
  ghost predicate RankedForPath<V>(s: seq<Block<V>>, leaf: nat, height: nat)
    requires height <= MAX_TREE_HEIGHT && LeafAt(leaf, height)
  {
    forall i, j :: 0 <= i < j < |s| && s[i].Real() && s[j].Real() ==>
      LevelOf(s[i].tag, leaf, height) >= LevelOf(s[j].tag, leaf, height)
  }

  lemma {:induction false} RankedIsSorted<V>(s: seq<Block<V>>, leaf: nat, height: nat)
    requires height <= MAX_TREE_HEIGHT && LeafAt(leaf, height) && RankedForPath(s, leaf, height)
    ensures SortedForPath(s, leaf, height)
  {
    hide LevelOf, LeafAt, Live;
    if s == [] {
      assert Live(s) == [];
    } else {
      var n := |s| - 1;
      RankedIsSorted(s[..n], leaf, height);
      LiveLast(s);
      var l := Live(s[..n]);
      forall i | 0 <= i < |l| && s[n].Real()
        ensures LevelOf(l[i].tag, leaf, height) >= LevelOf(s[n].tag, leaf, height)
      {
        assert l[i] in s[..n];
      }
    }
  }

  function RankKey<V>(leaf: nat, height: nat): Block<V> -> nat
    requires height <= MAX_TREE_HEIGHT
  {
    (b: Block<V>) => PathRankKey(b.tag, leaf, height)
  }

  /** Sorting by rank key and reducing leaves the blocks in rank order. */
  lemma MergedIsRanked<V(!new)>(m: Values<V>, s: seq<Block<V>>, leaf: nat, height: nat)
    requires height <= MAX_TREE_HEIGHT && LeafAt(leaf, height)
    ensures RankedForPath(Reduced(m, SortedByKey(s, RankKey(leaf, height))), leaf, height)
  {
    hide SortedByKey, Reduced, PathRankKey, DeepestSharedLevel, LeafAt;
    var t := SortedByKey(s, RankKey(leaf, height));
    SortedByKeyIsSorted(s, RankKey(leaf, height));
    var r := Reduced(m, t);
    forall i, j | 0 <= i < j < |r| && r[i].Real() && r[j].Real()
      ensures LevelOf(r[i].tag, leaf, height) >= LevelOf(r[j].tag, leaf, height)
    {
      Survives(m, t, i);
      Survives(m, t, j);
      assert RankKey(leaf, height)(t[i]) <= RankKey(leaf, height)(t[j]);
      RankOrder(t[i].tag, t[j].tag, leaf, height);
    }
  }

  // ---- Inserting ---------------------------------------------------------------------------------

  /** An update of a batch; one that is not `real` only takes up its place. */
  datatype Update<V> = Update(tag: Tag, value: V, payload: Payload, isReal: bool)

  ghost function UpdateBlock<V>(u: Update<V>, epoch: Byte, dummy: Block<V>): Block<V> {
    if u.isReal then Block(u.tag, epoch, u.value, u.payload) else dummy
  }

  ghost function UpdateBlocks<V>(us: seq<Update<V>>, epoch: Byte, dummy: Block<V>): (r: seq<Block<V>>)
    ensures |r| == |us|
  {
    seq(|us|, i requires 0 <= i < |us| => UpdateBlock(us[i], epoch, dummy))
  }

  // ---- Removing ----------------------------------------------------------------------------------

  /** What a scan for `p` returns: the value of the last match. */
  ghost function LastMatch<V>(m: Values<V>, s: seq<Block<V>>, p: Payload): V {
    if s == [] then m.zero
    else if Matches(s[|s| - 1], p) then s[|s| - 1].value
    else LastMatch(m, s[..|s| - 1], p)
  }

  ghost function Removed<V>(s: seq<Block<V>>, p: Payload): (r: seq<Block<V>>)
    ensures |r| == |s|
  {
    seq(|s|, i requires 0 <= i < |s| => if Matches(s[i], p) then s[i].(tag := 0) else s[i])
  }

  lemma {:induction false} RemovedLive<V>(s: seq<Block<V>>, p: Payload)
    ensures forall x :: multiset(Live(Removed(s, p)))[x] == if x.payload == p then 0 else multiset(Live(s))[x]
  {
    if s != [] {
      var n := |s| - 1;
      RemovedLive(s[..n], p);
      assert Removed(s, p)[..n] == Removed(s[..n], p);
    }
  }

  /** Removing `p` zeroes its total and keeps every other key's. */
  lemma {:induction false} RemovedTotals<V(!new)>(m: Values<V>, s: seq<Block<V>>, p: Payload, q: Payload)
    requires Lawful(m)
    ensures Total(m, Removed(s, p), q) == if p == q then m.zero else Total(m, s, q)
  {
    if s != [] {
      var n := |s| - 1;
      RemovedTotals(m, s[..n], p, q);
      assert Removed(s, p)[..n] == Removed(s[..n], p);
      Laws(m, m.zero, m.zero, m.zero);
    }
  }

  lemma RemovedIsRanked<V>(s: seq<Block<V>>, p: Payload, leaf: nat, height: nat)
    requires height <= MAX_TREE_HEIGHT && LeafAt(leaf, height) && RankedForPath(s, leaf, height)
    ensures RankedForPath(Removed(s, p), leaf, height)
  {
    hide LevelOf, LeafAt;
    var r := Removed(s, p);
    forall i | 0 <= i < |r| ensures r[i].Real() ==> r[i] == s[i] {}
  }

  /** When the key has at most one block, the scan returns its total. */
  lemma {:induction false} LastMatchIsTotal<V(!new)>(m: Values<V>, s: seq<Block<V>>, p: Payload)
    requires Lawful(m) && Single(s, p)
    ensures LastMatch(m, s, p) == Total(m, s, p)
  {
    if s != [] {
      var n := |s| - 1;
      LastMatchIsTotal(m, s[..n], p);
      if Matches(s[n], p) {
        TotalAbsent(m, s[..n], p);
        Laws(m, s[n].value, m.zero, m.zero);
      } else {
        Laws(m, Total(m, s[..n], p), m.zero, m.zero);
      }
    }
  }

  // ---- What a write-back leaves -------------------------------------------------------------------

  /** The state after a write-back of `before`, laid out as `laid`. */
  ghost predicate WroteBack<V>(before: seq<Block<V>>, after: seq<Block<V>>, mem: seq<Block<V>>, mem': seq<Block<V>>,
                               laid: seq<Block<V>>, cfg: Config<V>, leaf: nat, height: nat)
    requires height <= MAX_TREE_HEIGHT && LeafAt(leaf, height)
  {
    && |before| == Slots(height + 1, cfg.z) + cfg.s && |after| == |before| && |laid| == |before|
    && multiset(laid) == multiset(before)
    && LaidOut(Live(before), laid, LevelsOf(Live(before), leaf, height), cfg.z, height)
    && AgreeOffPath(mem, mem', cfg.z, height, leaf)
    && (forall d: nat :: d <= height ==> PathBucketIs(mem', laid, cfg.z, leaf, height, d))
    && after == Dummies(Slots(height + 1, cfg.z), cfg.Dummy()) + laid[Slots(height + 1, cfg.z)..]
  }

  /** The depth-`d` bucket of the path is the corresponding stretch of the layout. */
  ghost predicate PathBucketIs<V>(mem: seq<Block<V>>, laid: seq<Block<V>>, z: nat, leaf: nat, height: nat, d: nat)
    requires d <= height
  {
    && HasBucket(mem, z, NodeOnPath(leaf, d, height))
    && Slots(height - d, z) + z <= |laid|
    && Bucket(mem, z, NodeOnPath(leaf, d, height)) == laid[Slots(height - d, z)..Slots(height - d, z) + z]
  }

  lemma {:induction false} PathIsLaid<V>(mem: seq<Block<V>>, laid: seq<Block<V>>, z: nat, leaf: nat, height: nat,
                                         n: nat)
    requires LeafAt(leaf, height) && Shape(mem, z, height) && n <= height + 1 && Slots(height + 1, z) <= |laid|
    requires forall d: nat :: d <= height ==> PathBucketIs(mem, laid, z, leaf, height, d)
    ensures Slots(height + 1 - n, z) <= Slots(height + 1, z)
    ensures LeafFirst(mem, z, height, leaf, n) == laid[Slots(height + 1 - n, z)..Slots(height + 1, z)]
  {
    hide Slots, NodeOnPath, Shape, LeafAt, Bucket, HasBucket;
    SlotsMonotone(height + 1 - n, height + 1, z);
    if n > 0 {
      PathIsLaid(mem, laid, z, leaf, height, n - 1);
      NodeIsLeaf(leaf, n - 1, height);
      LevelHasBucket(mem, z, height, NodeOnPath(leaf, n - 1, height), n - 1);
      assert PathBucketIs(mem, laid, z, leaf, height, n - 1);
      SlotsNext(height + 1 - n, z);
      SlotsMonotone(height + 2 - n, height + 1, z);
    }
  }

  /** No real block is lost or duplicated by a write-back: the path and the overflow hold them all. */
  lemma WroteBackConserves<V>(before: seq<Block<V>>, after: seq<Block<V>>, mem: seq<Block<V>>, mem': seq<Block<V>>,
                              laid: seq<Block<V>>, cfg: Config<V>, leaf: nat, height: nat)
    requires height <= MAX_TREE_HEIGHT && LeafAt(leaf, height)
    requires WroteBack(before, after, mem, mem', laid, cfg, leaf, height)
    ensures Shape(mem, cfg.z, height) && Shape(mem', cfg.z, height)
    ensures multiset(Live(LeafFirst(mem', cfg.z, height, leaf, height + 1))) + multiset(Live(after))
              == multiset(Live(before))
  {
    hide Live, Slots, LaidOut, AgreeOffPath, PathBucketIs, LeafAt, Shape;
    var p := Slots(height + 1, cfg.z);
    AgreeShape(mem, mem', cfg.z, height, leaf);
    SlotsNext(0, cfg.z);
    PathIsLaid(mem', laid, cfg.z, leaf, height, height + 1);
    assert laid[Slots(0, cfg.z)..p] == laid[..p];
    assert laid == laid[..p] + laid[p..];
    LiveConcat(laid[..p], laid[p..]);
    LiveConcat(Dummies(p, cfg.Dummy()), laid[p..]);
    LiveNone(Dummies(p, cfg.Dummy()));
    assert Live(after) == Live(laid[p..]);
    LivePermutes(laid, before);
  }

  /** Written back in rank order, every block sits in a bucket on its own path. */
  lemma WroteBackOnPath<V>(before: seq<Block<V>>, after: seq<Block<V>>, mem: seq<Block<V>>, mem': seq<Block<V>>,
                           laid: seq<Block<V>>, cfg: Config<V>, leaf: nat, height: nat)
    requires height <= MAX_TREE_HEIGHT && LeafAt(leaf, height) && PathInvariant(mem, cfg.z, height)
    requires WroteBack(before, after, mem, mem', laid, cfg, leaf, height) && RankedForPath(before, leaf, height)
    ensures PathInvariant(mem', cfg.z, height)
  {
    hide Live, Slots, AgreeOffPath, LeafAt, PathInvariant, NodeOnPath, RankedForPath, NodeOk, LaidOut, PathBucketIs;
    RankedIsSorted(before, leaf, height);
    forall d: nat | d <= height ensures PathNodeOk(mem', cfg.z, leaf, height, d) {
      BucketOnPath(before, mem', laid, cfg.z, leaf, height, d);
    }
    RewriteKeepsInvariant(mem, mem', cfg.z, height, leaf);
  }

  lemma BucketOnPath<V>(before: seq<Block<V>>, mem': seq<Block<V>>, laid: seq<Block<V>>, z: nat, leaf: nat, height: nat,
                        d: nat)
    requires height <= MAX_TREE_HEIGHT && LeafAt(leaf, height) && d <= height
    requires LaidOut(Live(before), laid, LevelsOf(Live(before), leaf, height), z, height)
    requires SortedForPath(before, leaf, height) && PathBucketIs(mem', laid, z, leaf, height, d)
    ensures PathNodeOk(mem', z, leaf, height, d)
  {
    hide Live, Slots, LeafAt, NodeOnPath, DeepestSharedLevel, AddressToLeaf, FromLevel, Counts, NonIncreasing, Assigned;
    var node, r := NodeOnPath(leaf, d, height), Live(before);
    var levels := LevelsOf(r, leaf, height);
    var b := Bucket(mem', z, node);
    forall j | 0 <= j < z && b[j].Real() ensures AddressToLeaf(b[j].tag, d) == node {
      assert BucketSlot(r, laid, levels, z, height, d, j);
      assert b[j] == laid[Slots(height - d, z) + j];
      var q := FromLevel(Counts(levels, z, height), d + 1) + j;
      assert b[j] == r[q] && d <= levels[q];
      SharedLevel(leaf, b[j].tag, height, d);
    }
  }

  // ---- Helpers over arrays -----------------------------------------------------------------------------

  method CopyBlocks<T>(src: array<T>, i: nat, dst: array<T>, j: nat, n: nat)
    requires src != dst && i + n <= src.Length && j + n <= dst.Length
    modifies dst
    ensures dst[..] == old(dst[..j]) + src[i..i + n] + old(dst[j + n..])
  {
    ghost var d := dst[..];
    for k := 0 to n
      invariant dst[..j] == d[..j] && dst[j..j + k] == src[i..i + k] && dst[j + k..] == d[j + k..]
    {
      dst[j + k] := src[i + k];
    }
    assert dst[..] == dst[..j] + dst[j..j + n] + dst[j + n..];
  }

  method Fill<T>(a: array<T>, n: nat, x: T)
    requires n <= a.Length
    modifies a
    ensures forall i :: 0 <= i < n ==> a[i] == x
    ensures a[n..] == old(a[n..])
  {
    ghost var s := a[..];
    for i := 0 to n
      invariant forall k :: 0 <= k < i ==> a[k] == x
      invariant a[i..] == s[i..]
    {
      a[i] := x;
    }
  }

  /** A copy of `a` with `gap` slots of `x` put in at `p`. */
  method Splice<T>(a: array<T>, p: nat, gap: nat, x: T) returns (longer: array<T>)
    requires p <= a.Length
    ensures fresh(longer) && longer[..] == a[..p] + seq(gap, _ => x) + a[p..]
  {
    longer := new T[a.Length + gap](_ => x);
    for i := 0 to p
      invariant forall k :: 0 <= k < i ==> longer[k] == a[k]
      invariant forall k :: i <= k < longer.Length ==> longer[k] == x
    {
      longer[i] := a[i];
    }
    for i := p to a.Length
      invariant forall k :: 0 <= k < p ==> longer[k] == a[k]
      invariant forall k :: p <= k < p + gap ==> longer[k] == x
      invariant forall k :: p <= k < i ==> longer[k + gap] == a[k]
    {
      longer[i + gap] := a[i];
    }
    forall k | p + gap <= k < longer.Length ensures longer[k] == a[k - gap] {
      assert longer[(k - gap) + gap] == a[k - gap];
    }
  }

  /** One block's turn in the greedy scan: the deepest legal level with room takes it. */
  method AssignBlock(counts: array<nat>, nLevels: nat, z: nat, blockLevel: nat, isReal: bool) returns (placed: bool)
    requires blockLevel < nLevels <= counts.Length
    modifies counts
    ensures var d := Deepest(old(counts[..nLevels]), z, blockLevel);
      && placed == (isReal && d >= 0)
      && counts[..nLevels] == if placed then old(counts[..nLevels])[d := old(counts[..nLevels])[d] + 1]
                              else old(counts[..nLevels])
  {
    ghost var c := counts[..nLevels];
    ghost var d := Deepest(c, z, blockLevel);
    placed := false;
    for level := nLevels downto 0
      invariant !placed ==> counts[..nLevels] == c
      invariant !placed && isReal ==> d < level
      invariant placed ==> isReal && d >= 0 && counts[..nLevels] == c[d := c[d] + 1]
    {
      var legalLevel, bucketNotFull := level < blockLevel + 1, counts[level] < z;
      assert counts[level] == counts[..nLevels][level];
      var shouldAssign := legalLevel && bucketNotFull && !placed && isReal;
      if shouldAssign { counts[level] := counts[level] + 1; }
      placed := placed || shouldAssign;
    }
  }

  class ObliviousStash<V(!new)> {
    const cfg: Config<V>
    var blocks: array<Block<V>>
    var pathSize: nat

    /** The buffer always holds the path slots of a tree of this height and the overflow slots. */
    ghost predicate Valid(height: nat)
      reads this
    {
      pathSize == Slots(height + 1, cfg.z) && blocks.Length == pathSize + cfg.s
    }

    constructor (cfg: Config<V>, pathSize: nat, ghost height: nat)
      requires pathSize == Slots(height + 1, cfg.z)
      ensures this.cfg == cfg && Valid(height) && fresh(blocks)
      ensures blocks[..] == Dummies(pathSize + cfg.s, cfg.Dummy())
    {
      this.cfg := cfg;
      this.pathSize := pathSize;
      var dummy := cfg.Dummy();
      blocks := new Block<V>[pathSize + cfg.s](_ => dummy);
    }

    /** The scan's step at slot `i`. */
    method AssignNext(counts: array<nat>, i: nat, position: nat, h: nat) returns (shouldOverflow: bool)
      requires h <= MAX_TREE_HEIGHT && LeafAt(position, h) && i < blocks.Length && h < counts.Length
      requires counts[..h + 1] == Counts(LevelsOf(Live(blocks[..i]), position, h), cfg.z, h)
      modifies counts
      ensures counts[..h + 1] == Counts(LevelsOf(Live(blocks[..i + 1]), position, h), cfg.z, h)
      ensures Overflow(LevelsOf(Live(blocks[..i + 1]), position, h), cfg.z, h)
           == Overflow(LevelsOf(Live(blocks[..i]), position, h), cfg.z, h) + if shouldOverflow then 1 else 0
    {
      hide Counts, Overflow, LevelsOf, LevelOf, Live, DeepestSharedLevel, Deepest, LeafAt;
      ghost var s := blocks[..];
      var block := blocks[i];
      LevelIs(block.tag, position, h);
      var blockLevel := DeepestSharedLevel(position, block.tag, h);
      var placed := AssignBlock(counts, h + 1, cfg.z, blockLevel, block.Real());
      shouldOverflow := block.Real() && !placed;
      ScanNext(s, i, position, h, cfg.z);
      assert s[..i] == blocks[..i] && s[..i + 1] == blocks[..i + 1];
    }

    /** The scan of `write_to_path` that decides how many blocks each bucket takes. */
    method AssignLevels(position: nat, ghost height: nat) returns (levelCounts: seq<nat>, overflowCount: nat)
      requires height <= MAX_TREE_HEIGHT && LeafAt(position, height)
      ensures levelCounts == Counts(LevelsOf(Live(blocks[..]), position, height), cfg.z, height)
      ensures overflowCount == Overflow(LevelsOf(Live(blocks[..]), position, height), cfg.z, height)
    {
      DepthOfLeaf(position, height);
      var h := Depth(position);
      var nLevels := h + 1;
      var counts := new nat[32](_ => 0);
      overflowCount := 0;
      ghost var s := blocks[..];
      ScanStart(s, position, height, cfg.z);
      hide Counts, Overflow, LevelsOf, LevelOf, Live, DeepestSharedLevel, Deepest, LeafAt;
      assert counts[..nLevels] == Counts(LevelsOf(Live(s[..0]), position, height), cfg.z, height);
      for i := 0 to blocks.Length
        invariant fresh(counts) && counts.Length == 32
        invariant blocks[..] == s
        invariant counts[..nLevels] == Counts(LevelsOf(Live(blocks[..i]), position, height), cfg.z, height)
        invariant overflowCount == Overflow(LevelsOf(Live(blocks[..i]), position, height), cfg.z, height)
      {
        var shouldOverflow := AssignNext(counts, i, position, h);
        overflowCount := overflowCount + if shouldOverflow then 1 else 0;
      }
      levelCounts := counts[..nLevels];
    }

    /**
      `write_to_path`: lays the stash out along the path to `position` and keeps what is
      left over.  It fails exactly when the overflow would not leave a free slot.
     */
    method WriteToPath(mem: array<Block<V>>, position: nat, ghost height: nat)
        returns (ok: bool, ghost laid: seq<Block<V>>)
      requires height <= MAX_TREE_HEIGHT && LeafAt(position, height) && Valid(height)
      requires mem != blocks && Shape(mem[..], cfg.z, height)
      modifies blocks, mem
      ensures ok == (Overflow(LevelsOf(Live(old(blocks[..])), position, height), cfg.z, height) < cfg.s)
      ensures !ok ==> blocks[..] == old(blocks[..]) && mem[..] == old(mem[..])
      ensures ok ==> WroteBack(old(blocks[..]), blocks[..], old(mem[..]), mem[..], laid, cfg, position, height)
    {
      hide Counts, Overflow, LevelsOf, Live, LeafAt, LaidOut, PathBucketIs, Shape;
      ghost var s := blocks[..];
      var levelCounts, overflowCount := AssignLevels(position, height);
      var overflowCapacity := blocks.Length - pathSize;
      if overflowCount >= overflowCapacity {
        ok, laid := false, s;
        return;
      }
      LayOut(position, height, levelCounts, overflowCount);
      laid := blocks[..];
      CopyBack(mem, position, height);
      var dummy := cfg.Dummy();
      Fill(blocks, pathSize, dummy);
      assert blocks[..] == Dummies(pathSize, dummy) + laid[pathSize..];
      ok := true;
    }

    /** The middle of `write_to_path`: compaction, then distribution to the slots of the path. */
    method LayOut(position: nat, ghost height: nat, levelCounts: seq<nat>, overflowCount: nat)
      requires height <= MAX_TREE_HEIGHT && LeafAt(position, height) && Valid(height)
      requires levelCounts == Counts(LevelsOf(Live(blocks[..]), position, height), cfg.z, height)
      requires overflowCount == Overflow(LevelsOf(Live(blocks[..]), position, height), cfg.z, height) <= cfg.s
      modifies blocks
      ensures multiset(blocks[..]) == multiset(old(blocks[..]))
      ensures var r := Live(old(blocks[..]));
        LaidOut(r, blocks[..], LevelsOf(r, position, height), cfg.z, height)
    {
      hide Counts, Overflow, LevelsOf, Live, LeafAt, LayoutMarks, LaidOut, CompactNet, DistributeNet, Swapped;
      ghost var s := blocks[..];
      assert blocks[0..blocks.Length] == s;
      var compactMarks := CompactMarks(blocks, 0, blocks.Length);
      var distributeMarks := BuildLayoutMarks(cfg.z, levelCounts, overflowCount, blocks.Length - pathSize);
      LayoutHolds(s, LevelsOf(Live(s), position, height), distributeMarks, cfg.z, height, cfg.s);
      CompactPayload(blocks, 0, blocks.Length, compactMarks, 0);
      ghost var compacted := blocks[..];
      DistributePayload(blocks, 0, blocks.Length, distributeMarks, 0);
      BothSwapped(s, compacted, blocks[..], CompactNet(compactMarks, 0, 0, |s|),
                  DistributeNet(distributeMarks, 0, 0, |s|));
    }

    /** The closing loop of `write_to_path`: bucket by bucket onto the path. */
    method CopyBack(mem: array<Block<V>>, position: nat, ghost height: nat)
      requires LeafAt(position, height) && Valid(height)
      requires mem != blocks && Shape(mem[..], cfg.z, height)
      modifies mem
      ensures AgreeOffPath(old(mem[..]), mem[..], cfg.z, height, position)
      ensures forall d: nat :: d <= height ==> PathBucketIs(mem[..], blocks[..], cfg.z, position, height, d)
    {
      DepthOfLeaf(position, height);
      var h := Depth(position);
      ghost var mem0 := mem[..];
      hide Slots, LeafAt, NodeOnPath, Shape, PathBucketIs, OnPath, SameBucket, Depth;
      NothingCopied(mem0, cfg.z, position, height);
      for depth := 0 to h + 1
        invariant Copied(mem0, mem[..], blocks[..], cfg.z, position, height, depth)
      {
        var dstIdx := NodeOnPath(position, depth, h);
        var srcStart, dstStart := Slots(h - depth, cfg.z), Slots(dstIdx, cfg.z);
        ghost var before := mem[..];
        PathBounds(before, |blocks[..]|, cfg.z, position, height, depth, cfg.s);
        CopyBlocks(blocks, srcStart, mem, dstStart, cfg.z);
        CopiedNext(mem0, before, mem[..], blocks[..], cfg.z, position, height, depth);
      }
      CopiedAll(mem0, mem[..], blocks[..], cfg.z, position, height);
    }

    /** One bucket into the path buffer, `all` being what the buffer is to hold. */
    method ReadBucket(mem: array<Block<V>>, srcStart: nat, dstStart: nat, ghost all: seq<Block<V>>)
      requires mem != blocks && dstStart + cfg.z <= pathSize <= blocks.Length && srcStart + cfg.z <= mem.Length
      requires |all| == pathSize
      requires blocks[dstStart + cfg.z..pathSize] == all[dstStart + cfg.z..]
      requires mem[srcStart..srcStart + cfg.z] == all[dstStart..dstStart + cfg.z]
      modifies blocks
      ensures blocks[pathSize..] == old(blocks[pathSize..]) && blocks[dstStart..pathSize] == all[dstStart..]
    {
      ghost var before, bucket := blocks[..], mem[srcStart..srcStart + cfg.z];
      CopyBlocks(mem, srcStart, blocks, dstStart, cfg.z);
      ReadNext(before, blocks[..], bucket, all, dstStart, cfg.z, pathSize);
    }

    /** `read_from_path`: the buckets of the path, root first, replace the path buffer. */
    method ReadFromPath(mem: array<Block<V>>, position: nat, ghost height: nat)
      requires LeafAt(position, height) && Valid(height)
      requires mem != blocks && Shape(mem[..], cfg.z, height)
      modifies blocks
      ensures blocks[..] == RootFirst(mem[..], cfg.z, height, position, height + 1) + old(blocks[pathSize..])
    {
      DepthOfLeaf(position, height);
      var h := Depth(position);
      hide Slots, LeafAt, NodeOnPath, Shape, Depth;
      ghost var overflow, m := blocks[pathSize..], mem[..];
      ghost var all := RootFirst(m, cfg.z, height, position, height + 1);
      SlotsMonotone(0, height + 1, cfg.z);
      for depth := h + 1 downto 0
        invariant Slots(depth, cfg.z) <= pathSize
        invariant blocks[pathSize..] == overflow
        invariant blocks[Slots(depth, cfg.z)..pathSize] == all[Slots(depth, cfg.z)..]
      {
        var bucketIndex := NodeOnPath(position, depth, h);
        var dstStart, srcStart := Slots(depth, cfg.z), Slots(bucketIndex, cfg.z);
        SlotsMonotone(depth, height + 1, cfg.z);
        RootFirstBucket(m, cfg.z, height, position, height + 1, depth);
        SlotsNext(depth, cfg.z);
        ReadBucket(mem, srcStart, dstStart, all);
      }
      SlotsNext(0, cfg.z);
      assert blocks[..] == blocks[Slots(0, cfg.z)..pathSize] + blocks[pathSize..];
      assert all[Slots(0, cfg.z)..] == all;
    }

    /** `merge_accumulate_for_path`: sorts by rank along the path and reduces equal runs. */
    method MergeAccumulateForPath(position: nat, ghost height: nat)
      requires height <= MAX_TREE_HEIGHT && LeafAt(position, height)
      modifies blocks
      ensures blocks[..] == Reduced(cfg.values, SortedByKey(old(blocks[..]), RankKey(position, height)))
    {
      DepthOfLeaf(position, height);
      var h := Depth(position);
      SortAndReduce(cfg.values, blocks, RankKey(position, h));
    }

    /** `read_and_remove`: scans for `p`, dummies out every match and returns the last one's value. */
    method ReadAndRemove(p: Payload) returns (result: V)
      modifies blocks
      ensures result == LastMatch(cfg.values, old(blocks[..]), p)
      ensures blocks[..] == Removed(old(blocks[..]), p)
    {
      result := cfg.values.zero;
      ghost var s := blocks[..];
      for i := 0 to blocks.Length
        invariant result == LastMatch(cfg.values, s[..i], p)
        invariant forall k :: 0 <= k < i ==> blocks[k] == Removed(s, p)[k]
        invariant forall k :: i <= k < blocks.Length ==> blocks[k] == s[k]
      {
        assert s[..i + 1][..i] == s[..i];
        var isTarget := blocks[i].payload == p && blocks[i].Real();
        if isTarget {
          result := blocks[i].value;
          blocks[i] := blocks[i].(tag := 0);
        }
      }
      assert s[..blocks.Length] == s;
      assert blocks[..] == Removed(s, p);
    }

    /** `insert`: the first free overflow slot takes the block; without one it fails. */
    method Insert(tag: Tag, epoch: Byte, value: V, payload: Payload) returns (ok: bool)
      requires pathSize <= blocks.Length
      modifies blocks
      ensures ok == (FreeSlot(old(blocks[..]), pathSize) < blocks.Length)
      ensures !ok ==> blocks[..] == old(blocks[..])
      ensures ok ==>
                blocks[..] == old(blocks[..])[FreeSlot(old(blocks[..]), pathSize) := Block(tag, epoch, value, payload)]
    {
      var placed := false;
      ghost var s := blocks[..];
      ghost var at := FreeSlot(s, pathSize);
      for i := pathSize to blocks.Length
        invariant placed <==> at < i
        invariant blocks[..] == if placed then s[at := Block(tag, epoch, value, payload)] else s
      {
        var put := !blocks[i].Real() && !placed;
        if put { blocks[i] := Block(tag, epoch, value, payload); }
        placed := placed || put;
      }
      ok := placed;
    }

    /** The working buffer of `insert_batch`: the overflow followed by the updates. */
    method GatherScratch(updates: seq<Update<V>>, epoch: Byte) returns (scratch: array<Block<V>>)
      requires pathSize <= blocks.Length
      ensures fresh(scratch)
      ensures scratch[..] == blocks[pathSize..] + UpdateBlocks(updates, epoch, cfg.Dummy())
    {
      var overflowLen, count := blocks.Length - pathSize, |updates|;
      var dummy := cfg.Dummy();
      scratch := new Block<V>[overflowLen + count](_ => dummy);
      CopyBlocks(blocks, pathSize, scratch, 0, overflowLen);
      assert scratch[..overflowLen] == blocks[pathSize..];
      ghost var us := UpdateBlocks(updates, epoch, dummy);
      for i := 0 to count
        invariant scratch[..overflowLen] == blocks[pathSize..]
        invariant forall k :: 0 <= k < i ==> scratch[overflowLen + k] == us[k]
      {
        var u := updates[i];
        scratch[overflowLen + i] := dummy;
        if u.isReal { scratch[overflowLen + i] := Block(u.tag, epoch, u.value, u.payload); }
      }
      assert scratch[..] == scratch[..overflowLen] + scratch[overflowLen..];
      assert scratch[overflowLen..] == us;
    }

    /** Compacts the working buffer and dummies out what is behind its real blocks. */
    method PackScratch(scratch: array<Block<V>>, marks: seq<nat>)
      requires marks == MarksOf(scratch[..])
      modifies scratch
      ensures CompactedSlice(old(scratch[..]), scratch[..], 0, scratch.Length)
    {
      ghost var work := scratch[..];
      var n := scratch.Length;
      assert work[0..n] == work;
      MarksOfPrefix(work);
      CompactsSlice(work, 0, n);
      hide CompactNet, Live;
      CompactPayload(scratch, 0, n, marks, 0);
      ClearFrom(scratch, marks[n]);
    }

    /** `insert_batch`: compacts the overflow together with the updates; fails when they do not fit. */
    method InsertBatch(updates: seq<Update<V>>, epoch: Byte) returns (ok: bool)
      requires pathSize <= blocks.Length
      modifies blocks
      ensures var all := Live(old(blocks[pathSize..])) + Live(UpdateBlocks(updates, epoch, cfg.Dummy()));
        && ok == (|all| <= blocks.Length - pathSize)
        && (!ok ==> blocks[..] == old(blocks[..]))
        && (ok ==> blocks[..pathSize] == old(blocks[..pathSize]) && Live(blocks[pathSize..]) == all)
    {
      hide Live, CompactedSlice;
      ghost var s := blocks[..];
      var overflowLen := blocks.Length - pathSize;
      var workLen := overflowLen + |updates|;
      var scratch := GatherScratch(updates, epoch);
      ghost var work := scratch[..];
      LiveConcat(s[pathSize..], UpdateBlocks(updates, epoch, cfg.Dummy()));
      assert scratch[0..workLen] == work;
      var marks := CompactMarks(scratch, 0, workLen);
      MarksOfPrefix(work);
      var realLen := marks[workLen];
      if realLen > overflowLen {
        return false;
      }
      PackScratch(scratch, marks);
      ghost var compacted := scratch[..];
      CompactedEnds(work, compacted, overflowLen);
      CopyBlocks(scratch, 0, blocks, pathSize, overflowLen);
      assert blocks[pathSize..] == compacted[..overflowLen];
      ok := true;
    }

    /** `grow_extend_path_buffer`: room for one more bucket at the end of the path buffer. */
    method GrowExtendPathBuffer(ghost height: nat)
      requires Valid(height)
      modifies this
      ensures Valid(height + 1) && fresh(blocks)
      ensures blocks[..] == old(blocks[..pathSize]) + Dummies(cfg.z, cfg.Dummy()) + old(blocks[pathSize..])
    {
      SlotsNext(height + 1, cfg.z);
      hide Slots;
      var dummy := cfg.Dummy();
      var longer := Splice(blocks, pathSize, cfg.z, dummy);
      blocks := longer;
      pathSize := pathSize + cfg.z;
    }

    /** `occupancy`: the real blocks in the overflow. */
    method Occupancy() returns (n: nat)
      requires pathSize <= blocks.Length
      ensures n == |Live(blocks[pathSize..])|
    {
      hide Live;
      n := 0;
      ghost var s := blocks[pathSize..];
      assert Live(s[..0]) == [] by { LiveNone(s[..0]); }
      for i := pathSize to blocks.Length
        invariant n == |Live(s[..i - pathSize])|
      {
        LiveNext(s, i - pathSize);
        assert s[i - pathSize] == blocks[i];
        n := n + if blocks[i].Real() then 1 else 0;
      }
      assert s[..blocks.Length - pathSize] == s;
    }

    /** `count_matching_blocks`: real blocks routed to a leaf and carrying an epoch. */
    method CountMatchingBlocks(height: nat, targetLeaf: nat, targetEpoch: Byte) returns (n: nat)
      requires height <= MAX_TREE_HEIGHT
      ensures n == Matching(blocks[..], height, targetLeaf, targetEpoch)
    {
      n := 0;
      ghost var s := blocks[..];
      for i := 0 to blocks.Length
        invariant n == Matching(s[..i], height, targetLeaf, targetEpoch)
      {
        assert s[..i + 1][..i] == s[..i];
        var b := blocks[i];
        n := n + if b.Real() && AddressToLeaf(b.tag, height) == targetLeaf && b.epoch == targetEpoch then 1 else 0;
      }
      assert s[..blocks.Length] == s;
    }
  }

  ghost function Matching<V>(s: seq<Block<V>>, height: nat, leaf: nat, epoch: Byte): nat
    requires height <= MAX_TREE_HEIGHT
  {
    if s == [] then 0
    else
      var b := s[|s| - 1];
      Matching(s[..|s| - 1], height, leaf, epoch)
      + if b.Real() && AddressToLeaf(b.tag, height) == leaf && b.epoch == epoch then 1 else 0
  }

  /** The slots that hold a real block of the epoch whose tag leads to the leaf. */
  ghost function MatchingSlots<V>(s: seq<Block<V>>, height: nat, leaf: nat, epoch: Byte): set<int>
    requires height <= MAX_TREE_HEIGHT
  {
    set i | 0 <= i < |s| && s[i].Real() && s[i].epoch == epoch
            && Pow2(height) + s[i].tag % 0x8000_0000 / Pow2(MAX_TREE_HEIGHT - height) == leaf
  }

  lemma {:induction false} MatchingIs<V>(s: seq<Block<V>>, height: nat, leaf: nat, epoch: Byte)
    requires height <= MAX_TREE_HEIGHT
    ensures Matching(s, height, leaf, epoch) == |MatchingSlots(s, height, leaf, epoch)|
  {
    hide AddressToLeaf, Pow2;
    if s == [] {
      assert MatchingSlots(s, height, leaf, epoch) == {};
    } else {
      var n := |s| - 1;
      MatchingIs(s[..n], height, leaf, epoch);
      LeafOfTag(s[n].tag, height);
      var before, now := MatchingSlots(s[..n], height, leaf, epoch), MatchingSlots(s, height, leaf, epoch);
      assert forall i :: 0 <= i < n ==> s[..n][i] == s[i];
      assert n !in before;
      if n in now { assert now == before + {n}; } else { assert now == before; }
    }
  }

  /** The blocks of a batch are those of its real updates, and carry the epoch. */
  lemma BatchBlocks<V>(us: seq<Update<V>>, epoch: Byte, dummy: Block<V>, b: Block<V>)
    requires !dummy.Real()
    ensures b in Live(UpdateBlocks(us, epoch, dummy)) <==>
            b.Real() && b.epoch == epoch && Update(b.tag, b.value, b.payload, true) in us
  {
    hide Live;
    var s := UpdateBlocks(us, epoch, dummy);
    if b in Live(s) {
      var i :| 0 <= i < |s| && s[i] == b;
      assert us[i] == Update(b.tag, b.value, b.payload, true);
    }
    if b.Real() && b.epoch == epoch && Update(b.tag, b.value, b.payload, true) in us {
      var i :| 0 <= i < |us| && us[i] == Update(b.tag, b.value, b.payload, true);
      assert s[i] == b;
      LiveAt(s, i);
    }
  }

  /** The first free slot at or after `start`; the length when there is none. */
  ghost function FreeSlot<V>(s: seq<Block<V>>, start: nat): (i: nat)
    requires start <= |s|
    ensures start <= i <= |s| && (forall k :: start <= k < i ==> s[k].Real()) && (i < |s| ==> !s[i].Real())
    decreases |s| - start
  {
    if start == |s| || !s[start].Real() then start else FreeSlot(s, start + 1)
  }

  // ---- Steps of the methods ------------------------------------------------------------------------

  /** One more bucket of the path has been read into the buffer. */
  lemma ReadNext<T>(before: seq<T>, after: seq<T>, bucket: seq<T>, all: seq<T>, i: nat, n: nat, p: nat)
    requires |all| == p && |bucket| == n && i + n <= p <= |before|
    requires after == before[..i] + bucket + before[i + n..]
    requires before[i + n..p] == all[i + n..] && all[i..i + n] == bucket
    ensures |after| == |before| && after[p..] == before[p..] && after[i..p] == all[i..]
  {
    forall k | i <= k < p ensures after[k] == all[k] {
      if k < i + n {
        assert bucket[k - i] == all[i..i + n][k - i];
      } else {
        assert before[i + n..p][k - i - n] == all[i + n..][k - i - n];
      }
    }
  }

  lemma BothSwapped<T>(s: seq<T>, c: seq<T>, d: seq<T>, first: Network, second: Network)
    requires Swapped(first, s, c) && Swapped(second, c, d)
    ensures Fits(first, |s|) && Fits(second, |s|) && d == Run(second, Run(first, s, Always), Always) && |d| == |s|
  {
  }

  lemma CompactedEnds<V>(work: seq<Block<V>>, compacted: seq<Block<V>>, keep: nat)
    requires CompactedSlice(work, compacted, 0, |work|) && |Live(work)| <= keep <= |work|
    ensures |compacted| == |work| && Live(compacted[..keep]) == Live(work)
    ensures forall i :: |Live(work)| <= i < |work| ==> !compacted[i].Real()
  {
    hide Live;
    assert work[0..0 + |work|] == work;
    var r := |Live(work)|;
    assert compacted[..keep] == compacted[0..0 + r] + compacted[r..keep];
    LiveConcat(compacted[0..0 + r], compacted[r..keep]);
    forall i | 0 <= i < r ensures Live(work)[i].Real() { assert Live(work)[i] in Live(work); }
    LiveAll(compacted[0..0 + r]);
    LiveNone(compacted[r..keep]);
  }

  /** Bucket `d` of the path within the buckets read root first. */
  lemma {:induction false} RootFirstBucket<V>(mem: seq<Block<V>>, z: nat, height: nat, leaf: nat, n: nat, d: nat)
    requires Shape(mem, z, height) && LeafAt(leaf, height) && d < n <= height + 1
    ensures HasBucket(mem, z, NodeOnPath(leaf, d, height)) && Slots(d, z) + z <= Slots(n, z)
    ensures RootFirst(mem, z, height, leaf, n)[Slots(d, z)..Slots(d, z) + z]
              == Bucket(mem, z, NodeOnPath(leaf, d, height))
  {
    hide Slots, Shape, LeafAt, NodeOnPath;
    NodeIsLeaf(leaf, n - 1, height);
    LevelHasBucket(mem, z, height, NodeOnPath(leaf, n - 1, height), n - 1);
    SlotsNext(n - 1, z);
    if d < n - 1 {
      RootFirstBucket(mem, z, height, leaf, n - 1, d);
    }
  }

  /** The first `n` buckets of the path have been copied back. */
  ghost predicate Copied<V>(mem0: seq<Block<V>>, mem: seq<Block<V>>, blocks: seq<Block<V>>, z: nat, leaf: nat,
                            height: nat, n: nat) {
    && n <= height + 1 && Shape(mem0, z, height) && Shape(mem, z, height)
    && (forall d: nat :: d < n && d <= height ==> PathBucketIs(mem, blocks, z, leaf, height, d))
    && (forall node: nat {:trigger OnPath(node, leaf, height, n)} ::
          (node < Pow2(height + 1) && !OnPath(node, leaf, height, n) ==> SameBucket(mem0, mem, z, node)))
  }

  lemma NothingCopied<V>(mem0: seq<Block<V>>, z: nat, leaf: nat, height: nat)
    requires Shape(mem0, z, height)
    ensures forall blocks: seq<Block<V>> :: Copied(mem0, mem0, blocks, z, leaf, height, 0)
  {
    hide Slots, Shape;
    forall node: nat | node < Pow2(height + 1) ensures SameBucket(mem0, mem0, z, node) {
      NodeHasBucket(mem0, z, height, node);
    }
  }

  lemma PathBounds<V>(mem: seq<Block<V>>, len: nat, z: nat, leaf: nat, height: nat, d: nat, cap: nat)
    requires LeafAt(leaf, height) && d <= height && Shape(mem, z, height) && len == Slots(height + 1, z) + cap
    ensures HasBucket(mem, z, NodeOnPath(leaf, d, height)) && Slots(height - d, z) + z <= len
  {
    hide Slots, NodeOnPath, LeafAt;
    NodeIsLeaf(leaf, d, height);
    LevelHasBucket(mem, z, height, NodeOnPath(leaf, d, height), d);
    SlotsMonotone(height - d, height + 1, z);
  }

  lemma CopiedNext<V>(mem0: seq<Block<V>>, mem: seq<Block<V>>, mem': seq<Block<V>>, blocks: seq<Block<V>>,
                      z: nat, leaf: nat, height: nat, d: nat)
    requires LeafAt(leaf, height) && d <= height && Copied(mem0, mem, blocks, z, leaf, height, d)
    requires HasBucket(mem, z, NodeOnPath(leaf, d, height)) && Slots(height - d, z) + z <= |blocks|
    requires mem' == SetBucket(mem, z, NodeOnPath(leaf, d, height),
                               blocks[Slots(height - d, z)..Slots(height - d, z) + z])
    ensures Copied(mem0, mem', blocks, z, leaf, height, d + 1)
  {
    hide Slots, NodeOnPath, LeafAt, SetBucket, Bucket, HasBucket;
    var here, b := NodeOnPath(leaf, d, height), blocks[Slots(height - d, z)..Slots(height - d, z) + z];
    SetBucketAt(mem, z, here, b, here);
    forall e: nat | e < d + 1 && e <= height ensures PathBucketIs(mem', blocks, z, leaf, height, e) {
      if e < d {
        assert PathBucketIs(mem, blocks, z, leaf, height, e);
        PathNodesDiffer(leaf, height, e, d);
        SetBucketAt(mem, z, here, b, NodeOnPath(leaf, e, height));
      }
    }
    forall node: nat | node < Pow2(height + 1) && !OnPath(node, leaf, height, d + 1)
      ensures SameBucket(mem0, mem', z, node)
    {
      assert node != here && !OnPath(node, leaf, height, d);
      assert SameBucket(mem0, mem, z, node);
      SetBucketAt(mem, z, here, b, node);
    }
  }

  lemma CopiedAll<V>(mem0: seq<Block<V>>, mem: seq<Block<V>>, blocks: seq<Block<V>>, z: nat, leaf: nat, height: nat)
    requires Copied(mem0, mem, blocks, z, leaf, height, height + 1)
    ensures AgreeOffPath(mem0, mem, z, height, leaf)
    ensures forall d: nat :: d <= height ==> PathBucketIs(mem, blocks, z, leaf, height, d)
  {
    hide Slots, Shape, NodeOnPath, SameBucket, PathBucketIs, OnPath;
  }

  lemma LevelIs(tag: Tag, leaf: nat, height: nat)
    requires height <= MAX_TREE_HEIGHT && LeafAt(leaf, height)
    ensures DeepestSharedLevel(leaf, tag, height) == LevelOf(tag, leaf, height)
  {
  }

  lemma ScanStart<V>(s: seq<Block<V>>, leaf: nat, height: nat, z: nat)
    requires height <= MAX_TREE_HEIGHT && LeafAt(leaf, height)
    ensures Counts(LevelsOf(Live(s[..0]), leaf, height), z, height) == seq(height + 1, _ => 0)
    ensures Overflow(LevelsOf(Live(s[..0]), leaf, height), z, height) == 0
    ensures s[..|s|] == s
  {
    assert s[..0] == [];
  }

  /** How scanning one more slot changes counts and overflow. */
  lemma ScanNext<V>(s: seq<Block<V>>, i: nat, leaf: nat, height: nat, z: nat)
    requires height <= MAX_TREE_HEIGHT && LeafAt(leaf, height) && i < |s|
    ensures var l, l' := LevelsOf(Live(s[..i]), leaf, height), LevelsOf(Live(s[..i + 1]), leaf, height);
      var d := Deepest(Counts(l, z, height), z, LevelOf(s[i].tag, leaf, height));
      && (!s[i].Real() ==> l' == l)
      && (s[i].Real() && d < 0 ==> Counts(l', z, height) == Counts(l, z, height)
                                   && Overflow(l', z, height) == Overflow(l, z, height) + 1)
      && (s[i].Real() && d >= 0 ==> Counts(l', z, height) == Counts(l, z, height)[d := Counts(l, z, height)[d] + 1]
                                    && Overflow(l', z, height) == Overflow(l, z, height))
  {
    hide LevelOf, Live, Deepest;
    LiveNext(s, i);
    var l, l' := LevelsOf(Live(s[..i]), leaf, height), LevelsOf(Live(s[..i + 1]), leaf, height);
    if s[i].Real() {
      var x := LevelOf(s[i].tag, leaf, height);
      assert l' == l + [x];
      assert l'[..|l'| - 1] == l;
    }
  }
}
