/**
  The operations of one histogram as relations between states: which buckets, overflow
  slots, counters and estimator an append, a batch, an eviction, a growth and a read may
  leave behind.  Dummies are the only freedom these relations have.
 */
module Steps {
  import opened Arithmetic
  import opened Wrappers
  import opened Blocks
  import opened Routing
  import opened Greedy
  import opened Tree
  import opened Layout
  import opened Stash
  import opened Access
  import opened Contents
  import opened Capacity
  import opened Clock
  import opened Resize

  /** Tree, stash, counters, and the state behind automatic growth. */
  datatype State<V> = State(mem: seq<Block<V>>, stash: seq<Block<V>>, c: Counters, auto: Option<AutoResize>)

  /** The invariants of a histogram. */
  ghost predicate Sane<V>(cfg: Config<V>, s: State<V>) {
    cfg.a >= 1 && Ticking(s.c) && WellFormed(s.mem, s.stash, cfg, s.c.height)
  }

  /** The next append is followed by an eviction. */
  ghost predicate EvictDue(c: Counters, a: nat)
    requires a >= 1
  {
    (c.appendCtr + 1) % EvictInterval(c.evictCtr, c.sweepEnd, a) == 0
  }

  /** The next eviction succeeds: its write-back does, and the tree is not to grow past the largest height. */
  ghost predicate CanEvict<V>(mem: seq<Block<V>>, stash: seq<Block<V>>, cfg: Config<V>, c: Counters,
                              auto: Option<AutoResize>, oracle: Oracle)
    requires 1 <= c.height <= MAX_TREE_HEIGHT && WellFormed(mem, stash, cfg, c.height)
  {
    var leaf := EvictLeaf(c.evictCtr, c.height);
    EvictLeafIs(c.evictCtr, c.height);
    && CanAccess(mem, stash, cfg, c.height, leaf, None)
    && !(c.height == MAX_TREE_HEIGHT
         && AfterEviction(auto, Matching(Merged(mem, stash, cfg, c.height, leaf), c.height, leaf, c.epoch), oracle,
                          cfg.z, c.height).1)
  }

  /** Appends do not matter to it. */
  lemma CanEvictLater<V>(mem: seq<Block<V>>, stash: seq<Block<V>>, cfg: Config<V>, c: Counters, n: nat,
                         auto: Option<AutoResize>, oracle: Oracle)
    requires 1 <= c.height <= MAX_TREE_HEIGHT && WellFormed(mem, stash, cfg, c.height)
    ensures CanEvict(mem, stash, cfg, c.(appendCtr := n), auto, oracle) <==> CanEvict(mem, stash, cfg, c, auto, oracle)
  {
    hide WellFormed, CanAccess, Merged, AfterEviction, Matching, EvictLeaf;
  }

  ghost predicate CanEvictWith<V>(mem: seq<Block<V>>, stash: seq<Block<V>>, i: nat, b: Block<V>, cfg: Config<V>,
                                  c: Counters, auto: Option<AutoResize>, oracle: Oracle)
    requires 1 <= c.height <= MAX_TREE_HEIGHT && WellFormed(mem, stash, cfg, c.height)
    requires Slots(c.height + 1, cfg.z) <= i < |stash|
  {
    InsertKeeps(mem, stash, i, b, cfg, c.height);
    CanEvict(mem, stash[i := b], cfg, c, auto, oracle)
  }

  /** The stash with the block in its first free overflow slot, if there is one. */
  ghost function Inserted<V>(stash: seq<Block<V>>, cfg: Config<V>, height: nat, b: Block<V>): seq<Block<V>>
    requires Slots(height + 1, cfg.z) <= |stash|
  {
    var i := FreeSlot(stash, Slots(height + 1, cfg.z));
    if i < |stash| then stash[i := b] else stash
  }

  /** The next append succeeds: there is a free overflow slot, and the eviction succeeds if it is due. */
  ghost predicate CanAppend<V>(mem: seq<Block<V>>, stash: seq<Block<V>>, cfg: Config<V>, c: Counters,
                               auto: Option<AutoResize>, oracle: Oracle, b: Block<V>)
    requires 1 <= c.height <= MAX_TREE_HEIGHT && WellFormed(mem, stash, cfg, c.height) && cfg.a >= 1
  {
    WellFormedShape(mem, stash, cfg, c.height);
    var i := FreeSlot(stash, Slots(c.height + 1, cfg.z));
    i < |stash| && (EvictDue(c, cfg.a) ==> CanEvictWith(mem, stash, i, b, cfg, c, auto, oracle))
  }

  // ---- Steps --------------------------------------------------------------------------------------------

  /** One path has been read in, merged, and written back. */
  ghost predicate PathStep<V(!new)>(cfg: Config<V>, s: State<V>, leaf: nat, removed: Option<Payload>, s': State<V>) {
    && Sane(cfg, s) && LeafAt(leaf, s.c.height)
    && CanAccess(s.mem, s.stash, cfg, s.c.height, leaf, removed)
    && WrittenBack(s.mem, s.stash, s'.mem, s'.stash, cfg, s.c.height, leaf, removed)
    && s'.c == s.c && s'.auto == s.auto
  }

  /** The state with one level more of empty buckets. */
  ghost function Taller<V>(cfg: Config<V>, s: State<V>, auto: Option<AutoResize>): State<V>
    requires Slots(s.c.height + 1, cfg.z) <= |s.stash|
  {
    State(s.mem + Dummies(|s.mem|, cfg.Dummy()), Extended(s.stash, cfg, s.c.height), Grown(s.c), auto)
  }

  ghost predicate IsTaller<V>(cfg: Config<V>, s: State<V>, s': State<V>, auto: Option<AutoResize>) {
    Slots(s.c.height + 1, cfg.z) <= |s.stash| && s' == Taller(cfg, s, auto)
  }

  /** What the estimator makes of an eviction: its state, and whether the tree is to grow. */
  ghost function Estimate<V>(cfg: Config<V>, oracle: Oracle, s: State<V>): (Option<AutoResize>, bool)
    requires Sane(cfg, s)
  {
    var leaf := EvictLeaf(s.c.evictCtr, s.c.height);
    EvictLeafIs(s.c.evictCtr, s.c.height);
    AfterEviction(s.auto, Matching(Merged(s.mem, s.stash, cfg, s.c.height, leaf), s.c.height, leaf, s.c.epoch), oracle,
                  cfg.z, s.c.height)
  }

  /** An eviction: the next path rewritten, and the tree a level taller if the estimator says so. */
  ghost predicate EvictStep<V(!new)>(cfg: Config<V>, oracle: Oracle, s: State<V>, s': State<V>) {
    Sane(cfg, s) && exists s1 :: EvictsBy(cfg, oracle, s, s1, s')
  }

  /** The same, `s1` being the state right after the path has been written back. */
  ghost predicate EvictsBy<V(!new)>(cfg: Config<V>, oracle: Oracle, s: State<V>, s1: State<V>, s': State<V>)
    requires Sane(cfg, s)
  {
    var (auto, grew) := Estimate(cfg, oracle, s);
    && PathStep(cfg, s, EvictLeaf(s.c.evictCtr, s.c.height), None, s1)
    && (if grew then s.c.height < MAX_TREE_HEIGHT && s'.c == Evicted(s.c, true)
                     && IsTaller(cfg, s1, s'.(c := Grown(s.c)), auto)
        else s' == s1.(c := Evicted(s.c, false), auto := auto))
  }

  lemma EvictedBy<V(!new)>(cfg: Config<V>, oracle: Oracle, s: State<V>, s1: State<V>, s': State<V>)
    requires Sane(cfg, s) && EvictsBy(cfg, oracle, s, s1, s')
    ensures EvictStep(cfg, oracle, s, s')
  {
    hide EvictsBy, Sane;
  }

  /** An append has been counted, and is followed by an eviction when it is due. */
  ghost predicate FinishStep<V(!new)>(cfg: Config<V>, oracle: Oracle, s: State<V>, n: nat, s': State<V>)
    requires cfg.a >= 1
  {
    var s1 := s.(c := s.c.(appendCtr := s.c.appendCtr + n));
    if s1.c.appendCtr % EvictInterval(s.c.evictCtr, s.c.sweepEnd, cfg.a) == 0 then EvictStep(cfg, oracle, s1, s')
    else s' == s1
  }

  /** The eviction that is due after `n` more appends cannot be made. */
  ghost predicate FinishStuck<V>(cfg: Config<V>, oracle: Oracle, s: State<V>, n: nat) {
    && Sane(cfg, s)
    && (s.c.appendCtr + n) % EvictInterval(s.c.evictCtr, s.c.sweepEnd, cfg.a) == 0
    && !CanEvict(s.mem, s.stash, cfg, s.c.(appendCtr := s.c.appendCtr + n), s.auto, oracle)
  }

  /** One append: the block in the first free overflow slot, then an eviction when it is due. */
  ghost predicate AppendStep<V(!new)>(cfg: Config<V>, oracle: Oracle, s: State<V>, b: Block<V>, s': State<V>) {
    && Sane(cfg, s) && Slots(s.c.height + 1, cfg.z) <= |s.stash|
    && FreeSlot(s.stash, Slots(s.c.height + 1, cfg.z)) < |s.stash|
    && FinishStep(cfg, oracle, s.(stash := Inserted(s.stash, cfg, s.c.height, b)), 1, s')
  }

  /** Between evictions an append changes one slot and one counter. */
  lemma QuietAppend<V(!new)>(cfg: Config<V>, oracle: Oracle, s: State<V>, b: Block<V>, s': State<V>)
    requires AppendStep(cfg, oracle, s, b, s') && !EvictDue(s.c, cfg.a)
    ensures Slots(s.c.height + 1, cfg.z) <= |s.stash|
    ensures s' == s.(stash := Inserted(s.stash, cfg, s.c.height, b), c := s.c.(appendCtr := s.c.appendCtr + 1))
  {
    hide Inserted, EvictInterval, EvictStep, WellFormed;
  }

  /** The overflow holds its blocks and then those of the updates, in order, and nothing else has changed. */
  ghost predicate TakesIn<V>(cfg: Config<V>, s: State<V>, us: seq<Update<V>>, stash': seq<Block<V>>) {
    var k := Slots(s.c.height + 1, cfg.z);
    && k <= |s.stash| == |stash'| && stash'[..k] == s.stash[..k]
    && Live(stash'[k..]) == Live(s.stash[k..]) + Live(UpdateBlocks(us, s.c.epoch, cfg.Dummy()))
  }

  /** A chunk of a batch: inserted at once, then an eviction when it is due. */
  ghost predicate ChunkStep<V(!new)>(cfg: Config<V>, oracle: Oracle, s: State<V>, us: seq<Update<V>>, s': State<V>) {
    Sane(cfg, s) && exists stash1 :: ChunkBy(cfg, oracle, s, us, stash1, s')
  }

  ghost predicate ChunkBy<V(!new)>(cfg: Config<V>, oracle: Oracle, s: State<V>, us: seq<Update<V>>,
                                   stash1: seq<Block<V>>, s': State<V>)
    requires cfg.a >= 1
  {
    TakesIn(cfg, s, us, stash1) && FinishStep(cfg, oracle, s.(stash := stash1), |us|, s')
  }

  lemma ChunkOn<V(!new)>(cfg: Config<V>, oracle: Oracle, s: State<V>, us: seq<Update<V>>, stash1: seq<Block<V>>,
                         s': State<V>)
    requires Sane(cfg, s) && ChunkBy(cfg, oracle, s, us, stash1, s')
    ensures ChunkStep(cfg, oracle, s, us, s')
  {
    hide ChunkBy, Sane;
  }

  /** The chunk does not fit the overflow, or the eviction due after it cannot be made. */
  ghost predicate ChunkStuck<V(!new)>(cfg: Config<V>, oracle: Oracle, s: State<V>, us: seq<Update<V>>) {
    var k := Slots(s.c.height + 1, cfg.z);
    && Sane(cfg, s) && k <= |s.stash|
    && (|s.stash| - k < |Live(s.stash[k..])| + |Live(UpdateBlocks(us, s.c.epoch, cfg.Dummy()))|
        || exists stash1 :: StuckBy(cfg, oracle, s, us, stash1))
  }

  ghost predicate StuckBy<V>(cfg: Config<V>, oracle: Oracle, s: State<V>, us: seq<Update<V>>, stash1: seq<Block<V>>) {
    TakesIn(cfg, s, us, stash1) && FinishStuck(cfg, oracle, s.(stash := stash1), |us|)
  }

  lemma ChunkHalts<V(!new)>(cfg: Config<V>, oracle: Oracle, s: State<V>, us: seq<Update<V>>, stash1: seq<Block<V>>)
    requires Sane(cfg, s) && StuckBy(cfg, oracle, s, us, stash1)
    ensures ChunkStuck(cfg, oracle, s, us)
  {
    hide FinishStuck, Sane;
  }

  /** The length of the next chunk when `n` updates are left. */
  ghost function ChunkLength(c: Counters, a: nat, n: nat): nat
    requires a >= 1
  {
    var until := UntilEvict(c.appendCtr, EvictInterval(c.evictCtr, c.sweepEnd, a));
    if n < until then n else until
  }

  /** The first `n` updates of a batch have been taken, chunk by chunk. */
  ghost predicate BatchTo<V(!new)>(cfg: Config<V>, oracle: Oracle, s: State<V>, us: seq<Update<V>>, n: nat,
                                  s': State<V>)
    requires n <= |us|
    decreases n
  {
    if n == 0 then s' == s
    else
      exists o: nat, s1: State<V> ::
        o < n && BatchTo(cfg, oracle, s, us, o, s1) && NextChunk(cfg, oracle, s1, us, o, n, s')
  }

  /** The chunk from `o` to `n`. */
  ghost predicate NextChunk<V(!new)>(cfg: Config<V>, oracle: Oracle, s: State<V>, us: seq<Update<V>>, o: nat, n: nat,
                                     s': State<V>)
    requires o < n <= |us|
  {
    && cfg.a >= 1 && n - o == ChunkLength(s.c, cfg.a, |us| - o)
    && ChunkStep(cfg, oracle, s, us[o..n], s')
  }

  ghost predicate BatchStep<V(!new)>(cfg: Config<V>, oracle: Oracle, s: State<V>, us: seq<Update<V>>, s': State<V>) {
    BatchTo(cfg, oracle, s, us, |us|, s')
  }

  /** Some chunk of the batch cannot be taken. */
  ghost predicate BatchStuck<V(!new)>(cfg: Config<V>, oracle: Oracle, s: State<V>, us: seq<Update<V>>) {
    exists o: nat, s1: State<V> :: o < |us| && BatchTo(cfg, oracle, s, us, o, s1) && NextStuck(cfg, oracle, s1, us, o)
  }

  ghost predicate NextStuck<V(!new)>(cfg: Config<V>, oracle: Oracle, s: State<V>, us: seq<Update<V>>, o: nat)
    requires o < |us|
  {
    cfg.a >= 1 && ChunkStuck(cfg, oracle, s, us[o..o + ChunkLength(s.c, cfg.a, |us| - o)])
  }

  lemma BatchStarts<V(!new)>(cfg: Config<V>, oracle: Oracle, s: State<V>, us: seq<Update<V>>)
    ensures BatchTo(cfg, oracle, s, us, 0, s)
  {
  }

  lemma BatchOn<V(!new)>(cfg: Config<V>, oracle: Oracle, s: State<V>, us: seq<Update<V>>, o: nat, n: nat, s1: State<V>,
                         s': State<V>)
    requires o < n <= |us| && BatchTo(cfg, oracle, s, us, o, s1) && NextChunk(cfg, oracle, s1, us, o, n, s')
    ensures BatchTo(cfg, oracle, s, us, n, s')
  {
    hide NextChunk;
  }

  lemma BatchHalts<V(!new)>(cfg: Config<V>, oracle: Oracle, s: State<V>, us: seq<Update<V>>, o: nat, s1: State<V>)
    requires o < |us| && BatchTo(cfg, oracle, s, us, o, s1) && NextStuck(cfg, oracle, s1, us, o)
    ensures BatchStuck(cfg, oracle, s, us)
  {
    hide NextStuck, BatchTo;
  }

  /** The growth of an explicit request, after which the first `n` new leaves' paths have been rewritten in turn. */
  ghost predicate GrowTo<V(!new)>(cfg: Config<V>, oracle: Oracle, s: State<V>, n: nat, s': State<V>)
    decreases n
  {
    if n == 0 then
      && Sane(cfg, s) && s.c.height < MAX_TREE_HEIGHT
      && IsTaller(cfg, s, s', if s.auto.None? then None
                              else Some(s.auto.value.OnTreeGrown(oracle, cfg.z, s.c.height + 1)))
    else
      exists o: nat, s1: State<V> :: o + 1 == n && GrowTo(cfg, oracle, s, o, s1) && NextPath(cfg, s, o, s1, s')
  }

  /** The path to the new leaf number `i` has been rewritten. */
  ghost predicate NextPath<V(!new)>(cfg: Config<V>, s: State<V>, i: nat, s1: State<V>, s': State<V>) {
    PathStep(cfg, s1, Pow2(s.c.height + 1) + i, None, s')
  }

  ghost predicate GrowStep<V(!new)>(cfg: Config<V>, oracle: Oracle, s: State<V>, s': State<V>) {
    GrowTo(cfg, oracle, s, Pow2(s.c.height + 1), s')
  }

  /** The tree is as tall as it may be, or one of the rewrites cannot be made. */
  ghost predicate GrowStuck<V(!new)>(cfg: Config<V>, oracle: Oracle, s: State<V>) {
    s.c.height >= MAX_TREE_HEIGHT
    || exists n: nat, s1: State<V> :: GrowTo(cfg, oracle, s, n, s1) && PathStuck(cfg, s, n, s1)
  }

  ghost predicate PathStuck<V>(cfg: Config<V>, s: State<V>, i: nat, s1: State<V>) {
    var leaf := Pow2(s.c.height + 1) + i;
    Sane(cfg, s1) && LeafAt(leaf, s1.c.height) && !CanAccess(s1.mem, s1.stash, cfg, s1.c.height, leaf, None)
  }

  lemma GrowStarts<V(!new)>(cfg: Config<V>, oracle: Oracle, s: State<V>, s': State<V>)
    requires Sane(cfg, s) && s.c.height < MAX_TREE_HEIGHT
    requires IsTaller(cfg, s, s', if s.auto.None? then None
                                  else Some(s.auto.value.OnTreeGrown(oracle, cfg.z, s.c.height + 1)))
    ensures GrowTo(cfg, oracle, s, 0, s')
  {
  }

  lemma GrowOn<V(!new)>(cfg: Config<V>, oracle: Oracle, s: State<V>, n: nat, s1: State<V>, s': State<V>)
    requires GrowTo(cfg, oracle, s, n, s1) && NextPath(cfg, s, n, s1, s')
    ensures GrowTo(cfg, oracle, s, n + 1, s')
  {
    hide NextPath;
  }

  lemma GrowHalts<V(!new)>(cfg: Config<V>, oracle: Oracle, s: State<V>, n: nat, s1: State<V>)
    requires s.c.height >= MAX_TREE_HEIGHT || (GrowTo(cfg, oracle, s, n, s1) && PathStuck(cfg, s, n, s1))
    ensures GrowStuck(cfg, oracle, s)
  {
    hide PathStuck, GrowTo;
  }

  // ---- How full the overflow is -----------------------------------------------------------------------------

  /** After a path has been rewritten, the overflow holds exactly the blocks the greedy assignment leaves over. */
  lemma OverflowLeft<V(!new)>(cfg: Config<V>, s: State<V>, leaf: nat, removed: Option<Payload>, s': State<V>)
    requires PathStep(cfg, s, leaf, removed, s')
    ensures var r := Live(Remaining(Merged(s.mem, s.stash, cfg, s.c.height, leaf), removed));
      |Live(s'.stash)| == Overflow(LevelsOf(r, leaf, s.c.height), cfg.z, s.c.height)
  {
    hide Live, LevelsOf, Merged, Remaining, Overflow, Slots, WellFormed, BucketSlot;
    var h, z := s.c.height, cfg.z;
    var before := Remaining(Merged(s.mem, s.stash, cfg, h, leaf), removed);
    var laid :| WroteBack(before, s'.stash, s.mem, s'.mem, laid, cfg, leaf, h);
    var k, n := Slots(h + 1, z), Overflow(LevelsOf(Live(before), leaf, h), z, h);
    OverflowFits(cfg, s, leaf, removed);
    FrontLive(Dummies(k, cfg.Dummy()), laid[k..], n);
  }

  lemma FrontLive<V>(path: seq<Block<V>>, rest: seq<Block<V>>, n: nat)
    requires n <= |rest| && AllDummies(path) && forall j :: 0 <= j < |rest| ==> (rest[j].Real() <==> j < n)
    ensures |Live(path + rest)| == n
  {
    hide Live;
    assert rest == rest[..n] + rest[n..];
    LiveConcat(rest[..n], rest[n..]);
    LiveAll(rest[..n]);
    LiveNone(rest[n..]);
    LiveConcat(path, rest);
    LiveNone(path);
  }

  lemma OverflowFits<V(!new)>(cfg: Config<V>, s: State<V>, leaf: nat, removed: Option<Payload>)
    requires Sane(cfg, s) && LeafAt(leaf, s.c.height) && CanAccess(s.mem, s.stash, cfg, s.c.height, leaf, removed)
    ensures var r := Live(Remaining(Merged(s.mem, s.stash, cfg, s.c.height, leaf), removed));
      Overflow(LevelsOf(r, leaf, s.c.height), cfg.z, s.c.height) < cfg.s
  {
  }

  /** No assignment of these blocks to the path's buckets that respects levels and bucket size leaves fewer over. */
  lemma OverflowLeast<V(!new)>(cfg: Config<V>, s: State<V>, leaf: nat, removed: Option<Payload>, s': State<V>,
                               f: seq<int>)
    requires PathStep(cfg, s, leaf, removed, s')
    requires var r := Live(Remaining(Merged(s.mem, s.stash, cfg, s.c.height, leaf), removed));
      Legal(f, LevelsOf(r, leaf, s.c.height), cfg.z, s.c.height)
    ensures |Live(s'.stash)| <= Placed(f, -1)
  {
    hide Live, LevelsOf, Merged, Remaining, Overflow, WellFormed, Legal, Placed;
    OverflowLeft(cfg, s, leaf, removed, s');
    var r := Live(Remaining(Merged(s.mem, s.stash, cfg, s.c.height, leaf), removed));
    LevelsLegal(r, leaf, s.c.height);
    GreedyIsOptimal(LevelsOf(r, leaf, s.c.height), cfg.z, s.c.height, f);
  }

  lemma LevelsLegal<V>(r: seq<Block<V>>, leaf: nat, height: nat)
    requires height <= MAX_TREE_HEIGHT && LeafAt(leaf, height)
    ensures LevelsFit(LevelsOf(r, leaf, height), height) && |LevelsOf(r, leaf, height)| == |r|
  {
  }

  /** When the histogram holds no more blocks than a bucket, rewriting any path empties the overflow. */
  lemma FewBlocksDrain<V(!new)>(cfg: Config<V>, s: State<V>, leaf: nat, removed: Option<Payload>, s': State<V>)
    requires PathStep(cfg, s, leaf, removed, s') && Load(s.mem, s.stash) <= cfg.z
    ensures Live(s'.stash) == []
  {
    hide Live, LevelsOf, Merged, Remaining, Overflow, WellFormed, Elsewhere;
    var h := s.c.height;
    var r := Live(Remaining(Merged(s.mem, s.stash, cfg, h, leaf), removed));
    GatheredLoad(s.mem, s.stash, cfg, h, leaf, removed);
    LevelsLegal(r, leaf, h);
    OverflowLeft(cfg, s, leaf, removed, s');
    AllInRoot(LevelsOf(r, leaf, h), cfg.z, h);
  }

  /** As many blocks as fit the root bucket are all placed. */
  lemma AllInRoot(levels: seq<nat>, z: nat, h: nat)
    requires LevelsFit(levels, h) && |levels| <= z
    ensures Overflow(levels, z, h) == 0
  {
    var f := seq(|levels|, _ => 0);
    ConstantPlaced(f, -1);
    forall k: nat | k <= h ensures Placed(f, k) <= z { ConstantPlaced(f, k); }
    GreedyIsOptimal(levels, z, h, f);
  }

  lemma {:induction false} ConstantPlaced(f: seq<int>, k: int)
    requires forall i :: 0 <= i < |f| ==> f[i] == 0
    ensures Placed(f, k) == if k == 0 then |f| else 0
  {
    if f != [] { ConstantPlaced(f[..|f| - 1], k); }
  }

  /** After an eviction the overflow holds what the greedy assignment of the merged path leaves over. */
  lemma EvictionDrains<V(!new)>(cfg: Config<V>, oracle: Oracle, s: State<V>, s': State<V>)
    requires EvictStep(cfg, oracle, s, s')
    ensures LeafAt(EvictLeaf(s.c.evictCtr, s.c.height), s.c.height)
    ensures var leaf := EvictLeaf(s.c.evictCtr, s.c.height);
      |Live(s'.stash)|
        == Overflow(LevelsOf(Live(Merged(s.mem, s.stash, cfg, s.c.height, leaf)), leaf, s.c.height), cfg.z, s.c.height)
  {
    hide Live, LevelsOf, Merged, Overflow, WellFormed, Estimate, CanAccess, WrittenBack, Extended, EvictLeaf, LeafAt,
         Slots;
    var s1 :| EvictsBy(cfg, oracle, s, s1, s');
    OverflowLeft(cfg, s, EvictLeaf(s.c.evictCtr, s.c.height), None, s1);
    if IsTaller(cfg, s1, s'.(c := Grown(s.c)), s'.auto) { ExtendedLive(s1.stash, cfg, s.c.height); }
  }

  /** After a growth on request of a histogram with no more blocks than a bucket holds, the overflow is empty. */
  lemma GrowthDrains<V(!new)>(cfg: Config<V>, oracle: Oracle, s: State<V>, s': State<V>)
    requires GrowStep(cfg, oracle, s, s') && Load(s.mem, s.stash) <= cfg.z
    ensures Live(s'.stash) == []
  {
    hide GrowTo, Load, Live;
    RewritesDrain(cfg, oracle, s, Pow2(s.c.height + 1), s');
  }

  lemma RewritesDrain<V(!new)>(cfg: Config<V>, oracle: Oracle, s: State<V>, n: nat, s': State<V>)
    requires GrowTo(cfg, oracle, s, n, s') && n > 0 && Load(s.mem, s.stash) <= cfg.z
    ensures Live(s'.stash) == []
  {
    hide Live, WellFormed, CanAccess, WrittenBack, Load, LeafAt, Pow2;
    var o: nat, s1: State<V> :| o + 1 == n && GrowTo(cfg, oracle, s, o, s1) && NextPath(cfg, s, o, s1, s');
    GrowthLoad(cfg, oracle, s, n - 1, s1);
    FewBlocksDrain(cfg, s1, Pow2(s.c.height + 1) + (n - 1), None, s');
  }

  lemma {:induction false} GrowthLoad<V(!new)>(cfg: Config<V>, oracle: Oracle, s: State<V>, n: nat, s': State<V>)
    requires GrowTo(cfg, oracle, s, n, s')
    ensures Load(s'.mem, s'.stash) <= Load(s.mem, s.stash)
  {
    hide WellFormed, CanAccess, WrittenBack, Load, LeafAt, Pow2, Slots, Extended;
    if n == 0 {
      GrowLoad(s.mem, Dummies(|s.mem|, cfg.Dummy()), s.stash, cfg, s.c.height);
    } else {
      var o: nat, s1: State<V> :| o + 1 == n && GrowTo(cfg, oracle, s, o, s1) && NextPath(cfg, s, o, s1, s');
      GrowthLoad(cfg, oracle, s, n - 1, s1);
      AccessLoad(s1.mem, s1.stash, s'.mem, s'.stash, cfg, s1.c.height, Pow2(s.c.height + 1) + (n - 1), None);
    }
  }

  // ---- The counters along a batch -----------------------------------------------------------------------------

  /** Every update of a batch counts as an append, masked or not. */
  lemma {:induction false} BatchCounts<V(!new)>(cfg: Config<V>, oracle: Oracle, s: State<V>, us: seq<Update<V>>, n: nat,
                                                s': State<V>)
    requires n <= |us| && BatchTo(cfg, oracle, s, us, n, s')
    ensures s'.c.appendCtr == s.c.appendCtr + n
    decreases n
  {
    hide Sane, PathStep, Estimate, ChunkLength, TakesIn, EvictLeaf, EvictInterval;
    if n > 0 {
      var o: nat, s1: State<V> :|
        o < n && BatchTo(cfg, oracle, s, us, o, s1) && NextChunk(cfg, oracle, s1, us, o, n, s');
      BatchCounts(cfg, oracle, s, us, o, s1);
    }
  }
}
