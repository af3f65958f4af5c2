/**
  The subtree-partitioned readout: the upper levels and the overflow are routed to fixed
  inboxes of the lower subtrees, and every subtree is read out with its inbox on its own.
 */
module Partition {
  import opened Arithmetic
  import opened Bits
  import opened Wrappers
  import opened Networks
  import opened MergeExchangeNetwork
  import opened DjbSort
  import opened OddEvenMerge
  import opened Blocks
  import opened Reduction
  import opened Routing
  import opened SortReduce
  import opened Tree
  import opened Stash
  import opened Access
  import opened Order
  import opened Router
  import opened Readout
  import opened TreeReadout
  import opened Subtrees
  import opened Loads

  // ---- One subtree with its inbox ---------------------------------------------------------------------

  /** The local storage of a subtree: an empty node zero, the subtree's levels, the inbox. */
  ghost function Chunk<V>(mem: seq<Block<V>>, z: nat, height: nat, c: nat, d: nat, inbox: seq<Block<V>>,
                          dummy: Block<V>): seq<Block<V>>
    requires Shape(mem, z, height) && c <= height && d < Pow2(c)
  {
    Dummies(z, dummy) + LocalLevels(mem, z, height, c, Pow2(c) + d, height + 1 - c) + inbox
  }

  lemma {:induction false} LocalPrefix<V>(mem: seq<Block<V>>, z: nat, height: nat, c: nat, root: nat, k: nat, l: nat)
    requires Shape(mem, z, height) && k <= l && c + l <= height + 1 && Pow2(c) <= root < Pow2(c + 1)
    ensures LocalLevels(mem, z, height, c, root, k) <= LocalLevels(mem, z, height, c, root, l)
    decreases l
  {
    hide Slots, Shape, First, Pow2, LocalLevels;
    if k < l {
      LocalPrefix(mem, z, height, c, root, k, l - 1);
      LocalLevelsUnfolds(mem, z, height, c, root, l - 1);
    }
  }

  /** Level `k` of the chunk is the stretch of the tree's level below the root. */
  lemma ChunkLevel<V>(mem: seq<Block<V>>, z: nat, height: nat, c: nat, d: nat, inbox: seq<Block<V>>, dummy: Block<V>,
                      k: nat)
    requires Shape(mem, z, height) && c + k <= height && d < Pow2(c)
    ensures Slots(Pow2(k), z) <= Slots(Pow2(k + 1), z) <= |Chunk(mem, z, height, c, d, inbox, dummy)|
    ensures Slots(First(Pow2(c) + d, k), z) <= Slots(First(Pow2(c) + d + 1, k), z) <= |mem|
    ensures Chunk(mem, z, height, c, d, inbox, dummy)[Slots(Pow2(k), z)..Slots(Pow2(k + 1), z)]
         == mem[Slots(First(Pow2(c) + d, k), z)..Slots(First(Pow2(c) + d + 1, k), z)]
  {
    hide Slots, Shape, First, Pow2, LocalLevels;
    PowStep(c);
    var root := Pow2(c) + d;
    LocalLevelsUnfolds(mem, z, height, c, root, k);
    LocalPrefix(mem, z, height, c, root, k + 1, height + 1 - c);
    DoubleSlots(k, z);
    var l, l1, all := LocalLevels(mem, z, height, c, root, k), LocalLevels(mem, z, height, c, root, k + 1),
                      LocalLevels(mem, z, height, c, root, height + 1 - c);
    LocalLength(mem, z, height, c, root, k);
    LocalLength(mem, z, height, c, root, k + 1);
    var ck := Chunk(mem, z, height, c, d, inbox, dummy);
    assert ck[z..z + |all|] == all;
    assert ck[z + |l|..z + |l1|] == all[|l|..|l1|];
    assert all[..|l1|] == l1;
    assert all[|l|..|l1|] == l1[|l|..];
  }

  lemma LocalLength<V>(mem: seq<Block<V>>, z: nat, height: nat, c: nat, root: nat, k: nat)
    requires Shape(mem, z, height) && c + k <= height + 1 && Pow2(c) <= root < Pow2(c + 1)
    ensures Slots(Pow2(k), z) == z + |LocalLevels(mem, z, height, c, root, k)|
  {
  }

  /** The tree's node behind a local node. */
  ghost function GlobalNode(root: nat, u: nat, k: nat): nat
    requires Pow2(k) <= u
  {
    First(root, k) + (u - Pow2(k))
  }

  lemma SlotsSub(a: nat, b: nat, z: nat)
    requires a <= b
    ensures Slots(b - a, z) == Slots(b, z) - Slots(a, z)
  {
    SlotsAdd(a, b - a, z);
  }

  /** A local bucket is a bucket of the tree. */
  lemma ChunkBucket<V>(mem: seq<Block<V>>, z: nat, height: nat, c: nat, d: nat, inbox: seq<Block<V>>, dummy: Block<V>,
                       k: nat, u: nat)
    requires Shape(mem, z, height) && c + k <= height && d < Pow2(c) && LeafAt(u, k)
    ensures LeafAt(GlobalNode(Pow2(c) + d, u, k), c + k)
    ensures NodeOnPath(GlobalNode(Pow2(c) + d, u, k), c, c + k) == Pow2(c) + d
    ensures HasBucket(mem, z, GlobalNode(Pow2(c) + d, u, k))
    ensures HasBucket(Chunk(mem, z, height, c, d, inbox, dummy), z, u)
    ensures Bucket(Chunk(mem, z, height, c, d, inbox, dummy), z, u) == Bucket(mem, z, GlobalNode(Pow2(c) + d, u, k))
  {
    hide Slots, Shape, First, Pow2, NodeOnPath, Chunk;
    var root := Pow2(c) + d;
    var g, ck := GlobalNode(root, u, k), Chunk(mem, z, height, c, d, inbox, dummy);
    PowStep(c);
    PowStep(k);
    FirstIs(root, k);
    BelowRoot(root, c, k, g);
    LevelHasBucket(mem, z, height, g, c + k);
    ChunkLevel(mem, z, height, c, d, inbox, dummy, k);
    SlotsSub(Pow2(k), u, z);
    SlotsSub(First(root, k), g, z);
    SlotsMonotone(u, Pow2(k + 1), z);
    SlotsMonotone(g, First(root + 1, k), z);
    var lo, at, off := Slots(Pow2(k), z), Slots(First(root, k), z), Slots(u - Pow2(k), z);
    SameStretch(ck, mem, lo, Slots(Pow2(k + 1), z), at, Slots(First(root + 1, k), z), off, z);
  }

  lemma SameStretch<T>(a: seq<T>, b: seq<T>, lo: nat, hi: nat, at: nat, end: nat, off: nat, n: nat)
    requires lo <= hi <= |a| && at <= end <= |b| && a[lo..hi] == b[at..end] && lo + off + n <= hi
    ensures at + off + n <= end && a[lo + off..lo + off + n] == b[at + off..at + off + n]
  {
    assert |a[lo..hi]| == |b[at..end]|;
    SubSlice(a, lo, hi, off, n);
    SubSlice(b, at, end, off, n);
  }

  lemma SubSlice<T>(a: seq<T>, lo: nat, hi: nat, off: nat, n: nat)
    requires lo <= hi <= |a| && lo + off + n <= hi
    ensures a[lo + off..lo + off + n] == a[lo..hi][off..off + n]
  {
    var x, y := a[lo + off..lo + off + n], a[lo..hi][off..off + n];
    forall i | 0 <= i < n ensures x[i] == y[i] {}
  }

  /** The path invariant puts the local levels in routing order. */
  lemma ChunkOrdered<V>(mem: seq<Block<V>>, z: nat, height: nat, c: nat, d: nat, inbox: seq<Block<V>>, dummy: Block<V>)
    requires height <= MAX_TREE_HEIGHT && PathInvariant(mem, z, height) && c <= height && d < Pow2(c) && !dummy.Real()
    ensures Ordered(Chunk(mem, z, height, c, d, inbox, dummy), z, height - c)
  {
    hide Slots, Pow2, Chunk, PathInvariant, GlobalNode, NodeOnPath;
    InvariantShape(mem, z, height);
    var ck := Chunk(mem, z, height, c, d, inbox, dummy);
    ChunkZero(mem, z, height, c, d, inbox, dummy);
    forall k: nat | k <= height - c ensures LevelOrdered(ck, z, k) {
      forall u: nat, v: nat | LeafAt(u, k) && LeafAt(v, k) && u < v ensures Before(ck, z, u, v) {
        ChunkBucket(mem, z, height, c, d, inbox, dummy, k, u);
        ChunkBucket(mem, z, height, c, d, inbox, dummy, k, v);
        GlobalOrder(Pow2(c) + d, u, v, k);
        TreeBefore(mem, z, height, c + k, GlobalNode(Pow2(c) + d, u, k), GlobalNode(Pow2(c) + d, v, k));
      }
    }
  }

  lemma GlobalOrder(root: nat, u: nat, v: nat, k: nat)
    requires Pow2(k) <= u < v
    ensures GlobalNode(root, u, k) < GlobalNode(root, v, k)
  {
  }

  lemma InvariantShape<V>(mem: seq<Block<V>>, z: nat, height: nat)
    requires height <= MAX_TREE_HEIGHT && PathInvariant(mem, z, height)
    ensures Shape(mem, z, height)
  {
  }

  lemma ChunkZero<V>(mem: seq<Block<V>>, z: nat, height: nat, c: nat, d: nat, inbox: seq<Block<V>>, dummy: Block<V>)
    requires Shape(mem, z, height) && c <= height && d < Pow2(c) && !dummy.Real()
    ensures HasBucket(Chunk(mem, z, height, c, d, inbox, dummy), z, 0)
    ensures AllDummies(Bucket(Chunk(mem, z, height, c, d, inbox, dummy), z, 0))
    ensures forall i :: 0 <= i < z ==> !Chunk(mem, z, height, c, d, inbox, dummy)[i].Real()
  {
    hide Slots, LocalLevels;
    SlotsNext(0, z);
    assert Bucket(Chunk(mem, z, height, c, d, inbox, dummy), z, 0) == Dummies(z, dummy);
  }

  /** In a tree that obeys the path invariant, a level's buckets come in routing order. */
  lemma TreeBefore<V>(mem: seq<Block<V>>, z: nat, height: nat, d: nat, u: nat, v: nat)
    requires d <= height <= MAX_TREE_HEIGHT && PathInvariant(mem, z, height) && LeafAt(u, d) && LeafAt(v, d) && u < v
    ensures Before(mem, z, u, v)
  {
    hide Slots, Pow2, Shr, RoutingBits;
    assert NodeOk(mem, z, u, d) && NodeOk(mem, z, v, d);
    forall a, b | a in Bucket(mem, z, u) && b in Bucket(mem, z, v) && a.Real() && b.Real()
      ensures RoutingBits(a.tag) < RoutingBits(b.tag)
    {
      assert AddressToLeaf(a.tag, d) == u && AddressToLeaf(b.tag, d) == v;
      if RoutingBits(b.tag) <= RoutingBits(a.tag) {
        ShrMonotone(RoutingBits(b.tag) + Pow2(MAX_TREE_HEIGHT), RoutingBits(a.tag) + Pow2(MAX_TREE_HEIGHT),
                    MAX_TREE_HEIGHT - d);
      }
    }
  }

  /** Every block of a chunk is routed to its subtree. */
  lemma ChunkDestination<V>(mem: seq<Block<V>>, z: nat, height: nat, c: nat, d: nat, inbox: seq<Block<V>>,
                            dummy: Block<V>, i: nat)
    requires height <= MAX_TREE_HEIGHT && PathInvariant(mem, z, height) && c <= height && d < Pow2(c) && !dummy.Real()
    requires forall x :: x in inbox && x.Real() ==> Destination(x.tag, c) == d
    requires i < |Chunk(mem, z, height, c, d, inbox, dummy)| && Chunk(mem, z, height, c, d, inbox, dummy)[i].Real()
    ensures Destination(Chunk(mem, z, height, c, d, inbox, dummy)[i].tag, c) == d
  {
    hide Slots, Pow2, NodeOnPath, Destination, AddressToLeaf, Chunk;
    InvariantShape(mem, z, height);
    var ck := Chunk(mem, z, height, c, d, inbox, dummy);
    ChunkZero(mem, z, height, c, d, inbox, dummy);
    ChunkLength(mem, z, height, c, d, inbox, dummy);
    if i < Slots(Pow2(height - c + 1), z) {
      var u := BucketOfSlot(i, z, Pow2(height - c + 1));
      SlotsNext(0, z);
      if u > 0 {
        var k := NodeLevel(u, height - c);
        ChunkBucket(mem, z, height, c, d, inbox, dummy, k, u);
        var g := GlobalNode(Pow2(c) + d, u, k);
        assert NodeOk(mem, z, g, c + k);
        assert ck[i] == Bucket(ck, z, u)[i - Slots(u, z)] == Bucket(mem, z, g)[i - Slots(u, z)];
        NodeOfTag(ck[i].tag, c, c + k);
        DestinationIs(ck[i].tag, c);
      }
    } else {
      assert ck[i] == inbox[i - Slots(Pow2(height - c + 1), z)];
    }
  }

  lemma NodeLevel(u: nat, height: nat) returns (k: nat)
    requires 0 < u < Pow2(height + 1)
    ensures k <= height && LeafAt(u, k)
  {
    k := FloorLog(u);
    if k > height { Pow2Monotone(height, k); }
  }

  lemma ChunkLength<V>(mem: seq<Block<V>>, z: nat, height: nat, c: nat, d: nat, inbox: seq<Block<V>>, dummy: Block<V>)
    requires Shape(mem, z, height) && c <= height && d < Pow2(c)
    ensures var ck, k := Chunk(mem, z, height, c, d, inbox, dummy), Slots(Pow2(height - c + 1), z);
      |ck| == k + |inbox| && ck[k..] == inbox
  {
    hide Slots, LocalLevels, Pow2, Shape;
    PowStep(c);
    LocalLength(mem, z, height, c, Pow2(c) + d, height + 1 - c);
  }

  // ---- All subtrees together ---------------------------------------------------------------------------------

  ghost function InboxOf<V>(r: seq<Block<V>>, q: nat, d: nat): seq<Block<V>> {
    if Slots(d, q) + q <= |r| then r[Slots(d, q)..Slots(d, q) + q] else []
  }

  ghost function Chunks<V>(mem: seq<Block<V>>, z: nat, height: nat, c: nat, n: nat, r: seq<Block<V>>, q: nat,
                           dummy: Block<V>):
      (ss: seq<seq<Block<V>>>)
    requires Shape(mem, z, height) && c <= height && n <= Pow2(c)
    ensures |ss| == n
  {
    seq(n, d requires 0 <= d < n => Chunk(mem, z, height, c, d, InboxOf(r, q, d), dummy))
  }

  /** The chunks hold the blocks of the subtrees and of the inboxes. */
  lemma {:induction false} ChunksLive<V>(mem: seq<Block<V>>, z: nat, height: nat, c: nat, n: nat, r: seq<Block<V>>,
                                         q: nat, dummy: Block<V>)
    requires Shape(mem, z, height) && c <= height && n <= Pow2(c) && |r| == Slots(Pow2(c), q) && !dummy.Real()
    ensures Slots(n, q) <= |r|
    ensures multiset(Live(Flat(Chunks(mem, z, height, c, n, r, q, dummy))))
         == multiset(Live(Locals(mem, z, height, c, n, height + 1 - c))) + multiset(Live(r[..Slots(n, q)]))
  {
    hide *;
    SlotsMonotone(n, Pow2(c), q);
    SlotsNext(0, q);
    if n == 0 {
      NoChunks(mem, z, height, c, r, q, dummy);
    } else {
      ChunksLive(mem, z, height, c, n - 1, r, q, dummy);
      SlotsNext(n - 1, q);
      LocalsUnfolds(mem, z, height, c, n, height + 1 - c);
      var inbox, levels := InboxOf(r, q, n - 1), LocalLevels(mem, z, height, c, Pow2(c) + n - 1, height + 1 - c);
      var before := Chunks(mem, z, height, c, n - 1, r, q, dummy);
      var all := Chunks(mem, z, height, c, n, r, q, dummy);
      ChunksNext(mem, z, height, c, n, r, q, dummy);
      LiveConcat(Flat(before), all[n - 1]);
      ChunkLive(levels, inbox, z, dummy);
      LiveConcat(Locals(mem, z, height, c, n - 1, height + 1 - c), levels);
      InboxNext(r, q, n);
      LiveConcat(r[..Slots(n - 1, q)], inbox);
      Interleaved(Live(Flat(before)), Live(Locals(mem, z, height, c, n - 1, height + 1 - c)),
                  Live(r[..Slots(n - 1, q)]), Live(levels), Live(inbox));
    }
  }

  lemma InboxNext<V>(r: seq<Block<V>>, q: nat, n: nat)
    requires n > 0 && Slots(n, q) <= |r|
    ensures Slots(n - 1, q) <= |r| && r[..Slots(n, q)] == r[..Slots(n - 1, q)] + InboxOf(r, q, n - 1)
  {
    SlotsNext(n - 1, q);
    hide Slots;
  }

  lemma Interleaved<T>(f: seq<T>, a: seq<T>, b: seq<T>, x: seq<T>, y: seq<T>)
    requires multiset(f) == multiset(a) + multiset(b)
    ensures multiset(f + (x + y)) == multiset(a + x) + multiset(b + y)
  {
  }

  lemma ChunksNext<V>(mem: seq<Block<V>>, z: nat, height: nat, c: nat, n: nat, r: seq<Block<V>>, q: nat,
                      dummy: Block<V>)
    requires Shape(mem, z, height) && c <= height && 0 < n <= Pow2(c) && Pow2(c) + n - 1 < Pow2(c + 1)
    ensures var before, all := Chunks(mem, z, height, c, n - 1, r, q, dummy), Chunks(mem, z, height, c, n, r, q, dummy);
      && Flat(all) == Flat(before) + all[n - 1]
      && all[n - 1] == Dummies(z, dummy) + LocalLevels(mem, z, height, c, Pow2(c) + n - 1, height + 1 - c)
        + InboxOf(r, q, n - 1)
  {
    hide LocalLevels, Slots, Shape, Pow2, Flat, InboxOf;
    var before, all := Chunks(mem, z, height, c, n - 1, r, q, dummy), Chunks(mem, z, height, c, n, r, q, dummy);
    assert all == before + [all[n - 1]];
    FlatAppend(before, all[n - 1]);
    assert Pow2(c) + (n - 1) == Pow2(c) + n - 1;
  }

  lemma ChunkLive<V>(levels: seq<Block<V>>, inbox: seq<Block<V>>, z: nat, dummy: Block<V>)
    requires !dummy.Real()
    ensures Live(Dummies(z, dummy) + levels + inbox) == Live(levels) + Live(inbox)
  {
    hide Live;
    LiveConcat(Dummies(z, dummy) + levels, inbox);
    LiveConcat(Dummies(z, dummy), levels);
    LiveNone(Dummies(z, dummy));
  }

  lemma NoChunks<V>(mem: seq<Block<V>>, z: nat, height: nat, c: nat, r: seq<Block<V>>, q: nat, dummy: Block<V>)
    requires Shape(mem, z, height) && c <= height
    ensures Live(Flat(Chunks(mem, z, height, c, 0, r, q, dummy))) == []
    ensures Live(Locals(mem, z, height, c, 0, height + 1 - c)) == []
    ensures Live(r[..0]) == []
  {
    hide Slots;
    assert Flat(Chunks(mem, z, height, c, 0, r, q, dummy)) == [];
    assert Locals(mem, z, height, c, 0, height + 1 - c) == [] && r[..0] == [];
  }

  // ---- What is read out ------------------------------------------------------------------------------------------

  /** The blocks above the cut, and the overflow. */
  ghost function Upper<V>(mem: seq<Block<V>>, overflow: seq<Block<V>>, z: nat, c: nat): seq<Block<V>>
    requires Slots(Pow2(c), z) <= |mem|
  {
    mem[..Slots(Pow2(c), z)] + overflow
  }

  lemma UpperFits<V>(mem: seq<Block<V>>, z: nat, height: nat, c: nat)
    requires Shape(mem, z, height) && c <= height
    ensures Slots(Pow2(c), z) <= |mem| == Slots(Pow2(height + 1), z)
  {
    hide Slots, Pow2;
    Pow2Monotone(c, height + 1);
    SlotsMonotone(Pow2(c), Pow2(height + 1), z);
  }

  /** The chunks' blocks are those of the lower levels and the routed ones. */
  lemma ChunksAre<V>(mem: seq<Block<V>>, z: nat, height: nat, c: nat, r: seq<Block<V>>, q: nat, dummy: Block<V>)
    requires Shape(mem, z, height) && c <= height && |r| == Slots(Pow2(c), q) && !dummy.Real()
    ensures Slots(Pow2(c), z) <= |mem|
    ensures multiset(Live(Flat(Chunks(mem, z, height, c, Pow2(c), r, q, dummy))))
              == multiset(Live(mem[Slots(Pow2(c), z)..] + r))
  {
    hide Slots, Pow2, LocalLevels, Locals, Live, Chunks;
    UpperFits(mem, z, height, c);
    var lower := mem[Slots(Pow2(c), z)..];
    ChunksLive(mem, z, height, c, Pow2(c), r, q, dummy);
    LocalsPartition(mem, z, height, c, height + 1 - c);
    assert c + (height + 1 - c) == height + 1;
    assert mem[Slots(Pow2(c), z)..Slots(Pow2(height + 1), z)] == lower;
    LivePermutes(Locals(mem, z, height, c, Pow2(c), height + 1 - c), lower);
    assert r[..Slots(Pow2(c), q)] == r;
    LiveConcat(lower, r);
  }

  /** Routing the reduced upper blocks keeps every key, and every total. */
  lemma ContentsKept<V(!new)>(m: Values<V>, mem: seq<Block<V>>, overflow: seq<Block<V>>, t: seq<Block<V>>,
                              r: seq<Block<V>>, chunks: seq<Block<V>>, z: nat, c: nat, p: Payload)
    requires Lawful(m) && Slots(Pow2(c), z) <= |mem| && multiset(t) == multiset(Upper(mem, overflow, z, c))
    requires Live(r) == Live(Reduced(m, t)) && multiset(Live(chunks)) == multiset(Live(mem[Slots(Pow2(c), z)..] + r))
    ensures Total(m, chunks, p) == Total(m, mem + overflow, p)
    ensures MatchCount(chunks, p) > 0 <==> MatchCount(mem + overflow, p) > 0
  {
    hide Slots, Pow2, Live, Total, MatchCount, Lawful, Reduced;
    var k := Slots(Pow2(c), z);
    var above, lower := mem[..k], mem[k..];
    assert mem == above + lower;
    TotalOfLive(m, chunks, lower + r, p);
    TotalConcat(m, lower, r, p);
    TotalOfLive(m, r, Reduced(m, t), p);
    ReducedKeepsTotals(m, t, p);
    TotalPermutes(m, t, above + overflow, p);
    TotalConcat(m, above, overflow, p);
    TotalConcat(m, mem, overflow, p);
    TotalConcat(m, above, lower, p);
    Laws(m, Total(m, lower, p), Total(m, above, p), Total(m, overflow, p));
    Laws(m, Total(m, above, p), Total(m, lower, p), m.zero);
    CountOfLive(chunks, lower + r, p);
    CountConcat(lower, r, p);
    CountLive(r, p);
    CountLive(Reduced(m, t), p);
    CountReduced(m, t, p);
    CountPermutes(t, above + overflow, p);
    CountConcat(above, overflow, p);
    CountConcat(mem, overflow, p);
    CountConcat(above, lower, p);
  }

  lemma CountOfLive<V>(s: seq<Block<V>>, t: seq<Block<V>>, p: Payload)
    requires multiset(Live(s)) == multiset(Live(t))
    ensures MatchCount(s, p) > 0 <==> MatchCount(t, p) > 0
  {
    hide Live, MatchCount;
    CountLive(s, p);
    CountLive(t, p);
    CountPermutes(Live(s), Live(t), p);
  }

  lemma CountReduced<V>(m: Values<V>, t: seq<Block<V>>, p: Payload)
    ensures MatchCount(Reduced(m, t), p) > 0 <==> MatchCount(t, p) > 0
  {
    hide Reduced, MatchCount;
    var r := Reduced(m, t);
    CountPresent(t, p);
    CountPresent(r, p);
    if i :| 0 <= i < |t| && Matches(t[i], p) { SomeSurvives(m, t, p, i); }
    if i :| 0 <= i < |r| && Matches(r[i], p) { Survives(m, t, i); assert Matches(t[i], p); }
  }

  /** Keys that always come with tags of one order. */
  ghost predicate IdsCoherent(ids: Ids) {
    forall a, b :: a in ids && b in ids && a.1 == b.1 ==> TagOrder(a.0) == TagOrder(b.0)
  }

  lemma KnownCoherent<V>(s: seq<Block<V>>, ids: Ids)
    requires Known(s, ids) && IdsCoherent(ids)
    ensures AllCoherent(s)
  {
    hide TagOrder;
    forall p ensures Coherent(s, p) {
      forall i, j | 0 <= i < |s| && 0 <= j < |s| && Matches(s[i], p) && Matches(s[j], p)
        ensures TagOrder(s[i].tag) == TagOrder(s[j].tag)
      {
        assert (s[i].tag, s[i].payload) in ids && (s[j].tag, s[j].payload) in ids;
      }
    }
  }

  lemma {:induction false} KnownFlat<V>(ss: seq<seq<Block<V>>>, ids: Ids, d: nat)
    requires Known(Flat(ss), ids) && d < |ss|
    ensures Known(ss[d], ids)
    decreases |ss|
  {
    hide Known;
    var n := |ss| - 1;
    KnownBoth(Flat(ss[..n]), ss[n], ids);
    if d < n {
      KnownFlat(ss[..n], ids, d);
      assert ss[..n][d] == ss[d];
    }
  }

  lemma ChunksKnown<V>(m: Values<V>, mem: seq<Block<V>>, overflow: seq<Block<V>>, t: seq<Block<V>>, r: seq<Block<V>>,
                       chunks: seq<Block<V>>, z: nat, c: nat, ids: Ids)
    requires Slots(Pow2(c), z) <= |mem| && multiset(t) == multiset(Upper(mem, overflow, z, c))
    requires Live(r) == Live(Reduced(m, t)) && multiset(Live(chunks)) == multiset(Live(mem[Slots(Pow2(c), z)..] + r))
    requires Known(mem + overflow, ids)
    ensures Known(chunks, ids)
  {
    hide Slots, Pow2, Live, Reduced, Known;
    var k := Slots(Pow2(c), z);
    assert mem == mem[..k] + mem[k..];
    KnownBoth(mem, overflow, ids);
    KnownBoth(mem[..k], mem[k..], ids);
    KnownBoth(mem[..k], overflow, ids);
    LivePermutes(t, mem[..k] + overflow);
    KnownSubset(t, mem[..k] + overflow, ids);
    ReducedKnown(m, t, ids);
    KnownSubset(r, Reduced(m, t), ids);
    KnownBoth(mem[k..], r, ids);
    KnownSubset(chunks, mem[k..] + r, ids);
  }

  lemma ReducedKnown<V>(m: Values<V>, t: seq<Block<V>>, ids: Ids)
    requires Known(t, ids)
    ensures Known(Reduced(m, t), ids)
  {
    hide Reduced;
    var r := Reduced(m, t);
    forall i | 0 <= i < |r| && r[i].Real() ensures (r[i].tag, r[i].payload) in ids { Survives(m, t, i); }
  }

  /** No key has blocks in two chunks. */
  lemma ChunksApart<V>(mem: seq<Block<V>>, z: nat, height: nat, c: nat, r: seq<Block<V>>, q: nat, dummy: Block<V>,
                       l: seq<Block<V>>, ids: Ids, p: Payload)
    requires height <= MAX_TREE_HEIGHT && PathInvariant(mem, z, height) && c <= height && !dummy.Real()
    requires Routed(l, r, SubtreeOf(c), Pow2(c), q) && IdsCoherent(ids)
    requires Known(Flat(Chunks(mem, z, height, c, Pow2(c), r, q, dummy)), ids)
    ensures KeyOnce(Chunks(mem, z, height, c, Pow2(c), r, q, dummy), p)
  {
    hide Slots, Pow2, MatchCount, Known, Chunk, Destination, TagOrder, PathInvariant, Routed;
    InvariantShape(mem, z, height);
    var ss := Chunks(mem, z, height, c, Pow2(c), r, q, dummy);
    forall d, e | 0 <= d < e < |ss| && MatchCount(ss[d], p) > 0 ensures MatchCount(ss[e], p) == 0 {
      if MatchCount(ss[e], p) > 0 {
        var a := KeyInChunk(mem, z, height, c, r, q, dummy, l, ids, p, d);
        var b := KeyInChunk(mem, z, height, c, r, q, dummy, l, ids, p, e);
        SameOrderSameDestination(a, b, c);
      }
    }
  }

  lemma KeyInChunk<V>(mem: seq<Block<V>>, z: nat, height: nat, c: nat, r: seq<Block<V>>, q: nat, dummy: Block<V>,
                      l: seq<Block<V>>, ids: Ids, p: Payload, d: nat) returns (tag: Tag)
    requires height <= MAX_TREE_HEIGHT && PathInvariant(mem, z, height) && c <= height && !dummy.Real() && d < Pow2(c)
    requires Routed(l, r, SubtreeOf(c), Pow2(c), q) && Known(Flat(Chunks(mem, z, height, c, Pow2(c), r, q, dummy)), ids)
    requires MatchCount(Chunk(mem, z, height, c, d, InboxOf(r, q, d), dummy), p) > 0
    ensures (tag, p) in ids && Destination(tag, c) == d
  {
    hide Slots, Pow2, MatchCount, Chunk, Destination, Live, BinBlocks, PathInvariant;
    InvariantShape(mem, z, height);
    var ck := Chunk(mem, z, height, c, d, InboxOf(r, q, d), dummy);
    CountPresent(ck, p);
    var i :| 0 <= i < |ck| && Matches(ck[i], p);
    tag := ck[i].tag;
    assert RoutedBin(l, r, SubtreeOf(c), q, d);
    InboxBlocks(l, r, SubtreeOf(c), q, d);
    ChunkDestination(mem, z, height, c, d, InboxOf(r, q, d), dummy, i);
    var ss := Chunks(mem, z, height, c, Pow2(c), r, q, dummy);
    assert ss[d] == ck;
    KnownFlat(ss, ids, d);
  }

  lemma InboxBlocks<V>(l: seq<Block<V>>, r: seq<Block<V>>, binOf: Block<V> -> nat, q: nat, d: nat)
    requires RoutedBin(l, r, binOf, q, d)
    ensures forall x :: x in InboxOf(r, q, d) && x.Real() ==> binOf(x) == d
  {
    hide Slots, Live, BinBlocks;
    var inbox, b := InboxOf(r, q, d), BinBlocks(l, binOf, d);
    forall i | 0 <= i < |inbox| && inbox[i].Real() ensures binOf(inbox[i]) == d {
      assert inbox[i] == inbox[..|b|][i] == b[i] && b[i] in b;
    }
  }

  // ---- The readout -------------------------------------------------------------------------------------------------

  /** What reading a chunk out leaves of it. */
  ghost predicate ChunkRead<V(!new)>(m: Values<V>, ck: seq<Block<V>>, out: seq<Block<V>>, z: nat, localHeight: nat) {
    && |out| == |ck| && (forall p :: Total(m, out, p) == Total(m, ck, p))
    && (Ordered(ck, z, localHeight) && AllCoherent(ck) ==> IsReadout(m, ck, out))
  }

  /** The promise of a bulk readout of the blocks `s`. */
  ghost predicate ReadsOut<V(!new)>(m: Values<V>, s: seq<Block<V>>, out: seq<Block<V>>) {
    && (forall p :: Total(m, out, p) == Total(m, s, p))
    && (forall ids :: Known(s, ids) && IdsCoherent(ids) ==> IsReadout(m, s, out))
  }

  /** Chunk by chunk, everything is read out, each key in one place. */
  lemma PartitionReads<V(!new)>(m: Values<V>, mem: seq<Block<V>>, overflow: seq<Block<V>>, t: seq<Block<V>>,
                                r: seq<Block<V>>, z: nat, height: nat, c: nat, q: nat, dummy: Block<V>,
                                os: seq<seq<Block<V>>>)
    requires Lawful(m) && height <= MAX_TREE_HEIGHT && PathInvariant(mem, z, height) && Shape(mem, z, height)
    requires c <= height && !dummy.Real()
    requires Slots(Pow2(c), z) <= |mem| && multiset(t) == multiset(Upper(mem, overflow, z, c))
    requires Routed(Live(Reduced(m, t)), r, SubtreeOf(c), Pow2(c), q)
    requires |os| == Pow2(c) && forall d: nat :: d < Pow2(c) ==>
               ChunkRead(m, Chunks(mem, z, height, c, Pow2(c), r, q, dummy)[d], os[d], z, height - c)
    ensures ReadsOut(m, mem + overflow, Flat(os))
  {
    hide *;
    var ss := Chunks(mem, z, height, c, Pow2(c), r, q, dummy);
    RoutedIs(Live(Reduced(m, t)), r, SubtreeOf(c), Pow2(c), q);
    ChunksAre(mem, z, height, c, r, q, dummy);
    forall p ensures Total(m, Flat(os), p) == Total(m, mem + overflow, p) {
      forall d: nat | d < |ss| ensures Total(m, ss[d], p) == Total(m, os[d], p) {
        ChunkReadTotal(m, ss[d], os[d], z, height - c, p);
      }
      FlatTotal(m, ss, os, p);
      ContentsKept(m, mem, overflow, t, r, Flat(ss), z, c, p);
    }
    forall ids | Known(mem + overflow, ids) && IdsCoherent(ids) ensures IsReadout(m, mem + overflow, Flat(os)) {
      ChunksKnown(m, mem, overflow, t, r, Flat(ss), z, c, ids);
      forall p ensures ReadsKey(m, mem + overflow, Flat(os), p) {
        forall d: nat | d < |ss| ensures ReadsKey(m, ss[d], os[d], p) {
          OneChunkReads(m, mem, z, height, c, r, q, dummy, os[d], ids, p, d);
        }
        ChunksApart(mem, z, height, c, r, q, dummy, Live(Reduced(m, t)), ids, p);
        FlatReadsKey(m, ss, os, p);
        ContentsKept(m, mem, overflow, t, r, Flat(ss), z, c, p);
        SameContentsRead(m, mem + overflow, Flat(ss), Flat(os), p);
      }
      AllKeysRead(m, mem + overflow, Flat(os));
    }
    ReadsOutIs(m, mem + overflow, Flat(os));
  }

  lemma RoutedIs<V>(l: seq<Block<V>>, r: seq<Block<V>>, binOf: Block<V> -> nat, bins: nat, q: nat)
    requires Routed(l, r, binOf, bins, q)
    ensures |r| == Slots(bins, q) && Live(r) == l
  {
  }

  lemma ChunkReadTotal<V(!new)>(m: Values<V>, ck: seq<Block<V>>, out: seq<Block<V>>, z: nat, localHeight: nat,
                                p: Payload)
    requires ChunkRead(m, ck, out, z, localHeight)
    ensures Total(m, ck, p) == Total(m, out, p)
  {
  }

  lemma SameContentsRead<V>(m: Values<V>, s: seq<Block<V>>, t: seq<Block<V>>, out: seq<Block<V>>, p: Payload)
    requires ReadsKey(m, t, out, p) && Total(m, t, p) == Total(m, s, p)
    requires (MatchCount(t, p) > 0 <==> MatchCount(s, p) > 0)
    ensures ReadsKey(m, s, out, p)
  {
  }

  lemma AllKeysRead<V(!new)>(m: Values<V>, s: seq<Block<V>>, out: seq<Block<V>>)
    requires forall p :: ReadsKey(m, s, out, p)
    ensures IsReadout(m, s, out)
  {
  }

  lemma ReadsOutIs<V(!new)>(m: Values<V>, s: seq<Block<V>>, out: seq<Block<V>>)
    requires forall p :: Total(m, out, p) == Total(m, s, p)
    requires forall ids :: Known(s, ids) && IdsCoherent(ids) ==> IsReadout(m, s, out)
    ensures ReadsOut(m, s, out)
  {
  }

  lemma OneChunkReads<V(!new)>(m: Values<V>, mem: seq<Block<V>>, z: nat, height: nat, c: nat, r: seq<Block<V>>, q: nat,
                               dummy: Block<V>, out: seq<Block<V>>, ids: Ids, p: Payload, d: nat)
    requires height <= MAX_TREE_HEIGHT && PathInvariant(mem, z, height) && Shape(mem, z, height) && c <= height
    requires !dummy.Real()
    requires d < Pow2(c) && IdsCoherent(ids) && Known(Flat(Chunks(mem, z, height, c, Pow2(c), r, q, dummy)), ids)
    requires ChunkRead(m, Chunks(mem, z, height, c, Pow2(c), r, q, dummy)[d], out, z, height - c)
    ensures ReadsKey(m, Chunks(mem, z, height, c, Pow2(c), r, q, dummy)[d], out, p)
  {
    hide Slots, Pow2, Known, IdsCoherent, Chunk, Ordered, AllCoherent, PathInvariant, Shape, Total, ReadsKey;
    var ss := Chunks(mem, z, height, c, Pow2(c), r, q, dummy);
    ChunkOrdered(mem, z, height, c, d, InboxOf(r, q, d), dummy);
    KnownFlat(ss, ids, d);
    KnownCoherent(ss[d], ids);
  }

  /** The first node of a subtree's level, as the copy loop computes it. */
  function GlobalFirstNode(cutDepth: nat, subtree: nat, localDepth: nat): nat {
    Pow2(cutDepth + localDepth) + subtree * Pow2(localDepth)
  }

  /** The storage of one subtree: node zero stays empty, the levels follow, then the inbox. */
  method BuildChunk<V>(mem: array<Block<V>>, z: nat, height: nat, cutDepth: nat, subtree: nat, routed: array<Block<V>>,
                       inboxLen: nat, dummy: Block<V>)
      returns (chunk: array<Block<V>>)
    requires Shape(mem[..], z, height) && cutDepth <= height && subtree < Pow2(cutDepth)
    requires Slots(subtree, inboxLen) + inboxLen <= routed.Length
    ensures fresh(chunk)
    ensures chunk[..] == Chunk(mem[..], z, height, cutDepth, subtree, InboxOf(routed[..], inboxLen, subtree), dummy)
  {
    hide Slots, Shape, Pow2, Chunk, BuiltTo;
    var localTreeLen := Slots(Pow2(height - cutDepth + 1), z);
    chunk := new Block<V>[localTreeLen + inboxLen](_ => dummy);
    NothingBuilt(chunk[..], mem[..], z, height, cutDepth, subtree, dummy, inboxLen);
    CopyLevels(mem, z, height, cutDepth, subtree, dummy, inboxLen, chunk);
    ghost var before := chunk[..];
    CopyBlocks(routed, Slots(subtree, inboxLen), chunk, localTreeLen, inboxLen);
    ChunkBuilt(before, chunk[..], mem[..], z, height, cutDepth, subtree, dummy, InboxOf(routed[..], inboxLen, subtree));
  }

  /** The copy loop for one subtree's levels. */
  method CopyLevels<V>(mem: array<Block<V>>, z: nat, height: nat, cutDepth: nat, subtree: nat, ghost dummy: Block<V>,
                       ghost q: nat, chunk: array<Block<V>>)
    requires mem != chunk && cutDepth <= height
    requires BuiltTo(chunk[..], mem[..], z, height, cutDepth, subtree, dummy, q, 0)
    modifies chunk
    ensures BuiltTo(chunk[..], mem[..], z, height, cutDepth, subtree, dummy, q, height - cutDepth + 1)
  {
    hide Slots, Pow2, GlobalFirstNode, BuiltTo;
    ghost var m := mem[..];
    for localDepth := 0 to height - cutDepth + 1
      invariant mem[..] == m && BuiltTo(chunk[..], m, z, height, cutDepth, subtree, dummy, q, localDepth)
    {
      BuildBounds(chunk[..], m, z, height, cutDepth, subtree, dummy, q, localDepth);
      var nodesAtDepth, globalFirstNode := Pow2(localDepth), GlobalFirstNode(cutDepth, subtree, localDepth);
      ghost var before := chunk[..];
      CopyBlocks(mem, Slots(globalFirstNode, z), chunk, Slots(nodesAtDepth, z), Slots(nodesAtDepth, z));
      LevelBuilt(before, chunk[..], m, z, height, cutDepth, subtree, dummy, q, localDepth);
    }
  }

  /** Node zero and the first `k` levels are in place. */
  ghost predicate BuiltTo<V>(ck: seq<Block<V>>, mem: seq<Block<V>>, z: nat, height: nat, c: nat, d: nat,
                             dummy: Block<V>, q: nat, k: nat) {
    && Shape(mem, z, height) && c + k <= height + 1 && d < Pow2(c) && |ck| == Slots(Pow2(height - c + 1), z) + q
    && Slots(Pow2(k), z) <= |ck|
    && ck[..Slots(Pow2(k), z)] == Dummies(z, dummy) + LocalLevels(mem, z, height, c, Pow2(c) + d, k)
  }

  lemma NothingBuilt<V>(ck: seq<Block<V>>, mem: seq<Block<V>>, z: nat, height: nat, c: nat, d: nat, dummy: Block<V>,
                        q: nat)
    requires Shape(mem, z, height) && c <= height && d < Pow2(c) && |ck| == Slots(Pow2(height - c + 1), z) + q
    requires forall i :: 0 <= i < |ck| ==> ck[i] == dummy
    ensures BuiltTo(ck, mem, z, height, c, d, dummy, q, 0)
  {
    hide Slots, Shape, LocalLevels, Pow2;
    PowStep(c);
    NoLevels(mem, z, height, c, Pow2(c) + d);
    LocalFits(z, 0, height - c);
    assert ck[..z] == Dummies(z, dummy);
  }

  lemma BuildBounds<V>(ck: seq<Block<V>>, mem: seq<Block<V>>, z: nat, height: nat, c: nat, d: nat, dummy: Block<V>,
                       q: nat, k: nat)
    requires BuiltTo(ck, mem, z, height, c, d, dummy, q, k) && c + k <= height
    ensures Slots(GlobalFirstNode(c, d, k), z) + Slots(Pow2(k), z) <= |mem| && 2 * Slots(Pow2(k), z) <= |ck|
  {
    hide Slots, Pow2, LocalLevels, First, GlobalFirstNode;
    SourceStart(z, height, c, d, k);
    LocalFits(z, k, height - c);
    DoubleSlots(k, z);
  }

  lemma LevelBuilt<V>(before: seq<Block<V>>, after: seq<Block<V>>, mem: seq<Block<V>>, z: nat, height: nat, c: nat,
                      d: nat, dummy: Block<V>, q: nat, k: nat)
    requires BuiltTo(before, mem, z, height, c, d, dummy, q, k) && c + k <= height
    requires var n, at := Slots(Pow2(k), z), Slots(GlobalFirstNode(c, d, k), z);
      at + n <= |mem| && 2 * n <= |before| && after == before[..n] + mem[at..at + n] + before[n + n..]
    ensures BuiltTo(after, mem, z, height, c, d, dummy, q, k + 1)
  {
    hide Slots, Pow2, LocalLevels, First, GlobalFirstNode, Shape;
    var n, at := Slots(Pow2(k), z), Slots(GlobalFirstNode(c, d, k), z);
    PowStep(c);
    SourceStart(z, height, c, d, k);
    DoubleSlots(k, z);
    LocalLevelsUnfolds(mem, z, height, c, Pow2(c) + d, k);
    CopiedLevel(before, after, n, mem[at..at + n]);
  }

  lemma ChunkBuilt<V>(before: seq<Block<V>>, after: seq<Block<V>>, mem: seq<Block<V>>, z: nat, height: nat, c: nat,
                      d: nat, dummy: Block<V>, inbox: seq<Block<V>>)
    requires c <= height && BuiltTo(before, mem, z, height, c, d, dummy, |inbox|, height - c + 1)
    requires after == before[..Slots(Pow2(height - c + 1), z)] + inbox
    ensures after == Chunk(mem, z, height, c, d, inbox, dummy)
  {
    hide Slots, Pow2, LocalLevels, Shape;
  }

  lemma CopiedLevel<T>(before: seq<T>, after: seq<T>, n: nat, level: seq<T>)
    requires |level| == n && 2 * n <= |before| && after == before[..n] + level + before[n + n..]
    ensures after[..2 * n] == before[..n] + level
  {
  }

  lemma NoLevels<V>(mem: seq<Block<V>>, z: nat, height: nat, c: nat, root: nat)
    requires Shape(mem, z, height) && c <= height && Pow2(c) <= root < Pow2(c + 1)
    ensures LocalLevels(mem, z, height, c, root, 0) == [] && Slots(Pow2(0), z) == z
  {
  }

  lemma LocalFits(z: nat, k: nat, localHeight: nat)
    requires k <= localHeight
    ensures Slots(Pow2(k), z) <= Slots(Pow2(k + 1), z) <= Slots(Pow2(localHeight + 1), z)
  {
    hide Slots, Pow2;
    PowStep(k);
    if k < localHeight { Pow2Monotone(k + 1, localHeight + 1); }
    SlotsMonotone(Pow2(k), Pow2(k + 1), z);
    SlotsMonotone(Pow2(k + 1), Pow2(localHeight + 1), z);
  }

  lemma SourceStart(z: nat, height: nat, c: nat, d: nat, k: nat)
    requires c + k <= height && d < Pow2(c)
    ensures GlobalFirstNode(c, d, k) == First(Pow2(c) + d, k)
    ensures Slots(First(Pow2(c) + d + 1, k), z) == Slots(First(Pow2(c) + d, k), z) + Slots(Pow2(k), z)
    ensures Slots(First(Pow2(c) + d + 1, k), z) <= Slots(Pow2(height + 1), z)
  {
    PowStep(c);
    Pow2Split(c, k);
    FirstIs(Pow2(c) + d, k);
    assert (Pow2(c) + d) * Pow2(k) == Pow2(c) * Pow2(k) + d * Pow2(k);
    StretchFits(z, height, c, k, Pow2(c) + d);
  }

  // ---- The whole procedure --------------------------------------------------------------------------------

  /** `next_power_of_two`. */
  function NextPowerOfTwo(n: nat): (r: nat)
    ensures IsPowerOfTwo(r) && n <= r && (n >= 1 ==> r < 2 * n)
  {
    if n <= 1 then 1 else 2 * NextPowerOfTwo((n + 1) / 2)
  }

  datatype SubtreeReadoutOverflow = SubtreeReadoutOverflow(maxLoad: nat, inboxLen: nat, subtreeCount: nat)

  ghost function SortedForTree<V>(s: seq<Block<V>>): (r: seq<Block<V>>)
    ensures |r| == |s|
  {
    MergeExchangeFits(|s|);
    Run(MergeExchange(|s|), s, TreeGt)
  }

  /** The blocks that are routed to the inboxes. */
  ghost function UpperRun<V>(m: Values<V>, mem: seq<Block<V>>, overflow: seq<Block<V>>, z: nat, c: nat): seq<Block<V>>
    requires Slots(Pow2(c), z) <= |mem|
  {
    Live(Reduced(m, SortedForTree(Upper(mem, overflow, z, c))))
  }

  lemma SortedForTreeSorts<V(!new)>(s: seq<Block<V>>)
    ensures multiset(SortedForTree(s)) == multiset(s) && Sorted(SortedForTree(s), TreeGt)
  {
    hide Run, Fits, MergeExchange, TreeGt;
    TreeOrder<V>();
    MergeExchangeFits(|s|);
    SortBySorts(s, SortedForTree(s), TreeGt);
  }

  /** Sorting, reducing and compacting the upper blocks. */
  method PackUpper<V(!new)>(m: Values<V>, upper: array<Block<V>>) returns (realLen: nat)
    modifies upper
    ensures Packed(upper[..], Live(Reduced(m, SortedForTree(old(upper[..])))))
    ensures realLen == |Live(Reduced(m, SortedForTree(old(upper[..]))))|
  {
    hide Reduced, Live, CompactedSlice, Run, Fits, MergeExchange, TreeGt, RealFirst;
    ghost var s := upper[..];
    assert upper[0..upper.Length] == s;
    SortBy(upper, 0, upper.Length, TreeGt);
    assert upper[0..upper.Length] == upper[..];
    ReduceEqualRuns(m, upper);
    ghost var r := upper[..];
    assert upper[0..upper.Length] == r;
    realLen := CompactBlocks(upper, 0, upper.Length);
    WholePacked(r, upper[..]);
  }

  lemma WholePacked<V>(r: seq<Block<V>>, c: seq<Block<V>>)
    requires CompactedSlice(r, c, 0, |r|)
    ensures Packed(c, Live(r))
  {
    hide Live;
    CompactedAll(r, c);
    assert r[0..0 + |r|] == r;
    assert c[..|Live(r)|] == c[0..0 + |Live(r)|];
  }

  /** Some subtree's inbox is too small. */
  ghost predicate InboxOverflows<V>(l: seq<Block<V>>, c: nat, q: nat)
    requires c <= MAX_TREE_HEIGHT
  {
    exists d: nat :: d < Pow2(c) && |BinBlocks(l, SubtreeOf(c), d)| > q
  }

  /** The error names the largest load, the size of an inbox, and the number of subtrees. */
  ghost predicate Reports<V>(e: SubtreeReadoutOverflow, l: seq<Block<V>>, c: nat, q: nat)
    requires c <= MAX_TREE_HEIGHT
  {
    && e.inboxLen == q && e.subtreeCount == Pow2(c)
    && (exists d: nat :: d < Pow2(c) && |BinBlocks(l, SubtreeOf(c), d)| == e.maxLoad)
    && (forall d: nat :: d < Pow2(c) ==> |BinBlocks(l, SubtreeOf(c), d)| <= e.maxLoad)
  }

  // ---- Loads in terms of keys -----------------------------------------------------------------------------

  /** The keys whose tags lead to the subtree: `d` is the number their first `c` routing bits form. */
  ghost function KeysBelow<V>(s: seq<Block<V>>, c: nat, d: nat): set<Payload>
    requires c <= MAX_TREE_HEIGHT
  {
    set i | 0 <= i < |s| && s[i].Real() && s[i].tag % 0x8000_0000 / Pow2(MAX_TREE_HEIGHT - c) == d :: s[i].payload
  }

  lemma BelowAre<V>(s: seq<Block<V>>, c: nat, d: nat)
    requires c <= MAX_TREE_HEIGHT
    ensures KeysBelow(s, c, d) == KeysIn(s, SubtreeOf(c), d)
  {
    hide Pow2, Destination, AddressToLeaf;
    forall i | 0 <= i < |s|
      ensures SubtreeOf(c)(s[i]) == s[i].tag % 0x8000_0000 / Pow2(MAX_TREE_HEIGHT - c)
    {
      DestinationIs(s[i].tag, c);
      LeafOfTag(s[i].tag, c);
    }
  }

  lemma CoherentBins<V(!new)>(s: seq<Block<V>>, c: nat)
    requires c <= MAX_TREE_HEIGHT && AllCoherent(s)
    ensures KeysHaveBins(s, SubtreeOf(c))
  {
    hide RoutingBits, Shr;
    forall i, j | 0 <= i < |s| && 0 <= j < |s| && s[i].Real() && s[j].Real() && s[i].payload == s[j].payload
      ensures SubtreeOf(c)(s[i]) == SubtreeOf(c)(s[j])
    {
      assert Coherent(s, s[i].payload) && Matches(s[i], s[i].payload) && Matches(s[j], s[i].payload);
    }
  }

  lemma CoherentPermutes<V>(s: seq<Block<V>>, t: seq<Block<V>>, p: Payload)
    requires multiset(s) == multiset(t) && Coherent(s, p)
    ensures Coherent(t, p)
  {
    hide TagOrder;
    forall i, j | 0 <= i < |t| && 0 <= j < |t| && Matches(t[i], p) && Matches(t[j], p)
      ensures TagOrder(t[i].tag) == TagOrder(t[j].tag)
    {
      assert t[i] in multiset(s) && t[j] in multiset(s);
      var a :| 0 <= a < |s| && s[a] == t[i];
      var b :| 0 <= b < |s| && s[b] == t[j];
    }
  }

  /** When keys determine their tags' order, an inbox is loaded with one block for each key routed to it. */
  lemma InboxLoad<V(!new)>(m: Values<V>, s: seq<Block<V>>, c: nat, d: nat)
    requires c <= MAX_TREE_HEIGHT && AllCoherent(s)
    ensures |BinBlocks(Live(Reduced(m, SortedForTree(s))), SubtreeOf(c), d)| == |KeysBelow(s, c, d)|
  {
    hide SortedForTree, Coherent, TreeGt, Live, Reduced, BinBlocks, KeysIn, KeysBelow, Adjacent, KeysHaveBins;
    var t := SortedForTree(s);
    SortedForTreeSorts(s);
    forall p ensures Coherent(t, p) && Adjacent(t, p) {
      assert Coherent(s, p);
      CoherentPermutes(s, t, p);
      TreeSortedAdjacent(t, p);
    }
    CoherentBins(t, c);
    LoadIsKeys(m, s, t, SubtreeOf(c), d);
    BelowAre(s, c, d);
  }

  /** Then an inbox is too small exactly when more keys are routed to its subtree than it has slots. */
  lemma OverflowIsKeys<V(!new)>(m: Values<V>, s: seq<Block<V>>, c: nat, q: nat)
    requires c <= MAX_TREE_HEIGHT && AllCoherent(s)
    ensures InboxOverflows(Live(Reduced(m, SortedForTree(s))), c, q)
       <==> exists d: nat :: d < Pow2(c) && |KeysBelow(s, c, d)| > q
  {
    hide SortedForTree, Live, Reduced, BinBlocks, KeysBelow, AllCoherent, Pow2;
    var l := Live(Reduced(m, SortedForTree(s)));
    forall d: nat | d < Pow2(c) ensures |BinBlocks(l, SubtreeOf(c), d)| == |KeysBelow(s, c, d)| {
      InboxLoad(m, s, c, d);
    }
  }

  /** Counting and routing the upper blocks to the inboxes; an error says that one is too small. */
  method RouteUpper<V(!new)>(m: Values<V>, upper: array<Block<V>>, cutDepth: nat, inboxLen: nat, dummy: Block<V>)
      returns (r: Result<array<Block<V>>, SubtreeReadoutOverflow>)
    requires cutDepth <= MAX_TREE_HEIGHT && !dummy.Real()
    modifies upper
    ensures var l := Live(Reduced(m, SortedForTree(old(upper[..]))));
      && (r.Err? <==> InboxOverflows(l, cutDepth, inboxLen))
      && (r.Err? ==> Reports(r.error, l, cutDepth, inboxLen))
      && (r.Ok? ==> fresh(r.value) && Routed(l, r.value[..], SubtreeOf(cutDepth), Pow2(cutDepth), inboxLen))
  {
    hide Reduced, Live, Packed, Routed, BinBlocks, InBinOrder, SortedForTree, Pow2;
    ghost var t := SortedForTree(upper[..]);
    ghost var l := Live(Reduced(m, t));
    SortedForTreeSorts(upper[..]);
    UpperInOrder(m, t, cutDepth);
    var realUpperLen := PackUpper(m, upper);
    var counts := new nat[Pow2(cutDepth)](_ => 0);
    PackedFront(upper[..], l);
    CountLoads(counts, upper, realUpperLen, SubtreeOf(cutDepth));
    var maxLoad := MaxLoad(counts);
    if maxLoad > inboxLen {
      ghost var d: nat :| d < Pow2(cutDepth) && counts[..][d] == maxLoad;
      assert |BinBlocks(l, SubtreeOf(cutDepth), d)| > inboxLen;
      forall e: nat | e < Pow2(cutDepth) ensures |BinBlocks(l, SubtreeOf(cutDepth), e)| <= maxLoad {
        assert counts[..][e] <= maxLoad;
      }
      return Err(SubtreeReadoutOverflow(maxLoad, inboxLen, Pow2(cutDepth)));
    }
    forall d: nat | d < Pow2(cutDepth) ensures |BinBlocks(l, SubtreeOf(cutDepth), d)| <= inboxLen {
      assert counts[..][d] <= inboxLen;
    }
    var routed := RouteToBins(upper, counts, inboxLen, dummy, l, SubtreeOf(cutDepth));
    r := Ok(routed);
  }

  lemma PackedFront<V>(s: seq<Block<V>>, l: seq<Block<V>>)
    requires Packed(s, l)
    ensures |l| <= |s| && s[..|l|] == l
  {
  }

  /** The chunks read out one after the other. */
  method ReadChunks<V(!new)>(m: Values<V>, mem: array<Block<V>>, z: nat, height: nat, cutDepth: nat,
                             routed: array<Block<V>>, inboxLen: nat, dummy: Block<V>)
      returns (output: array<Block<V>>, ghost os: seq<seq<Block<V>>>)
    requires Lawful(m) && IsPowerOfTwo(z) && Shape(mem[..], z, height) && cutDepth <= height
    requires routed.Length == Slots(Pow2(cutDepth), inboxLen)
    ensures fresh(output) && output.Length == Slots(Pow2(cutDepth), Slots(Pow2(height - cutDepth + 1), z) + inboxLen)
    ensures output[..] == Flat(os) && |os| == Pow2(cutDepth)
    ensures forall d: nat :: d < Pow2(cutDepth) ==>
              ChunkRead(m, Chunks(mem[..], z, height, cutDepth, Pow2(cutDepth), routed[..], inboxLen, dummy)[d], os[d],
                        z, height - cutDepth)
  {
    hide Slots, Pow2, Chunk, Shape, ChunkRead, Lawful, IsPowerOfTwo, InboxOf, Flat;
    var chunkLen := Slots(Pow2(height - cutDepth + 1), z) + inboxLen;
    output := new Block<V>[Slots(Pow2(cutDepth), chunkLen)](_ => dummy);
    os := [];
    SlotsNext(0, chunkLen);
    NothingFlat<Block<V>>();
    for subtree := 0 to Pow2(cutDepth)
      invariant |os| == subtree && Slots(subtree, chunkLen) <= output.Length
      invariant output[..Slots(subtree, chunkLen)] == Flat(os)
      invariant forall d: nat :: d < subtree ==>
                  ChunkRead(m, Chunk(mem[..], z, height, cutDepth, d, InboxOf(routed[..], inboxLen, d), dummy), os[d],
                            z, height - cutDepth)
    {
      SlotsMonotone(subtree, Pow2(cutDepth), chunkLen);
      SlotsMonotone(subtree, Pow2(cutDepth), inboxLen);
      SlotsNext(subtree, chunkLen);
      var chunk := ReadChunk(m, mem, z, height, cutDepth, subtree, routed, inboxLen, dummy);
      ghost var before := output[..];
      CopyBlocks(chunk, 0, output, Slots(subtree, chunkLen), chunkLen);
      PartAppended(before, output[..], Slots(subtree, chunkLen), chunk[0..0 + chunkLen]);
      assert chunk[0..0 + chunkLen] == chunk[..];
      FlatAppend(os, chunk[..]);
      os := os + [chunk[..]];
    }
    assert output[..output.Length] == output[..];
  }

  lemma NothingFlat<T>()
    ensures Flat<T>([]) == []
  {
  }

  lemma PartAppended<T>(before: seq<T>, after: seq<T>, i: nat, part: seq<T>)
    requires i + |part| <= |before| && after == before[..i] + part + before[i + |part|..]
    ensures after[..i + |part|] == before[..i] + part
  {
  }

  method ReadChunk<V(!new)>(m: Values<V>, mem: array<Block<V>>, z: nat, height: nat, cutDepth: nat, subtree: nat,
                            routed: array<Block<V>>, inboxLen: nat, dummy: Block<V>)
      returns (chunk: array<Block<V>>)
    requires Lawful(m) && IsPowerOfTwo(z) && Shape(mem[..], z, height) && cutDepth <= height && subtree < Pow2(cutDepth)
    requires Slots(subtree, inboxLen) + inboxLen <= routed.Length
    ensures fresh(chunk) && chunk.Length == Slots(Pow2(height - cutDepth + 1), z) + inboxLen
    ensures ChunkRead(m, Chunk(mem[..], z, height, cutDepth, subtree, InboxOf(routed[..], inboxLen, subtree), dummy),
                      chunk[..], z, height - cutDepth)
  {
    hide Slots, Pow2, Chunk, Shape, Lawful, IsPowerOfTwo, Ordered, AllCoherent, IsReadout;
    chunk := BuildChunk(mem, z, height, cutDepth, subtree, routed, inboxLen, dummy);
    ChunkLength(mem[..], z, height, cutDepth, subtree, InboxOf(routed[..], inboxLen, subtree), dummy);
    ObliviousTreeReadout(m, chunk, inboxLen, z, height - cutDepth);
  }

  /**
    `readout_subtree_partitioned` below the cut.  An error is returned exactly when some
    inbox is too small; otherwise the output is a readout of tree and overflow.
   */
  method ReadoutSubtrees<V(!new)>(m: Values<V>, mem: array<Block<V>>, stash: array<Block<V>>, pathSize: nat, z: nat,
                                  height: nat, localHeight: nat, suggestedQuota: nat, dummy: Block<V>)
      returns (r: Result<array<Block<V>>, SubtreeReadoutOverflow>)
    requires Lawful(m) && IsPowerOfTwo(z) && localHeight < height <= MAX_TREE_HEIGHT
    requires PathInvariant(mem[..], z, height)
    requires pathSize <= stash.Length && !dummy.Real()
    ensures Slots(Pow2(height - localHeight), z) <= mem.Length
    ensures var q := NextPowerOfTwo(if suggestedQuota < 1 then 1 else suggestedQuota);
      && (r.Err? <==> InboxOverflows(UpperRun(m, mem[..], stash[pathSize..], z, height - localHeight),
                                     height - localHeight, q))
      && (r.Err? ==> Reports(r.error, UpperRun(m, mem[..], stash[pathSize..], z, height - localHeight),
                             height - localHeight, q))
      && (r.Ok? ==> fresh(r.value) && r.value.Length == Slots(Pow2(height - localHeight),
                                                              Slots(Pow2(localHeight + 1), z) + q)
                    && ReadsOut(m, mem[..] + stash[pathSize..], r.value[..]))
  {
    hide Slots, Pow2, Lawful, IsPowerOfTwo, PathInvariant, Routed, Live, Reduced, SortedForTree, InboxOverflows,
         Reports, ChunkRead, ReadsOut, Chunks, Shape;
    InvariantShape(mem[..], z, height);
    var cutDepth := height - localHeight;
    UpperFits(mem[..], z, height, cutDepth);
    var upperTreeLen := Slots(Pow2(cutDepth), z);
    var inboxLen := NextPowerOfTwo(if suggestedQuota < 1 then 1 else suggestedQuota);
    var upper := Joined(mem, upperTreeLen, stash, pathSize, dummy);
    ghost var s := upper[..];
    assert s == Upper(mem[..], stash[pathSize..], z, cutDepth);
    var routing := RouteUpper(m, upper, cutDepth, inboxLen, dummy);
    if routing.Err? {
      return Err(routing.error);
    }
    var routed := routing.value;
    RoutedIs(Live(Reduced(m, SortedForTree(s))), routed[..], SubtreeOf(cutDepth), Pow2(cutDepth), inboxLen);
    var output, os := ReadChunks(m, mem, z, height, cutDepth, routed, inboxLen, dummy);
    SortedForTreeSorts(s);
    PartitionReads(m, mem[..], stash[pathSize..], SortedForTree(s), routed[..], z, height, cutDepth, inboxLen, dummy,
                   os);
    r := Ok(output);
  }
}
