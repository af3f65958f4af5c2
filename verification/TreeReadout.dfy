/**
  The tree-aware readout: buckets are sorted one by one, each level compacted into a run,
  the runs merged from the root down, the overflow merged in last, and equal keys reduced.
 */
module TreeReadout {
  import opened Arithmetic
  import opened Networks
  import opened MergeExchangeNetwork
  import opened DjbSort
  import opened OddEvenMerge
  import opened Blocks
  import opened Reduction
  import opened Routing
  import opened SortReduce
  import opened Tree
  import opened Order
  import opened Readout

  // ---- Levels in routing order ---------------------------------------------------------------------

  /** Every block of bucket `u` is routed to the left of every block of bucket `v`. */
  ghost predicate Before<V>(s: seq<Block<V>>, z: nat, u: nat, v: nat) {
    && HasBucket(s, z, u) && HasBucket(s, z, v)
    && forall a, b :: a in Bucket(s, z, u) && b in Bucket(s, z, v) && a.Real() && b.Real() ==>
        RoutingBits(a.tag) < RoutingBits(b.tag)
  }

  ghost predicate LevelOrdered<V>(s: seq<Block<V>>, z: nat, d: nat) {
    forall u: nat, v: nat :: LeafAt(u, d) && LeafAt(v, d) && u < v ==> Before(s, z, u, v)
  }

  /** Node zero is empty, and each level's buckets come in routing order. */
  ghost predicate Ordered<V>(s: seq<Block<V>>, z: nat, height: nat) {
    && HasBucket(s, z, 0) && AllDummies(Bucket(s, z, 0))
    && forall d: nat :: d <= height ==> LevelOrdered(s, z, d)
  }

  // ---- One level ---------------------------------------------------------------------------------------

  ghost predicate BucketSorted<V>(s: seq<Block<V>>, t: seq<Block<V>>, z: nat, node: nat) {
    && HasBucket(s, z, node) && HasBucket(t, z, node)
    && multiset(Bucket(t, z, node)) == multiset(Bucket(s, z, node)) && Sorted(Bucket(t, z, node), TreeGt)
  }

  /** Buckets `first .. last` sorted one by one. */
  method SortBuckets<V(!new)>(blocks: array<Block<V>>, z: nat, first: nat, last: nat)
    requires first <= last && Slots(last, z) <= blocks.Length
    modifies blocks
    ensures Slots(first, z) <= Slots(last, z)
    ensures SameOutside(old(blocks[..]), blocks[..], Slots(first, z), Slots(last, z) - Slots(first, z))
    ensures multiset(blocks[..]) == multiset(old(blocks[..]))
    ensures forall node: nat :: first <= node < last ==> BucketSorted(old(blocks[..]), blocks[..], z, node)
  {
    hide Slots, Reached, BucketSorted, Sorted, SameOutside, TreeGt;
    SlotsMonotone(first, last, z);
    ghost var s := blocks[..];
    NothingSorted(s, first, z, last);
    for k := first to last
      invariant SortedUpTo(s, blocks[..], z, first, k, last)
    {
      SlotsMonotone(k + 1, last, z);
      SlotsNext(k, z);
      ghost var t := blocks[..];
      assert blocks[Slots(k, z)..Slots(k, z) + z] == t[Slots(k, z)..Slots(k, z) + z];
      SortBy(blocks, Slots(k, z), z, TreeGt);
      ghost var t' := blocks[..];
      assert blocks[Slots(k, z)..Slots(k, z) + z] == t'[Slots(k, z)..Slots(k, z) + z];
      OneMoreSorted(s, t, t', z, first, k, last);
    }
    AllSorted(s, blocks[..], z, first, last);
  }

  ghost predicate SortedUpTo<V>(s: seq<Block<V>>, t: seq<Block<V>>, z: nat, first: nat, k: nat, last: nat) {
    && first <= k <= last && Slots(first, z) <= Slots(k, z) <= Slots(last, z) <= |s| == |t|
    && t[..Slots(first, z)] == s[..Slots(first, z)]
    && t[Slots(k, z)..] == s[Slots(k, z)..]
    && multiset(t) == multiset(s)
    && forall node: nat :: first <= node < k ==> BucketSorted(s, t, z, node)
  }

  lemma NothingSorted<V>(s: seq<Block<V>>, first: nat, z: nat, last: nat)
    requires first <= last && Slots(last, z) <= |s|
    ensures SortedUpTo(s, s, z, first, first, last)
  {
    hide Slots, BucketSorted;
    SlotsMonotone(first, last, z);
  }

  lemma OneMoreSorted<V(!new)>(s: seq<Block<V>>, t: seq<Block<V>>, t': seq<Block<V>>, z: nat, first: nat, k: nat,
                               last: nat)
    requires SortedUpTo(s, t, z, first, k, last) && k < last && Slots(k, z) + z <= |t|
    requires SameOutside(t, t', Slots(k, z), z)
    requires Reached(MergeExchange(z), t[Slots(k, z)..Slots(k, z) + z], t'[Slots(k, z)..Slots(k, z) + z], TreeGt)
    ensures SortedUpTo(s, t', z, first, k + 1, last)
  {
    hide Slots, Reached, Sorted, TreeGt, BucketSorted;
    var lo := Slots(k, z);
    SlotsNext(k, z);
    SlotsMonotone(first, k, z);
    SlotsMonotone(k + 1, last, z);
    TreeOrder<V>();
    SortBySorts(t[lo..lo + z], t'[lo..lo + z], TreeGt);
    StretchChanged(s, t, t', Slots(first, z), lo, z);
    forall node: nat | first <= node < k + 1 ensures BucketSorted(s, t', z, node) {
      if node < k {
        SlotsMonotone(node, k, z);
        EarlierBucket(s, t, t', z, node, lo);
      } else {
        ThisBucket(s, t', z, k);
      }
    }
  }

  lemma StretchChanged<T>(s: seq<T>, t: seq<T>, t': seq<T>, first: nat, lo: nat, z: nat)
    requires first <= lo && lo + z <= |s| == |t| && SameOutside(t, t', lo, z)
    requires multiset(t'[lo..lo + z]) == multiset(t[lo..lo + z])
    requires t[..first] == s[..first] && t[lo..] == s[lo..] && multiset(t) == multiset(s)
    ensures t'[..first] == s[..first] && t'[lo + z..] == s[lo + z..] && multiset(t') == multiset(s)
    ensures t[lo..lo + z] == s[lo..lo + z] && t'[..lo] == t[..lo]
  {
    SameOutsidePermutes(t, t', lo, z);
    assert t'[..first] == t'[..lo][..first] && t[..first] == t[..lo][..first];
    assert t[lo + z..] == t[lo..][z..] && s[lo + z..] == s[lo..][z..];
    assert t[lo..lo + z] == t[lo..][..z] && s[lo..lo + z] == s[lo..][..z];
  }

  lemma EarlierBucket<V>(s: seq<Block<V>>, t: seq<Block<V>>, t': seq<Block<V>>, z: nat, node: nat, lo: nat)
    requires BucketSorted(s, t, z, node) && Slots(node, z) + z <= lo <= |t| == |t'| && t'[..lo] == t[..lo]
    ensures BucketSorted(s, t', z, node)
  {
    hide Slots, Sorted;
    assert Bucket(t', z, node) == t'[..lo][Slots(node, z)..Slots(node, z) + z];
    assert Bucket(t, z, node) == t[..lo][Slots(node, z)..Slots(node, z) + z];
  }

  lemma ThisBucket<V>(s: seq<Block<V>>, t: seq<Block<V>>, z: nat, node: nat)
    requires HasBucket(s, z, node) && HasBucket(t, z, node) && Sorted(t[Slots(node, z)..Slots(node, z) + z], TreeGt)
    requires multiset(t[Slots(node, z)..Slots(node, z) + z]) == multiset(s[Slots(node, z)..Slots(node, z) + z])
    ensures BucketSorted(s, t, z, node)
  {
    hide Slots, Sorted;
  }

  lemma AllSorted<V>(s: seq<Block<V>>, t: seq<Block<V>>, z: nat, first: nat, last: nat)
    requires SortedUpTo(s, t, z, first, last, last)
    ensures Slots(first, z) <= Slots(last, z)
    ensures SameOutside(s, t, Slots(first, z), Slots(last, z) - Slots(first, z)) && multiset(t) == multiset(s)
    ensures forall node: nat :: first <= node < last ==> BucketSorted(s, t, z, node)
  {
    hide Slots, BucketSorted;
    SlotsMonotone(first, last, z);
  }

  /** The real blocks come in order, whatever dummies stand between them. */
  ghost predicate RealSorted<V>(s: seq<Block<V>>) {
    forall i, j :: 0 <= i < j < |s| && s[i].Real() && s[j].Real() ==> !TreeGt(s[i], s[j])
  }

  lemma {:induction false} LiveSorted<V>(s: seq<Block<V>>)
    requires RealSorted(s)
    ensures Sorted(Live(s), TreeGt)
  {
    hide TreeGt;
    if s != [] {
      var n := |s| - 1;
      assert forall i :: 0 <= i < n ==> s[..n][i] == s[i];
      LiveSorted(s[..n]);
      forall y | y in Live(s[..n]) && s[n].Real() ensures !TreeGt(y, s[n]) { assert y in s[..n]; }
      var l := Live(s[..n]);
      forall i | 0 <= i < |l| ensures l[i] in l {}
    }
  }

  lemma CompactedSorted<V>(before: seq<Block<V>>, now: seq<Block<V>>, lo: nat, n: nat)
    requires CompactedSlice(before, now, lo, n) && RealSorted(before[lo..lo + n])
    ensures Sorted(now[lo..lo + n], TreeGt)
  {
    hide Live, TagOrder, LexGt;
    var l, c := Live(before[lo..lo + n]), now[lo..lo + n];
    LiveSorted(before[lo..lo + n]);
    assert c[..|l|] == now[lo..lo + |l|] == l;
    forall i, j | 0 <= i < j < n ensures !TreeGt(c[i], c[j]) {
      if j < |l| {
        assert c[i] == l[i] && c[j] == l[j] && !TreeGt(l[i], l[j]);
      } else {
        assert c[j] == now[lo + j];
      }
    }
  }

  lemma BeforePermuted<V>(s: seq<Block<V>>, t: seq<Block<V>>, z: nat, u: nat, v: nat)
    requires Before(s, z, u, v) && BucketSorted(s, t, z, u) && BucketSorted(s, t, z, v)
    ensures Before(t, z, u, v)
  {
    hide Slots, RoutingBits, Sorted;
    forall a | a in Bucket(t, z, u) ensures a in Bucket(s, z, u) { assert a in multiset(Bucket(t, z, u)); }
    forall b | b in Bucket(t, z, v) ensures b in Bucket(s, z, v) { assert b in multiset(Bucket(t, z, v)); }
  }

  /** Sorted buckets in routing order make a sorted level. */
  lemma LevelSorted<V>(s: seq<Block<V>>, t: seq<Block<V>>, z: nat, d: nat)
    requires Slots(Pow2(d), z) <= Slots(Pow2(d + 1), z) <= |t|
    requires LevelOrdered(s, z, d) && forall node: nat :: Pow2(d) <= node < Pow2(d + 1) ==> BucketSorted(s, t, z, node)
    ensures RealSorted(t[Slots(Pow2(d), z)..Slots(Pow2(d + 1), z)])
  {
    hide Slots, TreeGt, Pow2, BucketSorted, LevelOrdered;
    var lo, hi := Slots(Pow2(d), z), Slots(Pow2(d + 1), z);
    forall i: nat, j: nat | lo <= i < j < hi && t[i].Real() && t[j].Real() ensures !TreeGt(t[i], t[j]) {
      LevelPair(s, t, z, d, i, j);
    }
    var l := t[lo..hi];
    forall i, j | 0 <= i < j < |l| && l[i].Real() && l[j].Real() ensures !TreeGt(l[i], l[j]) {
      assert l[i] == t[lo + i] && l[j] == t[lo + j];
    }
  }

  lemma LevelPair<V>(s: seq<Block<V>>, t: seq<Block<V>>, z: nat, d: nat, i: nat, j: nat)
    requires Slots(Pow2(d), z) <= i < j < Slots(Pow2(d + 1), z) <= |t| && t[i].Real() && t[j].Real()
    requires LevelOrdered(s, z, d) && forall node: nat :: Pow2(d) <= node < Pow2(d + 1) ==> BucketSorted(s, t, z, node)
    ensures !TreeGt(t[i], t[j])
  {
    hide Slots, TreeGt, Pow2, RoutingBits;
    var u := BucketOfSlot(i, z, Pow2(d + 1));
    var v := BucketOfSlot(j, z, Pow2(d + 1));
    if u < Pow2(d) { SlotsMonotone(u, Pow2(d), z); }
    if v < u { SlotsMonotone(v, u, z); }
    assert BucketSorted(s, t, z, u) && BucketSorted(s, t, z, v);
    var a, b := Bucket(t, z, u), Bucket(t, z, v);
    assert a[i - Slots(u, z)] == t[i] && b[j - Slots(v, z)] == t[j];
    if u < v {
      assert Before(s, z, u, v);
      BeforePermuted(s, t, z, u, v);
      assert t[i] in a && t[j] in b;
      RoutingFirst(t[i], t[j]);
    }
  }

  // ---- Powers of two -------------------------------------------------------------------------------------

  lemma {:induction false} Pow2IsPower(e: nat)
    ensures IsPowerOfTwo(Pow2(e))
  {
    if e > 0 { Pow2IsPower(e - 1); }
  }

  /** With a power of two for bucket size, a level is as long as all levels before it, and a power of two. */
  lemma LevelLengths(d: nat, z: nat)
    requires IsPowerOfTwo(z)
    ensures Slots(Pow2(d + 1), z) == 2 * Slots(Pow2(d), z) && IsPowerOfTwo(Slots(Pow2(d), z)) && Slots(Pow2(d), z) >= 1
  {
    DoubleSlots(d, z);
    var e := PowerOfTwoExponent(z);
    Pow2Split(d, e);
    Pow2IsPower(d + e);
  }

  // ---- Merging level after level -----------------------------------------------------------------------------

  /** What one round of the level loop does to the slots up to the end of its level. */
  ghost predicate LevelMerged<V>(s: seq<Block<V>>, t: seq<Block<V>>, z: nat, d: nat) {
    && SameOutside(s, t, 0, Slots(Pow2(d + 1), z)) && multiset(t) == multiset(s)
    && Slots(Pow2(d), z) <= |s|
    && (Sorted(s[..Slots(Pow2(d), z)], TreeGt) && LevelOrdered(s, z, d) ==> Sorted(t[..Slots(Pow2(d + 1), z)], TreeGt))
  }

  /** One round: sort the level's buckets, compact the level, merge it with the levels above. */
  method MergeLevel<V(!new)>(blocks: array<Block<V>>, z: nat, depth: nat)
    requires IsPowerOfTwo(z) && Slots(Pow2(depth + 1), z) <= blocks.Length
    modifies blocks
    ensures LevelMerged(old(blocks[..]), blocks[..], z, depth)
  {
    hide Slots, Pow2, BucketSorted, SameOutside, Done, CompactedSlice, AdjacentMerge, Sorted, TreeGt, IsPowerOfTwo,
         LevelOrdered, RealSorted;
    ghost var s := blocks[..];
    LevelLengths(depth, z);
    PowStep(depth);
    var levelStart, levelEnd := Slots(Pow2(depth), z), Slots(Pow2(depth + 1), z);
    SortBuckets(blocks, z, Pow2(depth), Pow2(depth + 1));
    ghost var t := blocks[..];
    var realLen := CompactBlocks(blocks, levelStart, levelEnd - levelStart);
    ghost var c := blocks[..];
    var ok := MergeSortedBy(blocks, 0, levelEnd, levelStart, TreeGt);
    assert ok;
    MergedLevel(s, t, c, blocks[..], z, depth);
  }

  lemma MergedLevel<V(!new)>(s: seq<Block<V>>, t: seq<Block<V>>, c: seq<Block<V>>, r: seq<Block<V>>, z: nat, d: nat)
    requires IsPowerOfTwo(z) && Slots(Pow2(d + 1), z) <= |s| && Slots(Pow2(d), z) <= Slots(Pow2(d + 1), z)
    requires SameOutside(s, t, Slots(Pow2(d), z), Slots(Pow2(d + 1), z) - Slots(Pow2(d), z))
    requires multiset(t) == multiset(s)
    requires forall node: nat :: Pow2(d) <= node < Pow2(d + 1) ==> BucketSorted(s, t, z, node)
    requires CompactedSlice(t, c, Slots(Pow2(d), z), Slots(Pow2(d + 1), z) - Slots(Pow2(d), z))
    requires Done(if Slots(Pow2(d), z) == 0 then Empty else AdjacentMerge(Slots(Pow2(d), z), Slots(Pow2(d + 1), z)), c,
                  r, 0, Slots(Pow2(d + 1), z), TreeGt)
    ensures LevelMerged(s, r, z, d)
  {
    hide *;
    var lo, hi := Slots(Pow2(d), z), Slots(Pow2(d + 1), z);
    LevelLengths(d, z);
    CompactedKeeps(t, c, lo, hi - lo);
    DonePermutes(if lo == 0 then Empty else AdjacentMerge(lo, hi), c, r, 0, hi, TreeGt);
    OutsideParts(s, t, c, r, lo, hi);
    if Sorted(s[..lo], TreeGt) && LevelOrdered(s, z, d) {
      TreeOrder<V>();
      LevelSorted(s, t, z, d);
      assert lo + (hi - lo) == hi;
      CompactedSorted(t, c, lo, hi - lo);
      assert c[0..0 + lo] == c[..lo] == s[..lo];
      assert c[0 + lo..0 + hi] == c[lo..hi];
      MergeSortedBySorts(c, r, 0, hi, lo, TreeGt);
      assert r[0..0 + hi] == r[..hi];
    }
    LevelMergedIs(s, r, z, d);
  }

  lemma LevelMergedIs<V>(s: seq<Block<V>>, t: seq<Block<V>>, z: nat, d: nat)
    requires SameOutside(s, t, 0, Slots(Pow2(d + 1), z)) && multiset(t) == multiset(s) && Slots(Pow2(d), z) <= |s|
    requires Slots(Pow2(d + 1), z) <= |s| == |t|
    requires Sorted(s[..Slots(Pow2(d), z)], TreeGt) && LevelOrdered(s, z, d) ==>
              Sorted(t[..Slots(Pow2(d + 1), z)], TreeGt)
    ensures LevelMerged(s, t, z, d)
  {
    hide Slots, Sorted, LevelOrdered;
  }

  lemma CompactedKeeps<V>(s: seq<Block<V>>, c: seq<Block<V>>, lo: nat, n: nat)
    requires CompactedSlice(s, c, lo, n)
    ensures SameOutside(s, c, lo, n) && multiset(c) == multiset(s)
  {
    hide Live;
    SameOutsidePermutes(s, c, lo, n);
  }

  lemma OutsideParts<T>(s: seq<T>, t: seq<T>, c: seq<T>, r: seq<T>, lo: nat, hi: nat)
    requires lo <= hi && SameOutside(s, t, lo, hi - lo) && SameOutside(t, c, lo, hi - lo) && SameOutside(c, r, 0, hi)
    ensures SameOutside(s, r, 0, hi) && c[..lo] == s[..lo] && |s| == |t| == |c| == |r| && hi <= |s|
  {
  }

  lemma SameOutsidePermutes<T>(s: seq<T>, r: seq<T>, lo: nat, n: nat)
    requires SameOutside(s, r, lo, n) && multiset(r[lo..lo + n]) == multiset(s[lo..lo + n])
    ensures multiset(r) == multiset(s)
  {
    assert s == s[..lo] + s[lo..lo + n] + s[lo + n..] && r == s[..lo] + r[lo..lo + n] + s[lo + n..];
  }

  lemma DonePermutes<T>(net: Network, s: seq<T>, r: seq<T>, lo: nat, n: nat, gt: (T, T) -> bool)
    requires Done(net, s, r, lo, n, gt)
    ensures multiset(r) == multiset(s) && SameOutside(s, r, lo, n)
  {
    hide Run;
    RunPermutes(net, s[lo..lo + n], gt);
    SameOutsidePermutes(s, r, lo, n);
  }

  // ---- The whole readout ---------------------------------------------------------------------------------------

  /** The levels of the tree, one after the other, become one run. */
  method MergeLevels<V(!new)>(blocks: array<Block<V>>, z: nat, height: nat)
    requires IsPowerOfTwo(z) && Slots(Pow2(height + 1), z) <= blocks.Length
    modifies blocks
    ensures SameOutside(old(blocks[..]), blocks[..], 0, Slots(Pow2(height + 1), z))
    ensures multiset(blocks[..]) == multiset(old(blocks[..]))
    ensures Ordered(old(blocks[..]), z, height) ==> Sorted(blocks[..Slots(Pow2(height + 1), z)], TreeGt)
  {
    hide Slots, Pow2, LevelMerged, Sorted, TreeGt, IsPowerOfTwo, Ordered;
    ghost var s := blocks[..];
    FirstRun(s, z, height);
    for depth := 0 to height + 1
      invariant LevelsMerged(s, blocks[..], z, depth, height)
    {
      LevelFits(|s|, z, depth, height);
      ghost var t := blocks[..];
      MergeLevel(blocks, z, depth);
      LevelMergedNext(s, t, blocks[..], z, depth, height);
    }
    LevelsDone(s, blocks[..], z, height);
  }

  /** The levels above depth `d` have been merged, the others are as they were. */
  ghost predicate LevelsMerged<V>(s: seq<Block<V>>, t: seq<Block<V>>, z: nat, d: nat, height: nat) {
    && Slots(Pow2(d), z) <= |s| == |t| && multiset(t) == multiset(s)
    && t[Slots(Pow2(d), z)..] == s[Slots(Pow2(d), z)..]
    && (Ordered(s, z, height) ==> Sorted(t[..Slots(Pow2(d), z)], TreeGt))
  }

  lemma FirstRun<V>(s: seq<Block<V>>, z: nat, height: nat)
    requires IsPowerOfTwo(z) && Slots(Pow2(height + 1), z) <= |s|
    ensures LevelsMerged(s, s, z, 0, height)
  {
    hide Slots, LevelOrdered;
    SlotsMonotone(1, Pow2(height + 1), z);
    SlotsNext(0, z);
    assert Pow2(0) == 1 && Slots(1, z) == z;
    if Ordered(s, z, height) {
      assert Bucket(s, z, 0) == s[..z];
      forall i, j | 0 <= i < j < z ensures !TreeGt(s[i], s[j]) { assert !Bucket(s, z, 0)[j].Real(); }
    }
  }

  lemma LevelFits(len: nat, z: nat, d: nat, height: nat)
    requires d <= height && Slots(Pow2(height + 1), z) <= len
    ensures Slots(Pow2(d + 1), z) <= len
  {
    hide Slots;
    if d < height { Pow2Monotone(d + 1, height + 1); }
    SlotsMonotone(Pow2(d + 1), Pow2(height + 1), z);
  }

  lemma LevelMergedNext<V>(s: seq<Block<V>>, t: seq<Block<V>>, r: seq<Block<V>>, z: nat, d: nat, height: nat)
    requires d <= height && Slots(Pow2(d + 1), z) <= |s|
    requires LevelsMerged(s, t, z, d, height) && LevelMerged(t, r, z, d)
    ensures LevelsMerged(s, r, z, d + 1, height)
  {
    hide Slots, Pow2, Sorted, TreeGt, LevelOrdered;
    PowStep(d);
    SlotsMonotone(Pow2(d), Pow2(d + 1), z);
    var lo, hi := Slots(Pow2(d), z), Slots(Pow2(d + 1), z);
    assert r[hi..] == t[hi..] == t[lo..][hi - lo..] == s[lo..][hi - lo..] == s[hi..];
    assert r[..hi] == r[0..hi];
    if Ordered(s, z, height) {
      assert LevelOrdered(s, z, d);
      SameLevel(s, t, z, d);
    }
  }

  /** A level that has not been touched is still in routing order. */
  lemma SameLevel<V>(s: seq<Block<V>>, t: seq<Block<V>>, z: nat, d: nat)
    requires Slots(Pow2(d), z) <= |s| == |t| && t[Slots(Pow2(d), z)..] == s[Slots(Pow2(d), z)..]
    requires LevelOrdered(s, z, d)
    ensures LevelOrdered(t, z, d)
  {
    hide Slots, RoutingBits, Pow2, Bucket;
    forall u: nat, v: nat | LeafAt(u, d) && LeafAt(v, d) && u < v ensures Before(t, z, u, v) {
      assert Before(s, z, u, v);
      SameLaterBucket(s, t, z, Pow2(d), u);
      SameLaterBucket(s, t, z, Pow2(d), v);
    }
  }

  lemma SameLaterBucket<V>(s: seq<Block<V>>, t: seq<Block<V>>, z: nat, first: nat, node: nat)
    requires Slots(first, z) <= |s| == |t| && t[Slots(first, z)..] == s[Slots(first, z)..] && first <= node
    requires HasBucket(s, z, node)
    ensures HasBucket(t, z, node) && Bucket(t, z, node) == Bucket(s, z, node)
  {
    hide Slots;
    SlotsMonotone(first, node, z);
    var lo, i := Slots(first, z), Slots(node, z);
    SubDrop(s, lo, i, z);
    SubDrop(t, lo, i, z);
  }

  lemma SubDrop<T>(s: seq<T>, lo: nat, i: nat, n: nat)
    requires lo <= i && i + n <= |s|
    ensures s[i..i + n] == s[lo..][i - lo..i - lo + n]
  {
    var x, y := s[i..i + n], s[lo..][i - lo..i - lo + n];
    forall k | 0 <= k < n ensures x[k] == y[k] {}
  }

  lemma LevelsDone<V>(s: seq<Block<V>>, t: seq<Block<V>>, z: nat, height: nat)
    requires LevelsMerged(s, t, z, height + 1, height)
    ensures SameOutside(s, t, 0, Slots(Pow2(height + 1), z)) && multiset(t) == multiset(s)
    ensures Ordered(s, z, height) ==> Sorted(t[..Slots(Pow2(height + 1), z)], TreeGt)
  {
    hide Slots, Pow2, Sorted, Ordered;
  }

  /** The blocks of every key agree on their tags' order. */
  ghost predicate AllCoherent<V>(s: seq<Block<V>>) { forall p :: Coherent(s, p) }

  /**
    `oblivious_tree_readout`.  For any input the totals are kept; for a tree whose levels are
    in routing order and whose keys determine their tags' order, the result is a readout.
   */
  method ObliviousTreeReadout<V(!new)>(m: Values<V>, blocks: array<Block<V>>, overflowLen: nat, z: nat, height: nat)
    requires Lawful(m) && IsPowerOfTwo(z) && blocks.Length == Slots(Pow2(height + 1), z) + overflowLen
    modifies blocks
    ensures forall p :: Total(m, blocks[..], p) == Total(m, old(blocks[..]), p)
    ensures Ordered(old(blocks[..]), z, height) && AllCoherent(old(blocks[..])) ==>
              IsReadout(m, old(blocks[..]), blocks[..])
  {
    hide Slots, Pow2, Sorted, IsPowerOfTwo, Ordered, Lawful, Reduced, Done, Reached, AdjacentMerge, AllCoherent, Total,
         SameOutside, TreeGt, MatchCount, RealFirst;
    ghost var s := blocks[..];
    var treeLen := Slots(Pow2(height + 1), z);
    if !IsPowerOfTwo(overflowLen) || overflowLen > treeLen {
      ObliviousReadout(m, blocks);
      forall p ensures Total(m, blocks[..], p) == Total(m, s, p) { assert ReadsKey(m, s, blocks[..], p); }
      return;
    }
    LevelLengths(height + 1, z);
    MergeLevels(blocks, z, height);
    ghost var t := blocks[..];
    assert blocks[treeLen..treeLen + overflowLen] == t[treeLen..treeLen + overflowLen];
    SortBy(blocks, treeLen, overflowLen, TreeGt);
    ghost var u := blocks[..];
    assert blocks[treeLen..treeLen + overflowLen] == u[treeLen..treeLen + overflowLen];
    var ok := MergeSortedBy(blocks, 0, blocks.Length, treeLen, TreeGt);
    assert ok;
    ghost var w := blocks[..];
    OverflowMerged(s, t, u, w, z, height, overflowLen);
    ReduceEqualRuns(m, blocks);
    forall p ensures Total(m, Reduced(m, w), p) == Total(m, s, p) {
      ReducedKeepsTotals(m, w, p);
      TotalPermutes(m, w, s, p);
    }
    if Ordered(s, z, height) && AllCoherent(s) {
      forall p ensures Adjacent(w, p) { CoherentAdjacent(s, w, p); }
      ReducedIsReadout(m, s, w);
    }
  }

  lemma CoherentAdjacent<V>(s: seq<Block<V>>, w: seq<Block<V>>, p: Payload)
    requires AllCoherent(s) && multiset(w) == multiset(s) && Sorted(w, TreeGt)
    ensures Adjacent(w, p)
  {
    hide TagOrder, Sorted, TreeGt;
    assert Coherent(s, p);
    forall i | 0 <= i < |w| ensures exists k :: 0 <= k < |s| && s[k] == w[i] { assert w[i] in multiset(s); }
    TreeSortedAdjacent(w, p);
  }

  lemma OverflowMerged<V(!new)>(s: seq<Block<V>>, t: seq<Block<V>>, u: seq<Block<V>>, w: seq<Block<V>>, z: nat,
                                height: nat, n: nat)
    requires IsPowerOfTwo(z) && |s| == Slots(Pow2(height + 1), z) + n && n <= Slots(Pow2(height + 1), z)
    requires SameOutside(s, t, 0, Slots(Pow2(height + 1), z)) && multiset(t) == multiset(s)
    requires Ordered(s, z, height) ==> Sorted(t[..Slots(Pow2(height + 1), z)], TreeGt)
    requires var k := Slots(Pow2(height + 1), z);
      && SameOutside(t, u, k, n) && Reached(MergeExchange(n), t[k..k + n], u[k..k + n], TreeGt)
      && Done(if k == 0 then Empty else AdjacentMerge(k, k + n), u, w, 0, k + n, TreeGt)
    ensures multiset(w) == multiset(s) && |w| == |s|
    ensures Ordered(s, z, height) ==> Sorted(w, TreeGt)
  {
    hide *;
    var k := Slots(Pow2(height + 1), z);
    LevelLengths(height + 1, z);
    TreeOrder<V>();
    PartLengths(s, t, 0, k);
    PartLengths(t, u, k, n);
    SortBySorts(t[k..k + n], u[k..k + n], TreeGt);
    SameOutsidePermutes(t, u, k, n);
    DonePermutes(if k == 0 then Empty else AdjacentMerge(k, k + n), u, w, 0, k + n, TreeGt);
    PartLengths(u, w, 0, k + n);
    if Ordered(s, z, height) {
      assert u[0..0 + k] == u[..k] == t[..k];
      MergeSortedBySorts(u, w, 0, k + n, k, TreeGt);
      assert w[0..0 + (k + n)] == w;
    }
  }

  lemma PartLengths<T>(s: seq<T>, t: seq<T>, lo: nat, n: nat)
    requires SameOutside(s, t, lo, n)
    ensures |t| == |s| && lo + n <= |s| && t[..lo] == s[..lo]
  {
  }
}
