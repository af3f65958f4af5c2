/**
  Laying a compacted stash out along an eviction path: the marks of the slots to fill,
  bucket by bucket from the leaf to the root and then the overflow, and what ends up where.
 */
module Layout {
  import opened Networks
  import opened Compaction
  import opened Blocks
  import opened Routing
  import opened Greedy
  import opened SortReduce
  import opened Tree

  // ---- Levels of a stash ---------------------------------------------------------------------

  ghost function LevelOf(tag: Tag, leaf: nat, height: nat): (l: nat)
    requires height <= MAX_TREE_HEIGHT && LeafAt(leaf, height)
    ensures l <= height
  {
    SharedLevel(leaf, tag, height, 0);
    DeepestSharedLevel(leaf, tag, height)
  }

  ghost function LevelsOf<V>(r: seq<Block<V>>, leaf: nat, height: nat): (l: seq<nat>)
    requires height <= MAX_TREE_HEIGHT && LeafAt(leaf, height)
    ensures |l| == |r| && LevelsFit(l, height)
    ensures forall i :: 0 <= i < |r| ==> l[i] == LevelOf(r[i].tag, leaf, height)
  {
    seq(|r|, i requires 0 <= i < |r| => LevelOf(r[i].tag, leaf, height))
  }

  /** The real blocks come in order of non-increasing level. */
  ghost predicate SortedForPath<V>(s: seq<Block<V>>, leaf: nat, height: nat)
    requires height <= MAX_TREE_HEIGHT && LeafAt(leaf, height)
  {
    NonIncreasing(LevelsOf(Live(s), leaf, height))
  }

  // ---- The layout marks ----------------------------------------------------------------------

  function Min(a: nat, b: nat): nat { if a < b then a else b }

  /** The mark `j` slots into the `k`-th bucket of the layout, which is the bucket of level `|c| - 1 - k`. */
  ghost predicate BucketMark(marks: seq<nat>, c: seq<nat>, z: nat, k: nat, j: nat)
    requires k < |c|
  {
    Slots(k, z) + j < |marks| && marks[Slots(k, z) + j] == FromLevel(c, |c| - k) + Min(j, c[|c| - 1 - k])
  }

  ghost predicate OverflowMark(marks: seq<nat>, c: seq<nat>, overflow: nat, z: nat, j: nat) {
    Slots(|c|, z) + j < |marks| && marks[Slots(|c|, z) + j] == FromLevel(c, 0) + Min(j, overflow)
  }

  ghost predicate LayoutMarks(marks: seq<nat>, c: seq<nat>, overflow: nat, z: nat, cap: nat) {
    && Prefix(marks) && marks[0] == 0 && |marks| == Slots(|c|, z) + cap + 1
    && (forall k: nat, j: nat {:trigger BucketMark(marks, c, z, k, j)} ::
          k < |c| && j <= z ==> BucketMark(marks, c, z, k, j))
    && (forall j: nat {:trigger OverflowMark(marks, c, overflow, z, j)} ::
          j <= cap ==> OverflowMark(marks, c, overflow, z, j))
  }

  lemma PrefixAppend(marks: seq<nat>, x: nat)
    requires Prefix(marks) && marks[|marks| - 1] <= x <= marks[|marks| - 1] + 1
    ensures Prefix(marks + [x])
  {
  }

  /** One bucket of marks appended. */
  method AppendBucket(marks0: seq<nat>, z: nat, count: nat) returns (marks: seq<nat>)
    requires Prefix(marks0)
    ensures Prefix(marks) && |marks| == |marks0| + z && marks[..|marks0|] == marks0
    ensures forall j :: 0 <= j <= z ==> marks[|marks0| - 1 + j] == marks0[|marks0| - 1] + Min(j, count)
  {
    marks := marks0;
    var prefixSum := marks0[|marks0| - 1];
    for slot := 0 to z
      invariant Prefix(marks) && |marks| == |marks0| + slot && marks[..|marks0|] == marks0
      invariant prefixSum == marks0[|marks0| - 1] + Min(slot, count)
      invariant forall j :: 0 <= j <= slot ==> marks[|marks0| - 1 + j] == marks0[|marks0| - 1] + Min(j, count)
    {
      prefixSum := prefixSum + if slot < count then 1 else 0;
      PrefixAppend(marks, prefixSum);
      marks := marks + [prefixSum];
    }
  }

  /** `build_leaf_to_root_layout_marks`. */
  method BuildLayoutMarks(z: nat, levelCounts: seq<nat>, overflowCount: nat, overflowCapacity: nat)
      returns (marks: seq<nat>)
    requires forall k :: 0 <= k < |levelCounts| ==> levelCounts[k] <= z
    requires overflowCount <= overflowCapacity
    ensures LayoutMarks(marks, levelCounts, overflowCount, z, overflowCapacity)
  {
    hide Slots;
    var c := levelCounts;
    SlotsNext(0, z);
    marks := [0];
    assert FromLevel(c, |c|) == 0;
    for k := 0 to |c|
      invariant Prefix(marks) && marks[0] == 0 && |marks| == Slots(k, z) + 1
      invariant marks[Slots(k, z)] == FromLevel(c, |c| - k)
      invariant forall l: nat, j: nat {:trigger BucketMark(marks, c, z, l, j)} :: l < k && j <= z ==>
                BucketMark(marks, c, z, l, j)
    {
      ghost var marks0 := marks;
      SlotsNext(k, z);
      marks := AppendBucket(marks, z, c[|c| - 1 - k]);
      forall l: nat, j: nat | l < k + 1 && j <= z ensures BucketMark(marks, c, z, l, j) {
        if l < k {
          SlotsMonotone(l, k, z);
          assert BucketMark(marks0, c, z, l, j);
          assert marks[Slots(l, z) + j] == marks[..|marks0|][Slots(l, z) + j];
        }
      }
      var level := |c| - 1 - k;
      assert FromLevel(c, level) == c[level] + FromLevel(c, level + 1);
      assert marks[|marks0| - 1 + z] == marks0[|marks0| - 1] + Min(z, c[level]) == FromLevel(c, level + 1) + c[level];
      assert |marks0| - 1 + z == Slots(k + 1, z);
    }
    ghost var marks1 := marks;
    marks := AppendBucket(marks, overflowCapacity, overflowCount);
    forall k: nat, j: nat | k < |c| && j <= z ensures BucketMark(marks, c, z, k, j) {
      SlotsMonotone(k, |c|, z);
      assert BucketMark(marks1, c, z, k, j);
      assert marks[Slots(k, z) + j] == marks[..|marks1|][Slots(k, z) + j];
    }
  }

  // ---- What ends up where --------------------------------------------------------------------

  ghost predicate BucketSlot<V>(r: seq<Block<V>>, laid: seq<Block<V>>, levels: seq<nat>, z: nat, h: nat, d: nat, j: nat)
    requires LevelsFit(levels, h) && |r| == |levels| && d <= h && j < z
  {
    var x, c := Slots(h - d, z) + j, Counts(levels, z, h);
    && x < |laid|
    && (laid[x].Real() <==> j < c[d])
    && (j < c[d] ==> var q := FromLevel(c, d + 1) + j;
                     q < |r| && laid[x] == r[q] && (NonIncreasing(levels) ==> Assigned(levels, z, h, q) == d))
  }

  /**
    The real blocks `r` of a stash laid out: bucket `d` holds, in its first slots, exactly
    the blocks assigned to level `d`; the overflow holds the blocks left over.
   */
  ghost predicate LaidOut<V>(r: seq<Block<V>>, laid: seq<Block<V>>, levels: seq<nat>, z: nat, h: nat)
    requires LevelsFit(levels, h) && |r| == |levels|
  {
    && Slots(h + 1, z) <= |laid|
    && (forall d: nat, j: nat {:trigger BucketSlot(r, laid, levels, z, h, d, j)} ::
          d <= h && j < z ==> BucketSlot(r, laid, levels, z, h, d, j))
    && (forall x :: Slots(h + 1, z) <= x < |laid| ==>
          (laid[x].Real() <==> x < Slots(h + 1, z) + Overflow(levels, z, h)))
  }

  /** When every marked slot is real and there are no more real blocks than marks, the rest are dummies. */
  lemma {:induction false} MarkedRealCount<V>(t: seq<Block<V>>, p: seq<nat>, n: nat, x: nat)
    requires Prefix(p) && n <= |t| && |t| < |p| && (forall i :: 0 <= i < |t| && Marked(p, i) ==> t[i].Real())
    ensures p[0] + |Live(t[..n])| >= p[n]
    ensures x < n && !Marked(p, x) && t[x].Real() ==> p[0] + |Live(t[..n])| > p[n]
  {
    hide Live;
    if n > 0 {
      MarkedRealCount(t, p, n - 1, x);
      LiveNext(t, n - 1);
      PrefixStep(p, n - 1);
    }
  }

  lemma PrefixStep(p: seq<nat>, i: nat)
    requires Prefix(p) && i + 1 < |p|
    ensures p[i] <= p[i + 1] <= p[i] + 1
  {
  }

  /** The slots of a laid-out stash: a marked slot holds the real block of its rank, the others are dummies. */
  lemma LaidSlots<V>(s: seq<Block<V>>, marks: seq<nat>, x: nat)
    requires Prefix(marks) && marks[0] == 0 && |marks| == |s| + 1 && marks[|s|] == |Live(s)| && x < |s|
    ensures Covers(MarksOf(s), 0, |s|) && Covers(marks, 0, |s|)
    ensures Fits(CompactNet(MarksOf(s), 0, 0, |s|), |s|) && Fits(DistributeNet(marks, 0, 0, |s|), |s|)
    ensures var laid := Run(DistributeNet(marks, 0, 0, |s|), Run(CompactNet(MarksOf(s), 0, 0, |s|), s, Always), Always);
      && multiset(laid) == multiset(s)
      && (Marked(marks, x) ==> marks[x] < |Live(s)| && laid[x] == Live(s)[marks[x]] && laid[x].Real())
      && (!Marked(marks, x) ==> !laid[x].Real())
  {
    hide Run, Fits, CompactNet, DistributeNet, Live, CompactedSlice, MarksOf;
    var n := |s|;
    NetsFit(s, marks);
    assert s[0..0 + n] == s;
    CompactsSlice(s, 0, n);
    var c := Run(CompactNet(MarksOf(s), 0, 0, n), s, Always);
    CompactedWhole(s, c);
    var laid := Run(DistributeNet(marks, 0, 0, n), c, Always);
    forall i | 0 <= i < n && Marked(marks, i)
      ensures marks[i] < |Live(s)| && laid[i] == Live(s)[marks[i]] && laid[i].Real()
    {
      PrefixGrows(marks, i + 1, n);
      DistributePlaces(c, marks, 0, 0, n, i);
      assert laid[i] == c[marks[i]];
    }
    MarkedRealCount(laid, marks, n, x);
    LivePermutes(laid, s);
    assert laid[..n] == laid;
  }

  lemma CompactedWhole<V>(s: seq<Block<V>>, c: seq<Block<V>>)
    requires CompactedSlice(s, c, 0, |s|)
    ensures |c| == |s| && |Live(s)| <= |s| && c[..|Live(s)|] == Live(s)
    ensures forall i :: 0 <= i < |Live(s)| ==> c[i] == Live(s)[i] && Live(s)[i] in Live(s)
  {
    assert s[0..0 + |s|] == s;
  }

  lemma {:induction false} FromLevelOrder(c: seq<nat>, d: nat, e: nat)
    requires d <= e <= |c|
    ensures FromLevel(c, e) <= FromLevel(c, d)
    decreases e - d
  {
    if d < e { FromLevelOrder(c, d + 1, e); }
  }

  /** Only one level's stretch of the layout contains `q`. */
  lemma StretchIsLevel(levels: seq<nat>, z: nat, h: nat, q: nat, d: nat)
    requires LevelsFit(levels, h) && NonIncreasing(levels) && q < |levels| && d <= h
    requires FromLevel(Counts(levels, z, h), d + 1) <= q < FromLevel(Counts(levels, z, h), d)
    ensures Assigned(levels, z, h, q) == d
  {
    hide FromLevel, Counts, Assigned, NonIncreasing;
    var c, a := Counts(levels, z, h), Assigned(levels, z, h, q);
    LayoutAgrees(levels, z, h, q);
    if a < 0 {
      FromLevelOrder(c, 0, d);
    } else if a < d {
      FromLevelOrder(c, a + 1, d);
    } else if a > d {
      FromLevelOrder(c, d + 1, a);
    }
  }

  lemma BucketSlotHolds<V>(s: seq<Block<V>>, laid: seq<Block<V>>, levels: seq<nat>, marks: seq<nat>, z: nat, h: nat,
                           cap: nat, d: nat, j: nat)
    requires LevelsFit(levels, h) && |Live(s)| == |levels| && |laid| == |s| && d <= h && j < z
    requires LayoutMarks(marks, Counts(levels, z, h), Overflow(levels, z, h), z, cap) && |marks| == |s| + 1
    requires forall x: nat :: x < |s| ==> SlotLaid(Live(s), laid, marks, x)
    ensures BucketSlot(Live(s), laid, levels, z, h, d, j)
  {
    hide Slots, Live, Counts, Overflow, Assigned;
    var c, k := Counts(levels, z, h), h - d;
    assert BucketMark(marks, c, z, k, j) && BucketMark(marks, c, z, k, j + 1);
    SlotsMonotone(k, h + 1, z);
    var x := Slots(k, z) + j;
    assert SlotLaid(Live(s), laid, marks, x);
    assert FromLevel(c, d) == c[d] + FromLevel(c, d + 1);
    if j < c[d] && NonIncreasing(levels) {
      StretchIsLevel(levels, z, h, FromLevel(c, d + 1) + j, d);
    }
  }

  /** Slot `x` of a laid-out stash, by its mark. */
  ghost predicate SlotLaid<V>(r: seq<Block<V>>, laid: seq<Block<V>>, marks: seq<nat>, x: nat) {
    && x + 1 < |marks| && x < |laid|
    && (Marked(marks, x) ==> marks[x] < |r| && laid[x] == r[marks[x]] && laid[x].Real())
    && (!Marked(marks, x) ==> !laid[x].Real())
  }

  lemma SlotsLaid<V>(s: seq<Block<V>>, laid: seq<Block<V>>, marks: seq<nat>)
    requires Prefix(marks) && marks[0] == 0 && |marks| == |s| + 1 && marks[|s|] == |Live(s)|
    requires Covers(MarksOf(s), 0, |s|) && Covers(marks, 0, |s|)
    requires Fits(CompactNet(MarksOf(s), 0, 0, |s|), |s|) && Fits(DistributeNet(marks, 0, 0, |s|), |s|)
    requires laid == Run(DistributeNet(marks, 0, 0, |s|), Run(CompactNet(MarksOf(s), 0, 0, |s|), s, Always), Always)
    ensures forall x: nat :: x < |s| ==> SlotLaid(Live(s), laid, marks, x)
  {
    hide Run, Fits, CompactNet, DistributeNet, Live, MarksOf, Prefix;
    forall x: nat | x < |s| ensures SlotLaid(Live(s), laid, marks, x) { LaidSlots(s, marks, x); }
  }

  /** The overflow stretch of the layout. */
  lemma OverflowLaid<V>(r: seq<Block<V>>, laid: seq<Block<V>>, marks: seq<nat>, c: seq<nat>, overflow: nat, z: nat,
                        cap: nat, x: nat)
    requires LayoutMarks(marks, c, overflow, z, cap) && Slots(|c|, z) <= x < Slots(|c|, z) + cap
    requires SlotLaid(r, laid, marks, x)
    ensures laid[x].Real() <==> x < Slots(|c|, z) + overflow
  {
    hide Slots, FromLevel;
    var j := x - Slots(|c|, z);
    assert OverflowMark(marks, c, overflow, z, j) && OverflowMark(marks, c, overflow, z, j + 1);
  }

  /** The marks of a layout count every real block. */
  lemma LayoutMarksAll<V>(s: seq<Block<V>>, levels: seq<nat>, marks: seq<nat>, z: nat, h: nat, cap: nat)
    requires LevelsFit(levels, h) && |Live(s)| == |levels| && |s| == Slots(h + 1, z) + cap
    requires Overflow(levels, z, h) <= cap
    requires LayoutMarks(marks, Counts(levels, z, h), Overflow(levels, z, h), z, cap)
    ensures Prefix(marks) && marks[0] == 0 && |marks| == |s| + 1 && marks[|s|] == |Live(s)|
  {
    hide Slots, Live, Counts, Overflow, FromLevel;
    CountsAddUp(levels, z, h);
    assert OverflowMark(marks, Counts(levels, z, h), Overflow(levels, z, h), z, cap);
  }

  /** The layout as a whole. */
  lemma LayoutHolds<V>(s: seq<Block<V>>, levels: seq<nat>, marks: seq<nat>, z: nat, h: nat, cap: nat)
    requires LevelsFit(levels, h) && |Live(s)| == |levels| && |s| == Slots(h + 1, z) + cap
    requires Overflow(levels, z, h) <= cap
    requires LayoutMarks(marks, Counts(levels, z, h), Overflow(levels, z, h), z, cap)
    ensures Covers(MarksOf(s), 0, |s|) && Covers(marks, 0, |s|)
    ensures Fits(CompactNet(MarksOf(s), 0, 0, |s|), |s|) && Fits(DistributeNet(marks, 0, 0, |s|), |s|)
    ensures var laid := Run(DistributeNet(marks, 0, 0, |s|), Run(CompactNet(MarksOf(s), 0, 0, |s|), s, Always), Always);
      multiset(laid) == multiset(s) && LaidOut(Live(s), laid, levels, z, h)
  {
    hide *;
    LayoutMarksAll(s, levels, marks, z, h, cap);
    NetsFit(s, marks);
    var laid := Run(DistributeNet(marks, 0, 0, |s|), Run(CompactNet(MarksOf(s), 0, 0, |s|), s, Always), Always);
    SlotsLaid(s, laid, marks);
    LaidOutFromSlots(s, laid, levels, marks, z, h, cap);
  }

  lemma LaidOutFromSlots<V>(s: seq<Block<V>>, laid: seq<Block<V>>, levels: seq<nat>, marks: seq<nat>, z: nat, h: nat,
                            cap: nat)
    requires LevelsFit(levels, h) && |Live(s)| == |levels| && |laid| == |s| == Slots(h + 1, z) + cap
    requires |marks| == |s| + 1
    requires LayoutMarks(marks, Counts(levels, z, h), Overflow(levels, z, h), z, cap)
    requires forall x: nat :: x < |s| ==> SlotLaid(Live(s), laid, marks, x)
    ensures LaidOut(Live(s), laid, levels, z, h)
  {
    hide Slots, Live, Counts, Overflow, BucketSlot, LayoutMarks, SlotLaid;
    forall d: nat, j: nat | d <= h && j < z ensures BucketSlot(Live(s), laid, levels, z, h, d, j) {
      BucketSlotHolds(s, laid, levels, marks, z, h, cap, d, j);
    }
    forall x: nat | Slots(h + 1, z) <= x < |laid|
      ensures laid[x].Real() <==> x < Slots(h + 1, z) + Overflow(levels, z, h)
    {
      OverflowLaid(Live(s), laid, marks, Counts(levels, z, h), Overflow(levels, z, h), z, cap, x);
    }
  }

  lemma NetsFit<V>(s: seq<Block<V>>, marks: seq<nat>)
    requires Prefix(marks) && |marks| == |s| + 1
    ensures Covers(MarksOf(s), 0, |s|) && Covers(marks, 0, |s|)
    ensures Fits(CompactNet(MarksOf(s), 0, 0, |s|), |s|) && Fits(DistributeNet(marks, 0, 0, |s|), |s|)
    ensures multiset(Run(DistributeNet(marks, 0, 0, |s|), Run(CompactNet(MarksOf(s), 0, 0, |s|), s, Always), Always))
              == multiset(s)
  {
    hide Run, Fits, CompactNet, DistributeNet, MarksOf, Prefix;
    MarksOfPrefix(s);
    NetsInside(MarksOf(s), 0, 0, |s|);
    InsideFits(CompactNet(MarksOf(s), 0, 0, |s|), 0, |s|, |s|);
    NetsInside(marks, 0, 0, |s|);
    InsideFits(DistributeNet(marks, 0, 0, |s|), 0, |s|, |s|);
    RunPermutes(CompactNet(MarksOf(s), 0, 0, |s|), s, Always);
    RunPermutes(DistributeNet(marks, 0, 0, |s|), Run(CompactNet(MarksOf(s), 0, 0, |s|), s, Always), Always);
  }
}
