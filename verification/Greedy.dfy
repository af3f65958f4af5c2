/**
  How blocks are assigned to the buckets of an eviction path: each takes the deepest
  bucket it may live in that still has room.  The assignment leaves as few blocks over
  as any legal one could, and on sorted blocks it fills the path from the leaf up.
 */
module Greedy {

  /** The deepest level at most `level` with room, or -1. */
  function Deepest(counts: seq<nat>, z: nat, level: int): (d: int)
    requires level < |counts|
    ensures -1 <= d <= level || d == -1
    ensures d >= 0 ==> counts[d] < z
    ensures forall k :: d < k <= level && k >= 0 ==> counts[k] >= z
    decreases level + 1
  {
    if level < 0 then -1 else if counts[level] < z then level else Deepest(counts, z, level - 1)
  }

  /** Levels a path with buckets `0 .. h` admits. */
  ghost predicate LevelsFit(levels: seq<nat>, h: nat) {
    forall i :: 0 <= i < |levels| ==> levels[i] <= h
  }

  /** The bucket counts after all blocks have been scanned. */
  ghost function Counts(levels: seq<nat>, z: nat, h: nat): (c: seq<nat>)
    requires LevelsFit(levels, h)
    ensures |c| == h + 1 && forall k :: 0 <= k <= h ==> c[k] <= z
  {
    if levels == [] then seq(h + 1, _ => 0)
    else
      var n := |levels| - 1;
      var c := Counts(levels[..n], z, h);
      var d := Deepest(c, z, levels[n]);
      if d < 0 then c else c[d := c[d] + 1]
  }

  /** Where block `i` goes: a level, or -1 for the overflow. */
  ghost function Assigned(levels: seq<nat>, z: nat, h: nat, i: nat): (d: int)
    requires LevelsFit(levels, h) && i < |levels|
    ensures -1 <= d <= levels[i]
  {
    Deepest(Counts(levels[..i], z, h), z, levels[i])
  }

  /** How many blocks are left over. */
  ghost function Overflow(levels: seq<nat>, z: nat, h: nat): (n: nat)
    requires LevelsFit(levels, h)
    ensures n <= |levels|
  {
    if levels == [] then 0
    else
      var n := |levels| - 1;
      Overflow(levels[..n], z, h) + if Assigned(levels, z, h, n) < 0 then 1 else 0
  }

  /** The blocks in buckets `lo` and deeper. */
  ghost function FromLevel(c: seq<nat>, lo: nat): (n: nat)
    requires lo <= |c|
    decreases |c| - lo
  {
    if lo == |c| then 0 else c[lo] + FromLevel(c, lo + 1)
  }

  lemma {:induction false} FromLevelUpdate(c: seq<nat>, lo: nat, d: nat)
    requires lo <= |c| && d < |c|
    ensures FromLevel(c[d := c[d] + 1], lo) == FromLevel(c, lo) + if lo <= d then 1 else 0
    decreases |c| - lo
  {
    if lo < |c| { FromLevelUpdate(c, lo + 1, d); }
  }

  lemma {:induction false} FromLevelZero(c: seq<nat>, lo: nat)
    requires lo <= |c| && forall k :: lo <= k < |c| ==> c[k] == 0
    ensures FromLevel(c, lo) == 0
    decreases |c| - lo
  {
    if lo < |c| { FromLevelZero(c, lo + 1); }
  }

  lemma {:induction false} FromLevelSplit(c: seq<nat>, lo: nat, hi: nat)
    requires lo <= hi <= |c|
    ensures FromLevel(c, lo) >= FromLevel(c, hi)
    ensures (forall k :: lo <= k < hi ==> c[k] == 0) ==> FromLevel(c, lo) == FromLevel(c, hi)
    decreases hi - lo
  {
    if lo < hi { FromLevelSplit(c, lo + 1, hi); }
  }

  lemma CountsNone(z: nat, h: nat)
    ensures forall k :: 0 <= k <= h ==> Counts([], z, h)[k] == 0
  {
  }

  /** Every block is either in a bucket or left over. */
  lemma {:induction false} CountsAddUp(levels: seq<nat>, z: nat, h: nat)
    requires LevelsFit(levels, h)
    ensures FromLevel(Counts(levels, z, h), 0) + Overflow(levels, z, h) == |levels|
  {
    hide Deepest, Assigned, Counts, FromLevel;
    CountsNone(z, h);
    if levels == [] {
      FromLevelZero(Counts(levels, z, h), 0);
    } else {
      var n := |levels| - 1;
      CountsNext(levels, z, h);
      CountsAddUp(levels[..n], z, h);
      var d := Assigned(levels, z, h, n);
      if d >= 0 { FromLevelUpdate(Counts(levels[..n], z, h), 0, d); }
    }
  }

  // ---- No legal assignment leaves fewer blocks over ------------------------------------------

  /** An assignment of blocks to levels (or -1) that respects their levels and the bucket size. */
  ghost predicate Legal(f: seq<int>, levels: seq<nat>, z: nat, h: nat) {
    && |f| == |levels|
    && (forall i :: 0 <= i < |f| ==> -1 <= f[i] <= levels[i])
    && (forall k :: 0 <= k <= h ==> Placed(f, k) <= z)
  }

  /** How many blocks an assignment puts at level `k`. */
  ghost function Placed(f: seq<int>, k: int): (n: nat)
    ensures n <= |f|
  {
    if f == [] then 0 else Placed(f[..|f| - 1], k) + if f[|f| - 1] == k then 1 else 0
  }

  ghost function GreedyAssignment(levels: seq<nat>, z: nat, h: nat): (f: seq<int>)
    requires LevelsFit(levels, h)
    ensures |f| == |levels|
  {
    seq(|levels|, i requires 0 <= i < |levels| => Assigned(levels, z, h, i))
  }

  lemma AssignedOfPrefix(levels: seq<nat>, z: nat, h: nat, n: nat, i: nat)
    requires LevelsFit(levels, h) && i < n <= |levels|
    ensures Assigned(levels[..n], z, h, i) == Assigned(levels, z, h, i)
  {
    assert levels[..n][..i] == levels[..i];
  }

  lemma AssignmentOfPrefix(levels: seq<nat>, z: nat, h: nat, n: nat)
    requires LevelsFit(levels, h) && n + 1 == |levels|
    ensures GreedyAssignment(levels, z, h) == GreedyAssignment(levels[..n], z, h) + [Assigned(levels, z, h, n)]
    ensures Assigned(levels, z, h, n) == Deepest(Counts(levels[..n], z, h), z, levels[n])
  {
    hide Counts, Deepest;
    forall i | 0 <= i < n ensures Assigned(levels[..n], z, h, i) == Assigned(levels, z, h, i) {
      AssignedOfPrefix(levels, z, h, n, i);
    }
  }

  lemma PlacedAppend(f: seq<int>, x: int, k: int)
    ensures Placed(f + [x], k) == Placed(f, k) + if x == k then 1 else 0
  {
    assert (f + [x])[..|f + [x]| - 1] == f;
  }

  lemma {:induction false} GreedyCounts(levels: seq<nat>, z: nat, h: nat, k: nat)
    requires LevelsFit(levels, h) && k <= h
    ensures Placed(GreedyAssignment(levels, z, h), k) == Counts(levels, z, h)[k]
    ensures Placed(GreedyAssignment(levels, z, h), -1) == Overflow(levels, z, h)
  {
    hide Assigned, Deepest;
    if levels != [] {
      var n := |levels| - 1;
      GreedyCounts(levels[..n], z, h, k);
      AssignmentOfPrefix(levels, z, h, n);
      hide GreedyAssignment, Placed;
      PlacedAppend(GreedyAssignment(levels[..n], z, h), Assigned(levels, z, h, n), k);
      PlacedAppend(GreedyAssignment(levels[..n], z, h), Assigned(levels, z, h, n), -1);
    }
  }

  /** The greedy assignment is legal. */
  lemma GreedyIsLegal(levels: seq<nat>, z: nat, h: nat)
    requires LevelsFit(levels, h)
    ensures Legal(GreedyAssignment(levels, z, h), levels, z, h)
  {
    forall k | 0 <= k <= h ensures Placed(GreedyAssignment(levels, z, h), k) <= z { GreedyCounts(levels, z, h, k); }
  }

  /** How many blocks have level at most `k`. */
  ghost function AtMost(levels: seq<nat>, k: int): (n: nat)
    ensures n <= |levels|
  {
    if levels == [] then 0 else AtMost(levels[..|levels| - 1], k) + if levels[|levels| - 1] <= k then 1 else 0
  }

  /** How many blocks an assignment puts in buckets `0 .. k`. */
  ghost function PlacedUpTo(f: seq<int>, k: int): (n: nat)
    decreases k + 1
  {
    if k < 0 then 0 else Placed(f, k) + PlacedUpTo(f, k - 1)
  }

  lemma {:induction false} PlacedUpToNext(f: seq<int>, x: int, k: int)
    ensures PlacedUpTo(f + [x], k) == PlacedUpTo(f, k) + if 0 <= x <= k then 1 else 0
    decreases k + 1
  {
    if k >= 0 {
      assert (f + [x])[..|f + [x]| - 1] == f;
      PlacedUpToNext(f, x, k - 1);
    }
  }

  /** Blocks of level at most `k` fit only in buckets `0 .. k`. */
  lemma {:induction false} LowBlocks(f: seq<int>, levels: seq<nat>, k: nat)
    requires |f| == |levels| && forall i :: 0 <= i < |f| ==> -1 <= f[i] <= levels[i]
    ensures AtMost(levels, k) <= PlacedUpTo(f, k) + Placed(f, -1)
  {
    if f == [] {
      NothingPlaced(k);
    } else {
      var n := |f| - 1;
      LowBlocks(f[..n], levels[..n], k);
      assert f == f[..n] + [f[n]];
      PlacedUpToNext(f[..n], f[n], k);
    }
  }

  lemma {:induction false} NothingPlaced(k: int)
    ensures PlacedUpTo([], k) == 0
    decreases k + 1
  {
    if k >= 0 { NothingPlaced(k - 1); }
  }

  /** The capacity of buckets `0 .. k`. */
  ghost function Capacity(z: nat, k: int): nat
    decreases k + 1
  {
    if k < 0 then 0 else z + Capacity(z, k - 1)
  }

  lemma {:induction false} WithinCapacity(f: seq<int>, levels: seq<nat>, z: nat, h: nat, k: nat)
    requires Legal(f, levels, z, h) && k <= h
    ensures PlacedUpTo(f, k) <= Capacity(z, k)
  {
    if k > 0 { WithinCapacity(f, levels, z, h, k - 1); } else { assert PlacedUpTo(f, -1) == 0; }
  }

  /** When buckets `0 .. k` are full, bucket `k + 1` (if any) is not, and something was left over. */
  ghost predicate Bottleneck(levels: seq<nat>, z: nat, h: nat, k: nat)
    requires LevelsFit(levels, h)
  {
    && k <= h
    && (forall l :: 0 <= l <= k ==> Counts(levels, z, h)[l] == z)
    && (k < h ==> Counts(levels, z, h)[k + 1] < z)
  }

  /** The first level whose successor has room. */
  lemma FindBottleneck(levels: seq<nat>, z: nat, h: nat) returns (k: nat)
    requires LevelsFit(levels, h) && Counts(levels, z, h)[0] == z
    ensures Bottleneck(levels, z, h, k)
  {
    k := 0;
    var c := Counts(levels, z, h);
    while k < h && c[k + 1] == z
      invariant k <= h && forall l :: 0 <= l <= k ==> c[l] == z
    {
      k := k + 1;
    }
  }

  lemma {:induction false} CountsGrow(levels: seq<nat>, z: nat, h: nat, n: nat, k: nat)
    requires LevelsFit(levels, h) && n <= |levels| && k <= h
    ensures Counts(levels[..n], z, h)[k] <= Counts(levels, z, h)[k]
    decreases |levels|
  {
    if n < |levels| {
      var m := |levels| - 1;
      assert levels[..m][..n] == levels[..n];
      CountsGrow(levels[..m], z, h, n, k);
    } else {
      assert levels[..n] == levels;
    }
  }

  /** Below a bottleneck the greedy assignment holds exactly the blocks that fit nowhere else. */
  lemma {:induction false} BottleneckHolds(levels: seq<nat>, z: nat, h: nat, k: nat, n: nat)
    requires LevelsFit(levels, h) && Bottleneck(levels, z, h, k) && n <= |levels|
    ensures var f := GreedyAssignment(levels, z, h)[..n];
      AtMost(levels[..n], k) == PlacedUpTo(f, k) + Placed(f, -1)
    decreases n
  {
    hide Counts, Placed, PlacedUpTo, AtMost, Deepest, Overflow;
    var f := GreedyAssignment(levels, z, h);
    if n == 0 {
      NothingPlaced(k);
      NothingCounted(k);
    } else {
      var m := n - 1;
      BottleneckHolds(levels, z, h, k, m);
      assert f[..n] == f[..m] + [f[m]] && levels[..n] == levels[..m] + [levels[m]];
      PlacedUpToNext(f[..m], f[m], k);
      CountedNext(f[..m], f[m], levels[..m], levels[m], k);
      // If the block may go below bucket `k`, bucket `k + 1` had room for it.
      if levels[m] > k { CountsGrow(levels, z, h, m, k + 1); }
    }
  }

  lemma NothingCounted(k: int)
    ensures AtMost([], k) == 0 && Placed([], -1) == 0
  {
  }

  lemma CountedNext(f: seq<int>, x: int, levels: seq<nat>, l: nat, k: int)
    ensures AtMost(levels + [l], k) == AtMost(levels, k) + if l <= k then 1 else 0
    ensures Placed(f + [x], -1) == Placed(f, -1) + if x == -1 then 1 else 0
  {
    assert (f + [x])[..|f + [x]| - 1] == f && (levels + [l])[..|levels + [l]| - 1] == levels;
  }

  /**
    The greedy assignment, in whatever order the blocks are scanned, leaves no more
    blocks over than any legal assignment of the same blocks.
   */
  lemma GreedyIsOptimal(levels: seq<nat>, z: nat, h: nat, f: seq<int>)
    requires LevelsFit(levels, h) && Legal(f, levels, z, h)
    ensures Overflow(levels, z, h) <= Placed(f, -1)
  {
    var g := GreedyAssignment(levels, z, h);
    GreedyCounts(levels, z, h, 0);
    if Overflow(levels, z, h) > 0 {
      OverflowMeansFull(levels, z, h);
      var k := FindBottleneck(levels, z, h);
      BottleneckHolds(levels, z, h, k, |levels|);
      assert g[..|levels|] == g && levels[..|levels|] == levels;
      FullUpTo(levels, z, h, k);
      LowBlocks(f, levels, k);
      WithinCapacity(f, levels, z, h, k);
    }
  }

  lemma {:induction false} OverflowMeansFull(levels: seq<nat>, z: nat, h: nat)
    requires LevelsFit(levels, h) && Overflow(levels, z, h) > 0
    ensures Counts(levels, z, h)[0] == z
  {
    var n := |levels| - 1;
    if Assigned(levels, z, h, n) >= 0 {
      OverflowMeansFull(levels[..n], z, h);
      CountsGrow(levels, z, h, n, 0);
    }
  }

  lemma {:induction false} FullUpTo(levels: seq<nat>, z: nat, h: nat, k: nat)
    requires LevelsFit(levels, h) && k <= h && forall l :: 0 <= l <= k ==> Counts(levels, z, h)[l] == z
    ensures PlacedUpTo(GreedyAssignment(levels, z, h), k) == Capacity(z, k)
  {
    var f := GreedyAssignment(levels, z, h);
    GreedyCounts(levels, z, h, k);
    if k > 0 {
      FullUpTo(levels, z, h, k - 1);
    } else {
      assert PlacedUpTo(f, -1) == 0 && Capacity(z, -1) == 0;
    }
  }

  // ---- Sorted blocks fill the path from the leaf up -----------------------------------------------

  ghost predicate NonIncreasing(levels: seq<nat>) {
    forall i, j :: 0 <= i <= j < |levels| ==> levels[i] >= levels[j]
  }

  /** On sorted blocks the greedy levels never go back down, and overflow is final. */
  lemma AssignedNonIncreasing(levels: seq<nat>, z: nat, h: nat, i: nat)
    requires LevelsFit(levels, h) && NonIncreasing(levels) && i + 1 < |levels|
    ensures Assigned(levels, z, h, i) >= Assigned(levels, z, h, i + 1)
  {
    assert levels[..i + 1][..i] == levels[..i];
    DeepestMonotone(Counts(levels[..i], z, h), Counts(levels[..i + 1], z, h), z, levels[i], levels[i + 1]);
  }

  /** Fuller buckets and a smaller level cannot lead deeper. */
  lemma DeepestMonotone(c: seq<nat>, c': seq<nat>, z: nat, level: nat, level': nat)
    requires |c| == |c'| && level' <= level < |c| && forall k :: 0 <= k < |c| ==> c[k] <= c'[k]
    ensures Deepest(c', z, level') <= Deepest(c, z, level)
  {
    var d := Deepest(c', z, level');
    if d >= 0 { assert c[d] < z; }
  }

  lemma {:induction false} AssignedSorted(levels: seq<nat>, z: nat, h: nat, i: nat, j: nat)
    requires LevelsFit(levels, h) && NonIncreasing(levels) && i <= j < |levels|
    ensures Assigned(levels, z, h, i) >= Assigned(levels, z, h, j)
    decreases j
  {
    if i < j {
      AssignedSorted(levels, z, h, i, j - 1);
      AssignedNonIncreasing(levels, z, h, j - 1);
    }
  }

  /** Buckets no scanned block was assigned to are empty. */
  lemma {:induction false} UnusedLevels(levels: seq<nat>, z: nat, h: nat, k: nat)
    requires LevelsFit(levels, h) && k <= h
    requires forall i :: 0 <= i < |levels| ==> Assigned(levels, z, h, i) != k
    ensures Counts(levels, z, h)[k] == 0
  {
    if levels != [] {
      var n := |levels| - 1;
      forall i | 0 <= i < n ensures Assigned(levels[..n], z, h, i) != k {
        AssignedOfPrefix(levels, z, h, n, i);
        assert Assigned(levels, z, h, i) != k;
      }
      UnusedLevels(levels[..n], z, h, k);
      assert Assigned(levels, z, h, n) != k;
    }
  }

  lemma {:induction false} NoOverflowYet(levels: seq<nat>, z: nat, h: nat)
    requires LevelsFit(levels, h)
    requires forall i :: 0 <= i < |levels| ==> Assigned(levels, z, h, i) >= 0
    ensures Overflow(levels, z, h) == 0
  {
    if levels != [] {
      var n := |levels| - 1;
      forall i | 0 <= i < n ensures Assigned(levels[..n], z, h, i) >= 0 {
        AssignedOfPrefix(levels, z, h, n, i);
        assert Assigned(levels, z, h, i) >= 0;
      }
      NoOverflowYet(levels[..n], z, h);
      assert Assigned(levels, z, h, n) >= 0;
    }
  }

  /**
    Sorted block `q` is assigned to level `d` exactly when `q` falls in that level's
    stretch of a leaf-to-root layout by counts: the counts and the layout agree.
   */
  lemma {:induction false} LayoutAgrees(levels: seq<nat>, z: nat, h: nat, q: nat)
    requires LevelsFit(levels, h) && NonIncreasing(levels) && q < |levels|
    ensures var c, d := Counts(levels, z, h), Assigned(levels, z, h, q);
      && (d >= 0 ==> FromLevel(c, d + 1) <= q < FromLevel(c, d))
      && (d < 0 ==> FromLevel(c, 0) <= q)
    decreases |levels|
  {
    hide *;
    var n := |levels| - 1;
    var prior := levels[..n];
    SortedPrior(levels, h);
    CountsNext(levels, z, h);
    var c, d, last := Counts(prior, z, h), Assigned(levels, z, h, q), Assigned(levels, z, h, n);
    AssignedSorted(levels, z, h, q, n);
    if q < n {
      LayoutAgrees(prior, z, h, q);
      AssignedOfPrefix(levels, z, h, n, q);
      if last >= 0 {
        FromLevelUpdate(c, d + 1, last);
        FromLevelUpdate(c, d, last);
      }
    } else {
      LastLands(levels, z, h);
    }
  }

  lemma SortedPrior(levels: seq<nat>, h: nat)
    requires LevelsFit(levels, h) && NonIncreasing(levels) && |levels| > 0
    ensures LevelsFit(levels[..|levels| - 1], h) && NonIncreasing(levels[..|levels| - 1])
    ensures forall i :: 0 <= i < |levels| ==> levels[i] <= h
  {
  }

  lemma CountsNext(levels: seq<nat>, z: nat, h: nat)
    requires LevelsFit(levels, h) && |levels| > 0
    ensures LevelsFit(levels[..|levels| - 1], h)
    ensures var n := |levels| - 1; var c, d := Counts(levels[..n], z, h), Assigned(levels, z, h, n);
      Counts(levels, z, h) == if d < 0 then c else c[d := c[d] + 1]
  {
  }

  /** The case of the last block. */
  lemma LastLands(levels: seq<nat>, z: nat, h: nat)
    requires LevelsFit(levels, h) && NonIncreasing(levels) && |levels| > 0
    ensures var n := |levels| - 1; var c, d := Counts(levels, z, h), Assigned(levels, z, h, n);
      && (d >= 0 ==> FromLevel(c, d + 1) <= n < FromLevel(c, d))
      && (d < 0 ==> FromLevel(c, 0) <= n)
  {
    hide *;
    var n := |levels| - 1;
    var prior := levels[..n];
    SortedPrior(levels, h);
    CountsNext(levels, z, h);
    var c, d := Counts(prior, z, h), Assigned(levels, z, h, n);
    CountsAddUp(prior, z, h);
    if d >= 0 {
      forall i | 0 <= i < n ensures Assigned(prior, z, h, i) >= d {
        AssignedOfPrefix(levels, z, h, n, i);
        AssignedSorted(levels, z, h, i, n);
      }
      NoOverflowYet(prior, z, h);
      forall k | 0 <= k < d ensures c[k] == 0 { UnusedLevels(prior, z, h, k); }
      FromLevelSplit(c, 0, d);
      FromLevelUpdate(c, d, d);
      FromLevelUpdate(c, d + 1, d);
      FromLevelSplit(c, d, d + 1);
    }
  }
}
