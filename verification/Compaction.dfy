/**
  Oblivious compaction and distribution: recursive networks of swaps whose pattern
  depends on prefix sums of marks.  Compaction brings the marked elements to the
  front in order; distribution is the same swaps undone.
 */
module Compaction {
  import opened Arithmetic
  import opened Networks

  // ---- Marks ------------------------------------------------------------------------

  /** `p` holds prefix sums of marks, not necessarily starting at zero. */
  ghost predicate Prefix(p: seq<nat>) {
    |p| > 0 && forall i, j :: 0 <= i < j < |p| && j == i + 1 ==> p[i] <= p[j] <= p[i] + 1
  }

  predicate Marked(p: seq<nat>, i: nat)
    requires i + 1 < |p|
  {
    p[i + 1] != p[i]
  }

  /** How many marks stand in positions `i .. j`. */
  ghost function Marks(p: seq<nat>, i: nat, j: nat): (m: nat)
    requires Prefix(p) && i <= j < |p|
    ensures p[j] == p[i] + m && m <= j - i
  {
    PrefixGrows(p, i, j);
    p[j] - p[i]
  }

  lemma {:induction false} PrefixGrows(p: seq<nat>, i: nat, j: nat)
    requires Prefix(p) && i <= j < |p|
    ensures p[i] <= p[j] <= p[i] + (j - i)
    decreases j
  {
    if i < j {
      PrefixGrows(p, i, j - 1);
    }
  }

  // ---- Single swaps -----------------------------------------------------------------

  /** `x` reduced modulo `h`; for a power of two `h` this is `x & (h - 1)`. */
  function Wrap(x: nat, h: nat): (r: nat)
    requires h > 0
    ensures r < h
    decreases x
  {
    if x < h then x else Wrap(x - h, h)
  }

  lemma {:induction false} WrapIsMod(x: nat, h: nat)
    requires h > 0
    ensures Wrap(x, h) == x % h
    decreases x
  {
    if x < h {
      DivModUnique(x, h, 0, x);
    } else {
      WrapIsMod(x - h, h);
      DivModUnique(x, h, (x - h) / h + 1, (x - h) % h);
    }
  }

  lemma WrapCases(x: nat, h: nat)
    requires h > 0
    ensures x < h ==> Wrap(x, h) == x
    ensures h <= x < 2 * h ==> Wrap(x, h) == x - h
    ensures 2 * h <= x < 3 * h ==> Wrap(x, h) == x - 2 * h
  {
    if x >= h && x - h >= h { assert Wrap(x - h, h) == Wrap(x - 2 * h, h); }
  }

  /** Is the pair `(i, d + i)` swapped, for the condition `flip ^ (i >= t)`? */
  predicate Crosses(i: nat, flip: bool, t: nat) { flip != (i >= t) }

  /** Does a slice of two, compacted to offset `z`, swap? */
  predicate SwapsPair(p: seq<nat>, b: nat, z: nat)
    requires b + 2 < |p|
  {
    (if p[b + 1] == p[b] && p[b + 2] != p[b + 1] then 1 else 0) != z
  }

  /** The direction bit of a halving step with `m` marks on the left. */
  predicate Flips(half: nat, z: nat, m: nat)
    requires half > 0
  {
    (Wrap(z, half) + m >= half) != (z >= half)
  }

  /** The comparator of an unconditional swap. */
  predicate Always<T>(a: T, b: T) { true }

  /** The network uses only wires `lo .. hi`. */
  ghost predicate Inside(net: Network, lo: nat, hi: nat) {
    match net
    case Empty => true
    case One(i, j) => lo <= i < hi && lo <= j < hi && i != j
    case Then(a, b) => Inside(a, lo, hi) && Inside(b, lo, hi)
  }

  lemma {:induction false} InsideFits(net: Network, lo: nat, hi: nat, n: nat)
    requires Inside(net, lo, hi) && hi <= n
    ensures Fits(net, n)
    ensures forall w: nat :: Touches(net, w) ==> lo <= w < hi
  {
    match net
    case Empty =>
    case One(i, j) =>
    case Then(a, b) =>
      InsideFits(a, lo, hi, n);
      InsideFits(b, lo, hi, n);
  }

  lemma {:induction false} InsideWider(net: Network, lo: nat, hi: nat, lo': nat, hi': nat)
    requires Inside(net, lo, hi) && lo' <= lo && hi <= hi'
    ensures Inside(net, lo', hi')
  {
    match net
    case Empty =>
    case One(i, j) =>
    case Then(a, b) =>
      InsideWider(a, lo, hi, lo', hi');
      InsideWider(b, lo, hi, lo', hi');
  }

  /** Swap the pairs `(lo + i, lo + d + i)` that cross, for `i < m`. */
  function CrossRow(lo: nat, d: nat, m: nat, flip: bool, t: nat): Network
  {
    if m == 0 then Empty
    else Then(CrossRow(lo, d, m - 1, flip, t),
              if Crosses(m - 1, flip, t) then One(lo + m - 1, lo + d + m - 1) else Empty)
  }

  lemma {:induction false} CrossRowInside(lo: nat, d: nat, m: nat, flip: bool, t: nat)
    requires m <= d
    ensures Inside(CrossRow(lo, d, m, flip, t), lo, lo + d + m)
  {
    if m > 0 {
      CrossRowInside(lo, d, m - 1, flip, t);
      InsideWider(CrossRow(lo, d, m - 1, flip, t), lo, lo + d + m - 1, lo, lo + d + m);
    }
  }

  /** Where the element that ends up at `x` comes from. */
  function CrossSource(x: nat, lo: nat, d: nat, m: nat, flip: bool, t: nat): (y: nat)
    requires m <= d
  {
    if lo <= x < lo + m && Crosses(x - lo, flip, t) then x + d
    else if lo + d <= x < lo + d + m && Crosses(x - lo - d, flip, t) then x - d
    else x
  }

  lemma {:induction false} CrossRowEffect<T>(s: seq<T>, lo: nat, d: nat, m: nat, flip: bool, t: nat)
    requires m <= d && lo + d + m <= |s| && Fits(CrossRow(lo, d, m, flip, t), |s|)
    ensures forall x: nat :: x < |s| ==>
              Run(CrossRow(lo, d, m, flip, t), s, Always)[x] == s[CrossSource(x, lo, d, m, flip, t)]
  {
    if m > 0 {
      CrossRowEffect(s, lo, d, m - 1, flip, t);
      var r := Run(CrossRow(lo, d, m - 1, flip, t), s, Always);
      var step := if Crosses(m - 1, flip, t) then One(lo + m - 1, lo + d + m - 1) else Empty;
      RunStep(step, r, Always);
      var r' := Run(step, r, Always);
      assert Run(CrossRow(lo, d, m, flip, t), s, Always) == r';
      hide Run, CrossRow, Fits;
      forall x: nat | x < |s| ensures r'[x] == s[CrossSource(x, lo, d, m, flip, t)] {
        assert r[x] == s[CrossSource(x, lo, d, m - 1, flip, t)];
      }
    }
  }

  /** Where the two elements of the pair `(k, d + k)` go. */
  lemma CrossTargets<T>(s: seq<T>, lo: nat, d: nat, m: nat, flip: bool, t: nat, k: nat)
    requires k < m <= d && lo + d + m <= |s| && Fits(CrossRow(lo, d, m, flip, t), |s|)
    ensures Run(CrossRow(lo, d, m, flip, t), s, Always)[if Crosses(k, flip, t) then lo + d + k else lo + k] == s[lo + k]
    ensures Run(CrossRow(lo, d, m, flip, t), s, Always)[if Crosses(k, flip, t) then lo + k else lo + d + k]
              == s[lo + d + k]
  {
    CrossRowEffect(s, lo, d, m, flip, t);
    hide Run, CrossRow, Fits;
  }

  lemma CrossRowTwice<T>(s: seq<T>, lo: nat, d: nat, m: nat, flip: bool, t: nat)
    requires m <= d && lo + d + m <= |s| && Fits(CrossRow(lo, d, m, flip, t), |s|)
    ensures Run(CrossRow(lo, d, m, flip, t), Run(CrossRow(lo, d, m, flip, t), s, Always), Always) == s
  {
    var row := CrossRow(lo, d, m, flip, t);
    var r := Run(row, s, Always);
    CrossRowEffect(s, lo, d, m, flip, t);
    CrossRowEffect(r, lo, d, m, flip, t);
    hide Run, CrossRow, Fits;
    forall x: nat | x < |s| ensures Run(row, r, Always)[x] == s[x] {
      var y := CrossSource(x, lo, d, m, flip, t);
      assert CrossSource(y, lo, d, m, flip, t) == x;
    }
  }

  // ---- The two networks -------------------------------------------------------------------
  //
  // A slice is given by its first wire `lo`, its length, and where its marks begin:
  // its element `i` is marked when `p[b + i + 1] != p[b + i]`.

  ghost predicate Covers(p: seq<nat>, b: nat, n: nat) {
    Prefix(p) && b + n < |p|
  }

  /** `compact_pow2` on a slice of length `2^e`, with offset `z`. */
  ghost function CompactPow2Net(p: seq<nat>, b: nat, lo: nat, z: nat, e: nat): Network
    requires e >= 1 && Covers(p, b, Pow2(e))
    decreases e
  {
    if e == 1 then
      assert Pow2(1) == 2;
      if SwapsPair(p, b, z) then One(lo, lo + 1) else Empty
    else
      var half := Pow2(e - 1);
      var m := Marks(p, b, b + half);
      var zl, zr := Wrap(z, half), Wrap(z + m, half);
      Then(Then(CompactPow2Net(p, b, lo, zl, e - 1), CompactPow2Net(p, b + half, lo + half, zr, e - 1)),
           CrossRow(lo, half, half, Flips(half, z, m), zr))
  }

  ghost function DistributePow2Net(p: seq<nat>, b: nat, lo: nat, z: nat, e: nat): Network
    requires e >= 1 && Covers(p, b, Pow2(e))
    decreases e
  {
    if e == 1 then
      assert Pow2(1) == 2;
      if SwapsPair(p, b, z) then One(lo, lo + 1) else Empty
    else
      var half := Pow2(e - 1);
      var m := Marks(p, b, b + half);
      var zl, zr := Wrap(z, half), Wrap(z + m, half);
      Then(CrossRow(lo, half, half, Flips(half, z, m), zr),
           Then(DistributePow2Net(p, b, lo, zl, e - 1), DistributePow2Net(p, b + half, lo + half, zr, e - 1)))
  }

  /** `compact_payload` on a slice of any length `n`. */
  ghost function CompactNet(p: seq<nat>, b: nat, lo: nat, n: nat): Network
    requires Covers(p, b, n)
    decreases n
  {
    if n <= 1 then Empty
    else
      var e := FloorLog(n);
      var n1 := Pow2(e);
      var n2 := n - n1;
      if n2 == 0 then CompactPow2Net(p, b, lo, 0, e)
      else
        var m := Marks(p, b, b + n2);
        Then(Then(CompactNet(p, b, lo, n2), CompactPow2Net(p, b + n2, lo + n2, Wrap(n1 - n2 + m, n1), e)),
             CrossRow(lo, n1, n2, false, m))
  }

  /** `distribute_payload`: the swaps of `compact_payload`, from the last to the first. */
  ghost function DistributeNet(p: seq<nat>, b: nat, lo: nat, n: nat): Network
    requires Covers(p, b, n)
    decreases n
  {
    if n <= 1 then Empty
    else
      var e := FloorLog(n);
      var n1 := Pow2(e);
      var n2 := n - n1;
      if n2 == 0 then DistributePow2Net(p, b, lo, 0, e)
      else
        var m := Marks(p, b, b + n2);
        Then(CrossRow(lo, n1, n2, false, m),
             Then(DistributeNet(p, b, lo, n2), DistributePow2Net(p, b + n2, lo + n2, Wrap(n1 - n2 + m, n1), e)))
  }

  lemma Pow2Unfolds(p: seq<nat>, b: nat, lo: nat, z: nat, e: nat, half: nat, m: nat, zl: nat, zr: nat)
    requires e >= 2 && Covers(p, b, Pow2(e)) && half == Pow2(e - 1) && b + half < |p|
    requires m == Marks(p, b, b + half) && zl == Wrap(z, half) && zr == Wrap(z + m, half)
    ensures Pow2(e) == 2 * half
    ensures CompactPow2Net(p, b, lo, z, e) ==
      Then(Then(CompactPow2Net(p, b, lo, zl, e - 1), CompactPow2Net(p, b + half, lo + half, zr, e - 1)),
           CrossRow(lo, half, half, Flips(half, z, m), zr))
    ensures DistributePow2Net(p, b, lo, z, e) ==
      Then(CrossRow(lo, half, half, Flips(half, z, m), zr),
           Then(DistributePow2Net(p, b, lo, zl, e - 1), DistributePow2Net(p, b + half, lo + half, zr, e - 1)))
  {
    hide Wrap, CrossRow, Marks, Flips;
  }

  lemma PairUnfolds(p: seq<nat>, b: nat, lo: nat, z: nat)
    requires Covers(p, b, 2)
    ensures Pow2(1) == 2
    ensures CompactPow2Net(p, b, lo, z, 1) == if SwapsPair(p, b, z) then One(lo, lo + 1) else Empty
    ensures DistributePow2Net(p, b, lo, z, 1) == if SwapsPair(p, b, z) then One(lo, lo + 1) else Empty
    ensures Inside(CompactPow2Net(p, b, lo, z, 1), lo, lo + 2) && Inside(DistributePow2Net(p, b, lo, z, 1), lo, lo + 2)
  {
  }

  lemma Unfolds(p: seq<nat>, b: nat, lo: nat, n: nat, e: nat, n1: nat, n2: nat, m: nat, z: nat)
    requires Covers(p, b, n) && n > 1 && e == FloorLog(n) && n1 == Pow2(e) && n == n1 + n2 && b + n2 < |p|
    requires m == Marks(p, b, b + n2) && z == Wrap(n1 - n2 + m, n1)
    ensures e >= 1 && n2 < n1
    ensures n2 == 0 ==> CompactNet(p, b, lo, n) == CompactPow2Net(p, b, lo, 0, e)
    ensures n2 == 0 ==> DistributeNet(p, b, lo, n) == DistributePow2Net(p, b, lo, 0, e)
    ensures n2 > 0 ==>
              CompactNet(p, b, lo, n) == Then(Then(CompactNet(p, b, lo, n2), CompactPow2Net(p, b + n2, lo + n2, z, e)),
                                              CrossRow(lo, n1, n2, false, m))
    ensures n2 > 0 ==>
              DistributeNet(p, b, lo, n)
                == Then(CrossRow(lo, n1, n2, false, m),
                        Then(DistributeNet(p, b, lo, n2), DistributePow2Net(p, b + n2, lo + n2, z, e)))
  {
    hide Wrap, CrossRow, Marks, CompactPow2Net, DistributePow2Net;
  }

  lemma Pow2Halves(p: seq<nat>, b: nat, e: nat)
    requires e >= 1 && Covers(p, b, Pow2(e))
    ensures Prefix(p) && b + Pow2(e) < |p|
    ensures e == 1 ==> Pow2(e) == 2
    ensures e > 1 ==> Pow2(e) == 2 * Pow2(e - 1)
    ensures e > 1 ==> Covers(p, b, Pow2(e - 1)) && Covers(p, b + Pow2(e - 1), Pow2(e - 1))
  {
  }

  /** The two parts of a slice of length `n`. */
  lemma Parts(p: seq<nat>, b: nat, n: nat, k: nat)
    requires Covers(p, b, n) && k <= n
    ensures Prefix(p) && b + n < |p| && Covers(p, b, k) && Covers(p, b + k, n - k)
  {
  }

  lemma MarksSplit(p: seq<nat>, b: nat, k: nat, i: nat)
    requires Prefix(p) && b + k < |p| && b + i + 1 < |p| && Marked(p, b + i)
    ensures i < k ==> Marks(p, b, b + i) < Marks(p, b, b + k)
    ensures i >= k ==> Marks(p, b, b + i) == Marks(p, b, b + k) + Marks(p, b + k, b + i)
  {
    if i < k { PrefixGrows(p, b + i + 1, b + k); }
  }

  lemma StagesInside(left: Network, right: Network, cross: Network, lo: nat, cut: nat, hi: nat)
    requires lo <= cut <= hi && Inside(left, lo, cut) && Inside(right, cut, hi) && Inside(cross, lo, hi)
    ensures Inside(Then(Then(left, right), cross), lo, hi) && Inside(Then(cross, Then(left, right)), lo, hi)
  {
    InsideWider(left, lo, cut, lo, hi);
    InsideWider(right, cut, hi, lo, hi);
  }

  lemma {:induction false} Pow2NetsInside(p: seq<nat>, b: nat, lo: nat, z: nat, e: nat)
    requires e >= 1 && Covers(p, b, Pow2(e))
    ensures Inside(CompactPow2Net(p, b, lo, z, e), lo, lo + Pow2(e))
    ensures Inside(DistributePow2Net(p, b, lo, z, e), lo, lo + Pow2(e))
    decreases e
  {
    hide *;
    Pow2Halves(p, b, e);
    if e == 1 {
      PairUnfolds(p, b, lo, z);
    } else {
      var half := Pow2(e - 1);
      var m := Marks(p, b, b + half);
      var zl, zr := Wrap(z, half), Wrap(z + m, half);
      var cross := CrossRow(lo, half, half, Flips(half, z, m), zr);
      Pow2Unfolds(p, b, lo, z, e, half, m, zl, zr);
      Pow2NetsInside(p, b, lo, zl, e - 1);
      Pow2NetsInside(p, b + half, lo + half, zr, e - 1);
      CrossRowInside(lo, half, half, Flips(half, z, m), zr);
      StagesInside(CompactPow2Net(p, b, lo, zl, e - 1), CompactPow2Net(p, b + half, lo + half, zr, e - 1), cross, lo,
                   lo + half, lo + Pow2(e));
      StagesInside(DistributePow2Net(p, b, lo, zl, e - 1), DistributePow2Net(p, b + half, lo + half, zr, e - 1), cross,
                   lo, lo + half, lo + Pow2(e));
    }
  }

  lemma SmallNets(p: seq<nat>, b: nat, lo: nat, n: nat)
    requires Covers(p, b, n)
    ensures n <= 1 ==> CompactNet(p, b, lo, n) == Empty && DistributeNet(p, b, lo, n) == Empty
    ensures Inside(Empty, lo, lo + n)
  {
  }

  lemma {:induction false} NetsInside(p: seq<nat>, b: nat, lo: nat, n: nat)
    requires Covers(p, b, n)
    ensures Inside(CompactNet(p, b, lo, n), lo, lo + n)
    ensures Inside(DistributeNet(p, b, lo, n), lo, lo + n)
    decreases n
  {
    hide *;
    SmallNets(p, b, lo, n);
    if n > 1 {
      var e := FloorLog(n);
      var n1 := Pow2(e);
      var n2 := n - n1;
      Parts(p, b, n, n2);
      var m := Marks(p, b, b + n2);
      var z := Wrap(n1 - n2 + m, n1);
      Unfolds(p, b, lo, n, e, n1, n2, m, z);
      if n2 == 0 {
        Pow2NetsInside(p, b, lo, 0, e);
      } else {
        var cross := CrossRow(lo, n1, n2, false, m);
        NetsInside(p, b, lo, n2);
        Pow2NetsInside(p, b + n2, lo + n2, z, e);
        CrossRowInside(lo, n1, n2, false, m);
        StagesInside(CompactNet(p, b, lo, n2), CompactPow2Net(p, b + n2, lo + n2, z, e), cross, lo, lo + n2, lo + n);
        StagesInside(DistributeNet(p, b, lo, n2), DistributePow2Net(p, b + n2, lo + n2, z, e), cross, lo, lo + n2,
                     lo + n);
      }
    }
  }

  // ---- Where compaction puts the marked elements -----------------------------------------------

  /** A left element of rank `r`, of `m` marked ones on the left. */
  lemma LeftTarget(half: nat, z: nat, m: nat, r: nat)
    requires 0 < half && z < 2 * half && r < m <= half
    ensures var k := Wrap(Wrap(z, half) + r, half);
      Wrap(z + r, 2 * half) == if Crosses(k, Flips(half, z, m), Wrap(z + m, half)) then half + k else k
  {
    WrapCases(z, half);
    WrapCases(Wrap(z, half) + r, half);
    WrapCases(z + m, half);
    WrapCases(z + r, 2 * half);
  }

  /** A right element of rank `r` among the right ones. */
  lemma RightTarget(half: nat, z: nat, m: nat, r: nat)
    requires 0 < half && z < 2 * half && m <= half && r < half
    ensures var k := Wrap(Wrap(z + m, half) + r, half);
      Wrap(z + m + r, 2 * half) == if Crosses(k, Flips(half, z, m), Wrap(z + m, half)) then k else half + k
  {
    WrapCases(z, half);
    WrapCases(z + m, half);
    WrapCases(Wrap(z + m, half) + r, half);
    WrapCases(z + m + r, 2 * half);
  }

  /** The three stages of a compaction step, on any sequence. */
  lemma Stages<T>(left: Network, right: Network, cross: Network, s: seq<T>, lo: nat, cut: nat, hi: nat)
    requires lo <= cut <= hi <= |s|
    requires Inside(left, lo, cut) && Inside(right, cut, hi) && Inside(cross, lo, hi)
    ensures Fits(left, |s|) && Fits(right, |s|) && Fits(cross, |s|)
    ensures Run(Then(Then(left, right), cross), s, Always)
              == Run(cross, Run(right, Run(left, s, Always), Always), Always)
    ensures forall w :: lo <= w < cut ==> Run(right, Run(left, s, Always), Always)[w] == Run(left, s, Always)[w]
    ensures forall w :: cut <= w < hi ==> Run(left, s, Always)[w] == s[w]
  {
    InsideFits(left, lo, cut, |s|);
    InsideFits(right, cut, hi, |s|);
    InsideFits(cross, lo, hi, |s|);
    forall w | lo <= w < cut ensures Run(right, Run(left, s, Always), Always)[w] == Run(left, s, Always)[w] {
      RunFrame(right, Run(left, s, Always), Always, w);
    }
    forall w | cut <= w < hi ensures Run(left, s, Always)[w] == s[w] {
      RunFrame(left, s, Always, w);
    }
  }

  lemma PairPlaces<T>(s: seq<T>, p: seq<nat>, b: nat, lo: nat, z: nat, i: nat)
    requires Covers(p, b, 2) && z < 2 && lo + 2 <= |s|
    requires i < 2 && Marked(p, b + i) && Fits(CompactPow2Net(p, b, lo, z, 1), |s|)
    ensures Pow2(1) == 2
    ensures Run(CompactPow2Net(p, b, lo, z, 1), s, Always)[lo + Wrap(z + Marks(p, b, b + i), 2)] == s[lo + i]
  {
    hide Run, CompactPow2Net, Fits, Wrap, Prefix;
    PairUnfolds(p, b, lo, z);
    RunStep(CompactPow2Net(p, b, lo, z, 1), s, Always);
    WrapCases(z + Marks(p, b, b + i), 2);
    MarksSplit(p, b, 1, i);
    assert Marks(p, b, b + i) == if i == 1 && p[b + 1] != p[b] then 1 else 0;
  }

  /** The last row takes an element of the compacted left half to its place. */
  lemma LeftPlaced<T>(u: seq<T>, lo: nat, half: nat, z: nat, m: nat, r: nat, x: T)
    requires 0 < half && z < 2 * half && r < m <= half && lo + half + half <= |u|
    requires Fits(CrossRow(lo, half, half, Flips(half, z, m), Wrap(z + m, half)), |u|)
    requires Wrap(Wrap(z, half) + r, half) < half && u[lo + Wrap(Wrap(z, half) + r, half)] == x
    ensures Wrap(z + r, 2 * half) < 2 * half
    ensures Run(CrossRow(lo, half, half, Flips(half, z, m), Wrap(z + m, half)), u, Always)[lo + Wrap(z + r, 2 * half)]
              == x
  {
    WrapCases(z + r, 2 * half);
    hide *;
    LeftTarget(half, z, m, r);
    CrossTargets(u, lo, half, half, Flips(half, z, m), Wrap(z + m, half), Wrap(Wrap(z, half) + r, half));
  }

  /** The same for the right half. */
  lemma RightPlaced<T>(u: seq<T>, lo: nat, half: nat, z: nat, m: nat, r: nat, x: T)
    requires 0 < half && z < 2 * half && r < half && m <= half && lo + half + half <= |u|
    requires Fits(CrossRow(lo, half, half, Flips(half, z, m), Wrap(z + m, half)), |u|)
    requires Wrap(Wrap(z + m, half) + r, half) < half && u[lo + half + Wrap(Wrap(z + m, half) + r, half)] == x
    ensures Wrap(z + m + r, 2 * half) < 2 * half
    ensures Run(CrossRow(lo, half, half, Flips(half, z, m), Wrap(z + m, half)), u,
                Always)[lo + Wrap(z + m + r, 2 * half)] == x
  {
    WrapCases(z + m + r, 2 * half);
    hide *;
    RightTarget(half, z, m, r);
    CrossTargets(u, lo, half, half, Flips(half, z, m), Wrap(z + m, half), Wrap(Wrap(z + m, half) + r, half));
  }

  /** `compact_pow2` with offset `z` puts the marked element of rank `r` at `(z + r) mod n`. */
  lemma {:induction false} CompactPow2Places<T>(s: seq<T>, p: seq<nat>, b: nat, lo: nat, z: nat, e: nat, i: nat)
    requires e >= 1 && Covers(p, b, Pow2(e)) && z < Pow2(e) && lo + Pow2(e) <= |s|
    requires i < Pow2(e) && Marked(p, b + i) && Fits(CompactPow2Net(p, b, lo, z, e), |s|)
    ensures Run(CompactPow2Net(p, b, lo, z, e), s, Always)[lo + Wrap(z + Marks(p, b, b + i), Pow2(e))] == s[lo + i]
    decreases e
  {
    hide *;
    Pow2Halves(p, b, e);
    if e == 1 {
      PairPlaces(s, p, b, lo, z, i);
    } else {
      var half := Pow2(e - 1);
      var m := Marks(p, b, b + half);
      var zl, zr := Wrap(z, half), Wrap(z + m, half);
      Pow2Unfolds(p, b, lo, z, e, half, m, zl, zr);
      MarksSplit(p, b, half, i);
      var left, right := CompactPow2Net(p, b, lo, zl, e - 1), CompactPow2Net(p, b + half, lo + half, zr, e - 1);
      var cross := CrossRow(lo, half, half, Flips(half, z, m), zr);
      Pow2NetsInside(p, b, lo, zl, e - 1);
      Pow2NetsInside(p, b + half, lo + half, zr, e - 1);
      CrossRowInside(lo, half, half, Flips(half, z, m), zr);
      Stages(left, right, cross, s, lo, lo + half, lo + Pow2(e));
      var s1 := Run(left, s, Always);
      var s2 := Run(right, s1, Always);
      if i < half {
        var r := Marks(p, b, b + i);
        CompactPow2Places(s, p, b, lo, zl, e - 1, i);
        LeftPlaced(s2, lo, half, z, m, r, s[lo + i]);
      } else {
        var r := Marks(p, b + half, b + i);
        CompactPow2Places(s1, p, b + half, lo + half, zr, e - 1, i - half);
        RightPlaced(s2, lo, half, z, m, r, s[lo + i]);
      }
    }
  }

  /** Where a left element of rank `r`, and one of rank `r` among those on the right, end up. */
  lemma UnevenTargets<T>(u: seq<T>, lo: nat, n1: nat, n2: nat, m: nat, r: nat)
    requires 0 < n2 < n1 && lo + n1 + n2 <= |u| && m <= n2 && Fits(CrossRow(lo, n1, n2, false, m), |u|)
    ensures r < m ==> Run(CrossRow(lo, n1, n2, false, m), u, Always)[lo + r] == u[lo + r]
    ensures r < n1 ==>
              Run(CrossRow(lo, n1, n2, false, m), u, Always)[lo + m + r]
                == u[lo + n2 + Wrap(Wrap(n1 - n2 + m, n1) + r, n1)]
  {
    CrossRowEffect(u, lo, n1, n2, false, m);
    WrapCases(n1 - n2 + m, n1);
    WrapCases(Wrap(n1 - n2 + m, n1) + r, n1);
    hide Run, CrossRow, Fits, Wrap;
  }

  lemma SinglePlaces<T>(s: seq<T>, p: seq<nat>, b: nat, lo: nat, n: nat)
    requires Covers(p, b, n) && Fits(CompactNet(p, b, lo, n), |s|)
    ensures n <= 1 ==> Run(CompactNet(p, b, lo, n), s, Always) == s
    ensures n <= 1 ==> Marks(p, b, b) == 0
  {
  }

  /** `compact_payload` puts the marked element of rank `r` at index `r`. */
  lemma {:induction false} CompactPlaces<T>(s: seq<T>, p: seq<nat>, b: nat, lo: nat, n: nat, i: nat)
    requires Covers(p, b, n) && lo + n <= |s| && i < n && Marked(p, b + i) && Fits(CompactNet(p, b, lo, n), |s|)
    ensures Run(CompactNet(p, b, lo, n), s, Always)[lo + Marks(p, b, b + i)] == s[lo + i]
    decreases n
  {
    hide *;
    SinglePlaces(s, p, b, lo, n);
    if n > 1 {
      var e := FloorLog(n);
      var n1 := Pow2(e);
      var n2 := n - n1;
      Parts(p, b, n, n2);
      var m := Marks(p, b, b + n2);
      var z := Wrap(n1 - n2 + m, n1);
      Unfolds(p, b, lo, n, e, n1, n2, m, z);
      MarksSplit(p, b, n2, i);
      if n2 == 0 {
        CompactPow2Places(s, p, b, lo, 0, e, i);
        WrapCases(Marks(p, b, b + i), n1);
      } else {
        var left, right := CompactNet(p, b, lo, n2), CompactPow2Net(p, b + n2, lo + n2, z, e);
        var cross := CrossRow(lo, n1, n2, false, m);
        NetsInside(p, b, lo, n2);
        Pow2NetsInside(p, b + n2, lo + n2, z, e);
        CrossRowInside(lo, n1, n2, false, m);
        Stages(left, right, cross, s, lo, lo + n2, lo + n);
        var s1 := Run(left, s, Always);
        var s2 := Run(right, s1, Always);
        if i < n2 {
          CompactPlaces(s, p, b, lo, n2, i);
          UnevenTargets(s2, lo, n1, n2, m, Marks(p, b, b + i));
        } else {
          CompactPow2Places(s1, p, b + n2, lo + n2, z, e, i - n2);
          UnevenTargets(s2, lo, n1, n2, m, Marks(p, b + n2, b + i));
        }
      }
    }
  }

  // ---- Distribution undoes compaction --------------------------------------------------------

  /** Networks on separate wire ranges commute. */
  lemma {:induction false} CommuteRanges<T>(a: Network, b: Network, s: seq<T>, lo: nat, cut: nat, hi: nat)
    requires lo <= cut <= hi <= |s| && Inside(a, lo, cut) && Inside(b, cut, hi)
    ensures Fits(a, |s|) && Fits(b, |s|)
    ensures Run(b, Run(a, s, Always), Always) == Run(a, Run(b, s, Always), Always)
  {
    InsideFits(a, lo, cut, |s|);
    InsideFits(b, cut, hi, |s|);
    match a
    case Empty =>
    case One(i, j) => CommuteStep(a, b, s, Always);
    case Then(a1, a2) =>
      CommuteRanges(a1, b, s, lo, cut, hi);
      CommuteRanges(a2, b, Run(a1, s, Always), lo, cut, hi);
  }

  ghost predicate Inverse<T>(c: Network, d: Network, s: seq<T>) {
    Fits(c, |s|) && Fits(d, |s|) && Run(d, Run(c, s, Always), Always) == s
  }

  /** A step is undone when its three stages are. */
  lemma UndoStages<T>(left: Network, right: Network, left': Network, right': Network, cross: Network,
                      s: seq<T>, lo: nat, cut: nat, hi: nat)
    requires lo <= cut <= hi <= |s| && Fits(cross, |s|)
    requires Inside(left, lo, cut) && Inside(left', lo, cut) && Inside(right, cut, hi) && Inside(right', cut, hi)
    requires Inverse(left, left', s) && Inverse(right, right', s)
    requires Inverse(cross, cross, Run(right, Run(left, s, Always), Always))
    ensures Inverse(Then(Then(left, right), cross), Then(cross, Then(left', right')), s)
  {
    CommuteRanges(left', right, Run(left, s, Always), lo, cut, hi);
  }

  lemma RedoStages<T>(left: Network, right: Network, left': Network, right': Network, cross: Network,
                      s: seq<T>, lo: nat, cut: nat, hi: nat)
    requires lo <= cut <= hi <= |s| && Inverse(cross, cross, s)
    requires Inside(left, lo, cut) && Inside(left', lo, cut) && Inside(right, cut, hi) && Inside(right', cut, hi)
    requires Inverse(left', left, Run(cross, s, Always)) && Inverse(right', right, Run(cross, s, Always))
    ensures Inverse(Then(cross, Then(left', right')), Then(Then(left, right), cross), s)
  {
    CommuteRanges(left, right', Run(left', Run(cross, s, Always), Always), lo, cut, hi);
  }

  lemma CrossUndoes<T>(s: seq<T>, lo: nat, d: nat, m: nat, flip: bool, t: nat)
    requires m <= d && lo + d + m <= |s|
    ensures Inverse(CrossRow(lo, d, m, flip, t), CrossRow(lo, d, m, flip, t), s)
  {
    CrossRowInside(lo, d, m, flip, t);
    InsideFits(CrossRow(lo, d, m, flip, t), lo, lo + d + m, |s|);
    CrossRowTwice(s, lo, d, m, flip, t);
  }

  lemma PairUndoes<T>(s: seq<T>, p: seq<nat>, b: nat, lo: nat, z: nat)
    requires Covers(p, b, 2) && lo + 2 <= |s|
    ensures Inverse(CompactPow2Net(p, b, lo, z, 1), DistributePow2Net(p, b, lo, z, 1), s)
    ensures Inverse(DistributePow2Net(p, b, lo, z, 1), CompactPow2Net(p, b, lo, z, 1), s)
  {
    PairUnfolds(p, b, lo, z);
    var net := CompactPow2Net(p, b, lo, z, 1);
    RunStep(net, s, Always);
    RunStep(net, Run(net, s, Always), Always);
  }

  lemma {:induction false} Pow2Undo<T>(s: seq<T>, p: seq<nat>, b: nat, lo: nat, z: nat, e: nat)
    requires e >= 1 && Covers(p, b, Pow2(e)) && lo + Pow2(e) <= |s|
    ensures Inverse(CompactPow2Net(p, b, lo, z, e), DistributePow2Net(p, b, lo, z, e), s)
    ensures Inverse(DistributePow2Net(p, b, lo, z, e), CompactPow2Net(p, b, lo, z, e), s)
    decreases e
  {
    hide *;
    Pow2Halves(p, b, e);
    if e == 1 {
      PairUndoes(s, p, b, lo, z);
    } else {
      var half := Pow2(e - 1);
      var m := Marks(p, b, b + half);
      var zl, zr := Wrap(z, half), Wrap(z + m, half);
      Pow2Unfolds(p, b, lo, z, e, half, m, zl, zr);
      var left, right := CompactPow2Net(p, b, lo, zl, e - 1), CompactPow2Net(p, b + half, lo + half, zr, e - 1);
      var left', right' := DistributePow2Net(p, b, lo, zl, e - 1), DistributePow2Net(p, b + half, lo + half, zr, e - 1);
      var cross := CrossRow(lo, half, half, Flips(half, z, m), zr);
      Pow2NetsInside(p, b, lo, zl, e - 1);
      Pow2NetsInside(p, b + half, lo + half, zr, e - 1);
      CrossUndoes(s, lo, half, half, Flips(half, z, m), zr);
      Pow2Undo(s, p, b, lo, zl, e - 1);
      Pow2Undo(s, p, b + half, lo + half, zr, e - 1);
      InverseFits(left, left', s);
      InverseFits(right, right', s);
      CrossUndoes(Run(right, Run(left, s, Always), Always), lo, half, half, Flips(half, z, m), zr);
      InverseFits(cross, cross, s);
      UndoStages(left, right, left', right', cross, s, lo, lo + half, lo + Pow2(e));
      var v := Run(cross, s, Always);
      Pow2Undo(v, p, b, lo, zl, e - 1);
      Pow2Undo(v, p, b + half, lo + half, zr, e - 1);
      RedoStages(left, right, left', right', cross, s, lo, lo + half, lo + Pow2(e));
    }
  }

  lemma InverseFits<T>(c: Network, d: Network, s: seq<T>)
    requires Inverse(c, d, s)
    ensures Fits(c, |s|) && Fits(d, |s|) && Run(d, Run(c, s, Always), Always) == s
  {
  }

  lemma SingleUndoes<T>(s: seq<T>, p: seq<nat>, b: nat, lo: nat, n: nat)
    requires Covers(p, b, n) && n <= 1
    ensures Inverse(CompactNet(p, b, lo, n), DistributeNet(p, b, lo, n), s)
    ensures Inverse(DistributeNet(p, b, lo, n), CompactNet(p, b, lo, n), s)
  {
  }

  /** With the same marks, distribution undoes compaction and compaction undoes distribution. */
  lemma {:induction false} DistributeUndoesCompact<T>(s: seq<T>, p: seq<nat>, b: nat, lo: nat, n: nat)
    requires Covers(p, b, n) && lo + n <= |s|
    ensures Inverse(CompactNet(p, b, lo, n), DistributeNet(p, b, lo, n), s)
    ensures Inverse(DistributeNet(p, b, lo, n), CompactNet(p, b, lo, n), s)
    decreases n
  {
    hide *;
    if n <= 1 {
      SingleUndoes(s, p, b, lo, n);
    } else {
      var e := FloorLog(n);
      var n1 := Pow2(e);
      var n2 := n - n1;
      Parts(p, b, n, n2);
      var m := Marks(p, b, b + n2);
      var z := Wrap(n1 - n2 + m, n1);
      Unfolds(p, b, lo, n, e, n1, n2, m, z);
      if n2 == 0 {
        Pow2Undo(s, p, b, lo, 0, e);
      } else {
        var left, right := CompactNet(p, b, lo, n2), CompactPow2Net(p, b + n2, lo + n2, z, e);
        var left', right' := DistributeNet(p, b, lo, n2), DistributePow2Net(p, b + n2, lo + n2, z, e);
        var cross := CrossRow(lo, n1, n2, false, m);
        NetsInside(p, b, lo, n2);
        Pow2NetsInside(p, b + n2, lo + n2, z, e);
        CrossUndoes(s, lo, n1, n2, false, m);
        DistributeUndoesCompact(s, p, b, lo, n2);
        Pow2Undo(s, p, b + n2, lo + n2, z, e);
        InverseFits(left, left', s);
        InverseFits(right, right', s);
        CrossUndoes(Run(right, Run(left, s, Always), Always), lo, n1, n2, false, m);
        InverseFits(cross, cross, s);
        UndoStages(left, right, left', right', cross, s, lo, lo + n2, lo + n);
        var v := Run(cross, s, Always);
        DistributeUndoesCompact(v, p, b, lo, n2);
        Pow2Undo(v, p, b + n2, lo + n2, z, e);
        RedoStages(left, right, left', right', cross, s, lo, lo + n2, lo + n);
      }
    }
  }

  /** Distribution sends item `r` of the prefix to the marked slot of rank `r`. */
  lemma DistributePlaces<T>(s: seq<T>, p: seq<nat>, b: nat, lo: nat, n: nat, i: nat)
    requires Covers(p, b, n) && lo + n <= |s| && i < n && Marked(p, b + i)
    ensures Fits(DistributeNet(p, b, lo, n), |s|)
    ensures Run(DistributeNet(p, b, lo, n), s, Always)[lo + i] == s[lo + Marks(p, b, b + i)]
  {
    hide Run, DistributeNet, CompactNet, Fits, Marks;
    DistributeUndoesCompact(s, p, b, lo, n);
    var d := Run(DistributeNet(p, b, lo, n), s, Always);
    CompactPlaces(d, p, b, lo, n, i);
  }

  // ---- In place -------------------------------------------------------------------------------

  /** `net` has run on the whole array. */
  ghost predicate Swapped<T>(net: Network, before: seq<T>, now: seq<T>) {
    Fits(net, |before|) && now == Run(net, before, Always)
  }

  lemma SwappedThen<T>(first: Network, second: Network, s0: seq<T>, s1: seq<T>, s2: seq<T>)
    requires Swapped(first, s0, s1) && Swapped(second, s1, s2)
    ensures Swapped(Then(first, second), s0, s2)
  {
  }

  method ConditionalSwap<T>(a: array<T>, i: nat, j: nat, swap: bool)
    requires i < a.Length && j < a.Length && i != j
    modifies a
    ensures Swapped(if swap then One(i, j) else Empty, old(a[..]), a[..])
  {
    if swap {
      a[i], a[j] := a[j], a[i];
    }
  }

  lemma NothingSwapped<T>(s: seq<T>)
    ensures Swapped(Empty, s, s)
  {
  }

  lemma CrossRowUnfolds(lo: nat, d: nat, m: nat, flip: bool, t: nat)
    ensures CrossRow(lo, d, 0, flip, t) == Empty
    ensures CrossRow(lo, d, m + 1, flip, t)
              == Then(CrossRow(lo, d, m, flip, t), if Crosses(m, flip, t) then One(lo + m, lo + d + m) else Empty)
  {
  }

  /** The closing (or opening) loop of a compaction (or distribution) step. */
  method CrossSwaps<T>(a: array<T>, lo: nat, d: nat, m: nat, flip: bool, t: nat)
    requires m <= d && lo + d + m <= a.Length
    modifies a
    ensures Swapped(CrossRow(lo, d, m, flip, t), old(a[..]), a[..])
  {
    hide Swapped, CrossRow;
    ghost var a0 := a[..];
    CrossRowUnfolds(lo, d, 0, flip, t);
    NothingSwapped(a0);
    for i := 0 to m
      invariant Swapped(CrossRow(lo, d, i, flip, t), a0, a[..])
    {
      ghost var a1 := a[..];
      ConditionalSwap(a, lo + i, lo + d + i, flip != (i >= t));
      CrossRowUnfolds(lo, d, i, flip, t);
      SwappedThen(CrossRow(lo, d, i, flip, t), if Crosses(i, flip, t) then One(lo + i, lo + d + i) else Empty, a0, a1,
                  a[..]);
    }
  }

  /** `compact_pow2` on the slice of length `n` at `lo`, whose marks start at `payload[b]`. */
  method CompactPow2<T>(a: array<T>, lo: nat, n: nat, payload: seq<nat>, b: nat, z: nat, ghost e: nat)
    requires e >= 1 && n == Pow2(e) && lo + n <= a.Length && Covers(payload, b, n)
    modifies a
    ensures Swapped(CompactPow2Net(payload, b, lo, z, e), old(a[..]), a[..])
    decreases e
  {
    hide Swapped, Pow2, CompactPow2Net, DistributePow2Net, CrossRow, Covers;
    Pow2Halves(payload, b, e);
    if n == 2 {
      if e > 1 { Pow2Monotone(1, e); Pow2Halves(payload, b, 1); }
      PairUnfolds(payload, b, lo, z);
      var m := payload[b + 1] - payload[b];
      ConditionalSwap(a, lo, lo + 1, (if m == 0 then payload[b + 2] - payload[b + 1] else 0) != z);
      return;
    }
    var half := n / 2;
    ghost var m' := Marks(payload, b, b + half);
    var m := payload[b + half] - payload[b];
    var zleft, zright := Wrap(z, half), Wrap(z + m, half);
    Pow2Unfolds(payload, b, lo, z, e, half, m, zleft, zright);
    ghost var a0 := a[..];
    CompactPow2(a, lo, half, payload, b, zleft, e - 1);
    ghost var a1 := a[..];
    CompactPow2(a, lo + half, half, payload, b + half, zright, e - 1);
    ghost var a2 := a[..];
    var s := (zleft + m >= half) != (z >= half);
    CrossSwaps(a, lo, half, half, s, zright);
    ghost var left, right := CompactPow2Net(payload, b, lo, zleft, e - 1),
        CompactPow2Net(payload, b + half, lo + half, zright, e - 1);
    SwappedThen(left, right, a0, a1, a2);
    SwappedThen(Then(left, right), CrossRow(lo, half, half, s, zright), a0, a2, a[..]);
  }

  method DistributePow2<T>(a: array<T>, lo: nat, n: nat, payload: seq<nat>, b: nat, z: nat, ghost e: nat)
    requires e >= 1 && n == Pow2(e) && lo + n <= a.Length && Covers(payload, b, n)
    modifies a
    ensures Swapped(DistributePow2Net(payload, b, lo, z, e), old(a[..]), a[..])
    decreases e
  {
    hide Swapped, Pow2, CompactPow2Net, DistributePow2Net, CrossRow, Covers;
    Pow2Halves(payload, b, e);
    if n == 2 {
      if e > 1 { Pow2Monotone(1, e); Pow2Halves(payload, b, 1); }
      PairUnfolds(payload, b, lo, z);
      var m := payload[b + 1] - payload[b];
      ConditionalSwap(a, lo, lo + 1, (if m == 0 then payload[b + 2] - payload[b + 1] else 0) != z);
      return;
    }
    var half := n / 2;
    ghost var m' := Marks(payload, b, b + half);
    var m := payload[b + half] - payload[b];
    var zleft, zright := Wrap(z, half), Wrap(z + m, half);
    Pow2Unfolds(payload, b, lo, z, e, half, m, zleft, zright);
    ghost var a0 := a[..];
    var s := (zleft + m >= half) != (z >= half);
    CrossSwaps(a, lo, half, half, s, zright);
    ghost var a1 := a[..];
    DistributePow2(a, lo, half, payload, b, zleft, e - 1);
    ghost var a2 := a[..];
    DistributePow2(a, lo + half, half, payload, b + half, zright, e - 1);
    ghost var left, right := DistributePow2Net(payload, b, lo, zleft, e - 1),
        DistributePow2Net(payload, b + half, lo + half, zright, e - 1);
    SwappedThen(left, right, a1, a2, a[..]);
    SwappedThen(CrossRow(lo, half, half, s, zright), Then(left, right), a0, a1, a[..]);
  }

  /** `compact_payload` on the slice `lo .. lo + n`. */
  method CompactPayload<T>(a: array<T>, lo: nat, n: nat, payload: seq<nat>, b: nat)
    requires lo + n <= a.Length && Covers(payload, b, n)
    modifies a
    ensures Swapped(CompactNet(payload, b, lo, n), old(a[..]), a[..])
    decreases n
  {
    hide Swapped, Pow2, CompactPow2Net, DistributePow2Net, CompactNet, DistributeNet, CrossRow, Covers, FloorLog;
    SmallNets(payload, b, lo, n);
    ghost var a0 := a[..];
    NothingSwapped(a0);
    if n <= 1 {
      return;
    }
    var e := FloorLog(n);
    var n1 := Pow2(e);
    var n2 := n - n1;
    Parts(payload, b, n, n2);
    ghost var m' := Marks(payload, b, b + n2);
    var m := payload[b + n2] - payload[b];
    Unfolds(payload, b, lo, n, e, n1, n2, m, Wrap(n1 - n2 + m, n1));
    if n2 == 0 {
      CompactPow2(a, lo, n, payload, b, 0, e);
      return;
    }
    CompactPayload(a, lo, n2, payload, b);
    ghost var a1 := a[..];
    CompactPow2(a, lo + n2, n1, payload, b + n2, Wrap(n1 - n2 + m, n1), e);
    ghost var a2 := a[..];
    CrossSwaps(a, lo, n1, n2, false, m);
    ghost var left, right := CompactNet(payload, b, lo, n2),
        CompactPow2Net(payload, b + n2, lo + n2, Wrap(n1 - n2 + m, n1), e);
    SwappedThen(left, right, a0, a1, a2);
    SwappedThen(Then(left, right), CrossRow(lo, n1, n2, false, m), a0, a2, a[..]);
  }

  /** `distribute_payload` on the slice `lo .. lo + n`. */
  method DistributePayload<T>(a: array<T>, lo: nat, n: nat, payload: seq<nat>, b: nat)
    requires lo + n <= a.Length && Covers(payload, b, n)
    modifies a
    ensures Swapped(DistributeNet(payload, b, lo, n), old(a[..]), a[..])
    decreases n
  {
    hide Swapped, Pow2, CompactPow2Net, DistributePow2Net, CompactNet, DistributeNet, CrossRow, Covers, FloorLog;
    SmallNets(payload, b, lo, n);
    ghost var a0 := a[..];
    NothingSwapped(a0);
    if n <= 1 {
      return;
    }
    var e := FloorLog(n);
    var n1 := Pow2(e);
    var n2 := n - n1;
    Parts(payload, b, n, n2);
    ghost var m' := Marks(payload, b, b + n2);
    var m := payload[b + n2] - payload[b];
    Unfolds(payload, b, lo, n, e, n1, n2, m, Wrap(n1 - n2 + m, n1));
    if n2 == 0 {
      DistributePow2(a, lo, n, payload, b, 0, e);
      return;
    }
    CrossSwaps(a, lo, n1, n2, false, m);
    ghost var a1 := a[..];
    DistributePayload(a, lo, n2, payload, b);
    ghost var a2 := a[..];
    DistributePow2(a, lo + n2, n1, payload, b + n2, Wrap(n1 - n2 + m, n1), e);
    ghost var left, right := DistributeNet(payload, b, lo, n2),
        DistributePow2Net(payload, b + n2, lo + n2, Wrap(n1 - n2 + m, n1), e);
    SwappedThen(left, right, a1, a2, a[..]);
    SwappedThen(CrossRow(lo, n1, n2, false, m), Then(left, right), a0, a1, a[..]);
  }
}
