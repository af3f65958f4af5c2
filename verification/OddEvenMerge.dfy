/**
  Batcher's odd-even merge of two sorted runs of unequal length, on strided wires:
  the network, the recursive in-place procedure, and why the result is sorted.
 */
module OddEvenMerge {
  import opened Arithmetic
  import opened Networks
  import opened DjbSort

  type Wires = seq<nat>

  /** The wires in odd position, counting from one. */
  function OddWires(w: Wires): (r: Wires)
    ensures |w| <= 2 * |r| <= |w| + 1
  {
    seq((|w| + 1) / 2, i requires 0 <= i < (|w| + 1) / 2 => w[2 * i])
  }

  function EvenWires(w: Wires): (r: Wires)
    ensures |w| - 1 <= 2 * |r| <= |w|
  {
    seq(|w| / 2, i requires 0 <= i < |w| / 2 => w[2 * i + 1])
  }

  /** The odd wires of both runs: the wires of the first half-size merge. */
  function Odds(f: Wires, g: Wires): (r: Wires)
    ensures |r| == |OddWires(f)| + |OddWires(g)|
  {
    OddWires(f) + OddWires(g)
  }

  function Evens(f: Wires, g: Wires): (r: Wires)
    ensures |r| == |EvenWires(f)| + |EvenWires(g)|
  {
    EvenWires(f) + EvenWires(g)
  }

  /** After both halves are merged: even wire `i` against odd wire `i + 1`, for `i < k`. */
  function Fixup(evens: Wires, odds: Wires, k: nat): Network
    requires k <= |evens| && (k == 0 || k < |odds|)
  {
    if k == 0 then Empty else Then(Fixup(evens, odds, k - 1), One(evens[k - 1], odds[k]))
  }

  function FixupLength(evens: nat, odds: nat): (k: nat)
    ensures k <= evens && (k == 0 || k < odds)
  {
    if odds == 0 then 0 else if evens < odds - 1 then evens else odds - 1
  }

  function LastRow(f: Wires, g: Wires): Network {
    Fixup(Evens(f, g), Odds(f, g), FixupLength(|Evens(f, g)|, |Odds(f, g)|))
  }

  function MergeNetwork(f: Wires, g: Wires): Network
    decreases |f| + |g|
  {
    if |f| == 0 || |g| == 0 then Empty
    else if |f| == 1 && |g| == 1 then One(f[0], g[0])
    else
      var odd, even := MergeNetwork(OddWires(f), OddWires(g)), MergeNetwork(EvenWires(f), EvenWires(g));
      Then(Then(odd, even), LastRow(f, g))
  }

  function OddMerge(f: Wires, g: Wires): Network { MergeNetwork(OddWires(f), OddWires(g)) }

  function EvenMerge(f: Wires, g: Wires): Network { MergeNetwork(EvenWires(f), EvenWires(g)) }

  ghost predicate Proper(w: Wires, n: nat) {
    && (forall i :: 0 <= i < |w| ==> w[i] < n)
    && (forall i, j :: 0 <= i < j < |w| ==> w[i] != w[j])
  }

  // ---- Which wires it uses --------------------------------------------------------

  lemma HalvesOf(f: Wires, g: Wires, n: nat)
    requires Proper(f + g, n)
    ensures Proper(Odds(f, g), n) && Proper(Evens(f, g), n)
    ensures forall x :: x in Odds(f, g) ==> x in f + g && x !in Evens(f, g)
    ensures forall x :: x in Evens(f, g) ==> x in f + g
  {
    var odds, evens, w, m := Odds(f, g), Evens(f, g), f + g, |f|;
    forall i | 0 <= i < |odds| ensures OddAt(m, i) < |w| && odds[i] == w[OddAt(m, i)] {}
    forall i | 0 <= i < |evens| ensures EvenAt(m, i) < |w| && evens[i] == w[EvenAt(m, i)] {}
    hide OddWires, EvenWires;
    forall i, j | 0 <= i < |odds| && 0 <= j < |evens| ensures odds[i] != evens[j] {
      assert OddAt(m, i) != EvenAt(m, j);
    }
    forall i, j | 0 <= i < j < |odds| ensures odds[i] != odds[j] { assert OddAt(m, i) != OddAt(m, j); }
    forall i, j | 0 <= i < j < |evens| ensures evens[i] != evens[j] { assert EvenAt(m, i) != EvenAt(m, j); }
  }

  /** Where odd wire `i` of two runs sits in their concatenation, the first run being `m` long. */
  function OddAt(m: nat, i: nat): nat {
    if i < (m + 1) / 2 then 2 * i else m + 2 * (i - (m + 1) / 2)
  }

  function EvenAt(m: nat, i: nat): nat {
    if i < m / 2 then 2 * i + 1 else m + 2 * (i - m / 2) + 1
  }

  lemma {:induction false} FixupUses(evens: Wires, odds: Wires, k: nat, n: nat)
    requires k <= |evens| && (k == 0 || k < |odds|)
    requires Proper(evens, n) && Proper(odds, n) && forall x :: x in odds ==> x !in evens
    ensures Fits(Fixup(evens, odds, k), n)
    ensures forall x :: Touches(Fixup(evens, odds, k), x) ==> x in evens || x in odds
  {
    if k > 0 {
      FixupUses(evens, odds, k - 1, n);
      assert evens[k - 1] in evens && odds[k] in odds;
    }
  }

  lemma {:induction false} MergeUses(f: Wires, g: Wires, n: nat)
    requires Proper(f + g, n)
    ensures Fits(MergeNetwork(f, g), n)
    ensures forall x :: Touches(MergeNetwork(f, g), x) ==> x in f + g
    decreases |f| + |g|
  {
    if |f| == 0 || |g| == 0 {
    } else if |f| == 1 && |g| == 1 {
      assert (f + g)[0] == f[0] && (f + g)[1] == g[0];
    } else {
      var odds, evens := Odds(f, g), Evens(f, g);
      HalvesOf(f, g, n);
      MergeUses(OddWires(f), OddWires(g), n);
      MergeUses(EvenWires(f), EvenWires(g), n);
      FixupUses(evens, odds, FixupLength(|evens|, |odds|), n);
    }
  }

  // ---- It merges sorted bits --------------------------------------------------------

  /** Read along `w`, the bits are `z` zeros followed by ones. */
  ghost predicate StepAt(b: seq<bool>, w: Wires, z: nat) {
    z <= |w| && forall i :: 0 <= i < |w| ==> w[i] < |b| && (b[w[i]] <==> z <= i)
  }

  lemma {:induction false} FixupEffect(evens: Wires, odds: Wires, k: nat, b: seq<bool>)
    requires k <= |evens| && (k == 0 || k < |odds|)
    requires Proper(evens, |b|) && Proper(odds, |b|) && (forall x :: x in odds ==> x !in evens)
    requires Fits(Fixup(evens, odds, k), |b|)
    ensures AfterFixup(b, Run(Fixup(evens, odds, k), b, BitGt), odds, evens, k)
  {
    if k > 0 {
      FixupEffect(evens, odds, k - 1, b);
      var r := Run(Fixup(evens, odds, k - 1), b, BitGt);
      assert Run(Fixup(evens, odds, k), b, BitGt) == Exchange(r, evens[k - 1], odds[k], BitGt);
      hide AfterFixup, Proper, Run, Fixup, Fits;
      FixupStep(evens, odds, k, b, r);
    }
  }

  lemma FixupStep(evens: Wires, odds: Wires, k: nat, b: seq<bool>, r: seq<bool>)
    requires 0 < k <= |evens| && k < |odds| && |r| == |b|
    requires Proper(evens, |b|) && Proper(odds, |b|) && (forall x :: x in odds ==> x !in evens)
    requires AfterFixup(b, r, odds, evens, k - 1)
    ensures evens[k - 1] < |b| && odds[k] < |b|
    ensures AfterFixup(b, Exchange(r, evens[k - 1], odds[k], BitGt), odds, evens, k)
  {
    assert evens[k - 1] in evens && odds[k] in odds;
    forall i | 0 <= i < |evens| ensures evens[i] in evens && evens[i] != odds[k] {}
    forall i | 0 <= i < |odds| ensures odds[i] in odds && odds[i] != evens[k - 1] {}
  }

  lemma HalvesStep(b: seq<bool>, w: Wires, z: nat)
    requires StepAt(b, w, z)
    ensures StepAt(b, OddWires(w), (z + 1) / 2) && StepAt(b, EvenWires(w), z / 2)
  {
  }

  ghost predicate Avoids(net: Network, w: Wires) {
    forall x :: x in w ==> !Touches(net, x)
  }

  lemma StepFrame(net: Network, b: seq<bool>, w: Wires, z: nat)
    requires Fits(net, |b|) && StepAt(b, w, z)
    requires Avoids(net, w)
    ensures StepAt(Run(net, b, BitGt), w, z)
  {
    forall i | 0 <= i < |w| ensures Run(net, b, BitGt)[w[i]] == b[w[i]] {
      assert w[i] in w;
      RunFrame(net, b, BitGt, w[i]);
    }
  }

  /** `v` zeros on the odd wires and `w` on the even ones, as the last row leaves them. */
  lemma FixupCounts(odds: nat, evens: nat, v: nat, w: nat, j: nat)
    requires w <= v <= w + 2 && v <= odds && w <= evens && evens <= odds <= evens + 1
    ensures j < odds ==> ((v <= j || (0 < j <= FixupLength(evens, odds) && w <= j - 1)) <==> v + w <= 2 * j)
    ensures j < evens ==> ((w <= j && (j < FixupLength(evens, odds) ==> v <= j + 1)) <==> v + w <= 2 * j + 1)
  {
  }

  lemma Interleave(f: Wires, g: Wires, i: nat)
    requires |f| == 2 * |OddWires(f)| && i < |f + g|
    ensures i % 2 == 0 ==> (f + g)[i] == (Odds(f, g))[i / 2]
    ensures i % 2 == 1 ==> (f + g)[i] == (Evens(f, g))[i / 2]
  {
  }

  ghost predicate AfterFixup(b: seq<bool>, r: seq<bool>, odds: Wires, evens: Wires, k: nat)
    requires k <= |evens| && (k == 0 || k < |odds|) && |r| == |b|
    requires Proper(evens, |b|) && Proper(odds, |b|)
  {
    && (forall i :: 0 <= i < |evens| ==> r[evens[i]] == (b[evens[i]] && (i < k ==> b[odds[i + 1]])))
    && (forall i :: 0 <= i < |odds| ==> r[odds[i]] == (b[odds[i]] || (0 < i <= k && b[evens[i - 1]])))
  }

  lemma FixupAt(f: Wires, g: Wires, k: nat, b: seq<bool>, r: seq<bool>, v: nat, w: nat, i: nat)
    requires |f| == 2 * |OddWires(f)| && |r| == |b| && w <= v <= w + 2 && |f| > 0
    requires k == FixupLength(|Evens(f, g)|, |Odds(f, g)|)
    requires Proper(Evens(f, g), |b|) && Proper(Odds(f, g), |b|)
    requires StepAt(b, Odds(f, g), v) && StepAt(b, Evens(f, g), w) && AfterFixup(b, r, Odds(f, g), Evens(f, g), k)
    requires i < |f + g|
    ensures (f + g)[i] < |b| && (r[(f + g)[i]] <==> v + w <= i)
  {
    var odds, evens := Odds(f, g), Evens(f, g);
    Interleave(f, g, i);
    FixupCounts(|odds|, |evens|, v, w, i / 2);
    hide OddWires, EvenWires, Odds, Evens;
    var j := i / 2;
    if i % 2 == 0 {
      assert (f + g)[i] == odds[j];
      assert b[odds[j]] <==> v <= j;
      if 0 < j <= k { assert b[evens[j - 1]] <==> w <= j - 1; }
    } else {
      assert (f + g)[i] == evens[j];
      assert b[evens[j]] <==> w <= j;
      if j < k { assert b[odds[j + 1]] <==> v <= j + 1; }
    }
  }

  /** The last row of comparators repairs the one misplaced pair there can be. */
  lemma FixupSorts(f: Wires, g: Wires, b: seq<bool>, v: nat, w: nat)
    requires |f| == 2 * |OddWires(f)| && |f| > 0 && |g| > 0 && Proper(f + g, |b|) && w <= v <= w + 2
    requires StepAt(b, Odds(f, g), v) && StepAt(b, Evens(f, g), w)
    requires Fits(LastRow(f, g), |b|)
    ensures StepAt(Run(LastRow(f, g), b, BitGt), f + g, v + w)
  {
    var k := FixupLength(|Evens(f, g)|, |Odds(f, g)|);
    HalvesOf(f, g, |b|);
    FixupEffect(Evens(f, g), Odds(f, g), k, b);
    var r := Run(LastRow(f, g), b, BitGt);
    hide Run, LastRow, Fixup, OddWires, EvenWires, Odds, Evens, FixupLength, AfterFixup, Proper;
    forall i | 0 <= i < |f + g| ensures (f + g)[i] < |b| && (r[(f + g)[i]] <==> v + w <= i) {
      FixupAt(f, g, k, b, r, v, w, i);
    }
  }

  lemma MergeTrivial(f: Wires, g: Wires, b: seq<bool>, x: nat, y: nat)
    requires (|g| == 0 || |f| == 1 == |g|) && Proper(f + g, |b|) && Fits(MergeNetwork(f, g), |b|)
    requires StepAt(b, f, x) && StepAt(b, g, y)
    ensures StepAt(Run(MergeNetwork(f, g), b, BitGt), f + g, x + y)
  {
    var net := MergeNetwork(f, g);
    if |g| == 0 {
      assert net == Empty && f + g == f;
    } else {
      assert net == One(f[0], g[0]) && f + g == [f[0], g[0]];
      assert (f + g)[0] == f[0] && (f + g)[1] == g[0];
    }
    hide MergeNetwork, Fits;
    RunStep(net, b, BitGt);
    hide Run;
  }

  lemma MergeParts(f: Wires, g: Wires, n: nat)
    requires (|f| > 1 || |g| > 1) && |f| > 0 && |g| > 0 && Proper(f + g, n) && Fits(MergeNetwork(f, g), n)
    ensures Odds(f, g) == OddWires(f) + OddWires(g) && Evens(f, g) == EvenWires(f) + EvenWires(g)
    ensures Proper(Odds(f, g), n) && Proper(Evens(f, g), n)
    ensures Fits(OddMerge(f, g), n) && Fits(EvenMerge(f, g), n) && Fits(LastRow(f, g), n)
    ensures Avoids(EvenMerge(f, g), Odds(f, g))
    ensures Avoids(OddMerge(f, g), EvenWires(f)) && Avoids(OddMerge(f, g), EvenWires(g))
  {
    HalvesOf(f, g, n);
    MergeUses(OddWires(f), OddWires(g), n);
    MergeUses(EvenWires(f), EvenWires(g), n);
  }

  lemma MergeUnfolds(f: Wires, g: Wires, b: seq<bool>)
    requires (|f| > 1 || |g| > 1) && |f| > 0 && |g| > 0 && Fits(MergeNetwork(f, g), |b|)
    ensures Fits(OddMerge(f, g), |b|) && Fits(EvenMerge(f, g), |b|) && Fits(LastRow(f, g), |b|)
    ensures Run(MergeNetwork(f, g), b, BitGt)
         == Run(LastRow(f, g), Run(EvenMerge(f, g), Run(OddMerge(f, g), b, BitGt), BitGt), BitGt)
  {
    assert MergeNetwork(f, g) == Then(Then(OddMerge(f, g), EvenMerge(f, g)), LastRow(f, g));
  }

  /** Merging the odd wires and the even wires of two runs. */
  lemma {:induction false} MergeHalves(f: Wires, g: Wires, a: nat, b: seq<bool>, xo: nat, xe: nat, yo: nat, ye: nat)
    requires |f| == 2 * Pow2(a) && 0 < |g| <= |f| && Proper(f + g, |b|) && Fits(MergeNetwork(f, g), |b|)
    requires StepAt(b, OddWires(f), xo) && StepAt(b, EvenWires(f), xe)
    requires StepAt(b, OddWires(g), yo) && StepAt(b, EvenWires(g), ye)
    ensures Fits(OddMerge(f, g), |b|) && Fits(EvenMerge(f, g), |b|)
    ensures StepAt(Run(EvenMerge(f, g), Run(OddMerge(f, g), b, BitGt), BitGt), Odds(f, g), xo + yo)
    ensures StepAt(Run(EvenMerge(f, g), Run(OddMerge(f, g), b, BitGt), BitGt), Evens(f, g), xe + ye)
    decreases |f| + |g|, 0
  {
    hide Pow2, MergeNetwork, OddWires, EvenWires, Odds, Evens, LastRow, Run, Fits, StepAt, Touches, Avoids, Proper;
    MergeParts(f, g, |b|);
    var b1 := Run(OddMerge(f, g), b, BitGt);
    MergeSortsBits(OddWires(f), OddWires(g), a, b, xo, yo);
    StepFrame(EvenMerge(f, g), b1, Odds(f, g), xo + yo);
    StepFrame(OddMerge(f, g), b, EvenWires(f), xe);
    StepFrame(OddMerge(f, g), b, EvenWires(g), ye);
    MergeSortsBits(EvenWires(f), EvenWires(g), a, b1, xe, ye);
  }

  lemma MergeStep(f: Wires, g: Wires, a: nat, b: seq<bool>, xo: nat, xe: nat, yo: nat, ye: nat) returns (r: seq<bool>)
    requires |f| == 2 * |OddWires(f)| && |f| == 2 * Pow2(a) && 0 < |g| <= |f| && 0 < |f|
    requires Proper(f + g, |b|) && Fits(MergeNetwork(f, g), |b|)
    requires StepAt(b, OddWires(f), xo) && StepAt(b, EvenWires(f), xe) && xe <= xo <= xe + 1
    requires StepAt(b, OddWires(g), yo) && StepAt(b, EvenWires(g), ye) && ye <= yo <= ye + 1
    ensures r == Run(MergeNetwork(f, g), b, BitGt) && StepAt(r, f + g, (xo + yo) + (xe + ye))
    decreases |f| + |g|, 1
  {
    hide *;
    MergeHalves(f, g, a, b, xo, xe, yo, ye);
    MergeUnfolds(f, g, b);
    var b2 := Run(EvenMerge(f, g), Run(OddMerge(f, g), b, BitGt), BitGt);
    FixupSorts(f, g, b2, xo + yo, xe + ye);
    r := Run(LastRow(f, g), b2, BitGt);
  }

  /** Merging on bits, for a first run of power-of-two length and any second run no longer. */
  lemma {:induction false} MergeSortsBits(f: Wires, g: Wires, a: nat, b: seq<bool>, x: nat, y: nat)
    requires |f| == Pow2(a) && |g| <= |f| && Proper(f + g, |b|) && Fits(MergeNetwork(f, g), |b|)
    requires StepAt(b, f, x) && StepAt(b, g, y)
    ensures StepAt(Run(MergeNetwork(f, g), b, BitGt), f + g, x + y)
    decreases |f| + |g|, 2
  {
    hide Run, StepAt, MergeNetwork, Fits, Proper;
    if |g| == 0 || |f| == 1 {
      MergeTrivial(f, g, b, x, y);
    } else {
      HalvesStep(b, f, x);
      HalvesStep(b, g, y);
      var _ := MergeStep(f, g, a - 1, b, (x + 1) / 2, x / 2, (y + 1) / 2, y / 2);
      assert (x + 1) / 2 + (y + 1) / 2 + (x / 2 + y / 2) == x + y;
    }
  }

  // ---- Any total preorder ------------------------------------------------------------

  /** The wires `start, start + stride, ...`. */
  function WiresOf(start: nat, stride: nat, len: nat): (r: Wires)
    ensures |r| == len
  {
    seq(len, i => start + i * stride)
  }

  /** Sorted bits are zeros followed by ones. */
  lemma {:induction false} SortedBitsStep(b: seq<bool>) returns (z: nat)
    requires Sorted(b, BitGt)
    ensures z <= |b| && forall i :: 0 <= i < |b| ==> (b[i] <==> z <= i)
  {
    z := 0;
    while z < |b| && !b[z]
      invariant z <= |b| && forall i :: 0 <= i < z ==> !b[i]
    {
      z := z + 1;
    }
    forall i | z <= i < |b| ensures b[i] {
      assert !BitGt(b[z], b[i]) || i == z;
    }
  }

  lemma AdjacentRuns(m: nat, n: nat)
    requires m <= n
    ensures Proper(WiresOf(0, 1, m) + WiresOf(m, 1, n - m), n)
    ensures WiresOf(0, 1, m) + WiresOf(m, 1, n - m) == WiresOf(0, 1, n)
  {
  }

  /** Sorted bits, and sorted bits read along wires `start, start + 1, ...`. */
  lemma StepOfRun(b: seq<bool>, start: nat, len: nat) returns (z: nat)
    requires start + len <= |b| && Sorted(b[start..start + len], BitGt)
    ensures StepAt(b, WiresOf(start, 1, len), z)
  {
    var run, w := b[start..start + len], WiresOf(start, 1, len);
    z := SortedBitsStep(run);
    forall i | 0 <= i < |w| ensures w[i] < |b| && b[w[i]] == run[i] {}
  }

  lemma StepIsSorted(b: seq<bool>, z: nat)
    requires StepAt(b, WiresOf(0, 1, |b|), z)
    ensures Sorted(b, BitGt)
  {
    var w := WiresOf(0, 1, |b|);
    forall i | 0 <= i < |b| ensures b[i] <==> z <= i { assert w[i] == i; }
  }

  function AdjacentMerge(m: nat, n: nat): Network
    requires m <= n
  {
    MergeNetwork(WiresOf(0, 1, m), WiresOf(m, 1, n - m))
  }

  lemma Halves<T>(s: seq<T>, m: nat)
    requires m <= |s|
    ensures s[0..0 + m] == s[..m] && s[m..m + (|s| - m)] == s[m..]
  {
  }

  lemma MergeSortsAdjacentBits(b: seq<bool>, a: nat)
    requires Pow2(a) <= |b| <= 2 * Pow2(a)
    requires Sorted(b[..Pow2(a)], BitGt) && Sorted(b[Pow2(a)..], BitGt)
    requires Fits(AdjacentMerge(Pow2(a), |b|), |b|)
    ensures Sorted(Run(AdjacentMerge(Pow2(a), |b|), b, BitGt), BitGt)
  {
    var m := Pow2(a);
    hide *;
    Halves(b, m);
    var f, g := WiresOf(0, 1, m), WiresOf(m, 1, |b| - m);
    AdjacentRuns(m, |b|);
    var x := StepOfRun(b, 0, m);
    var y := StepOfRun(b, m, |b| - m);
    AdjacentMergeIs(m, |b|);
    MergeSortsBits(f, g, a, b, x, y);
    StepIsSorted(Run(AdjacentMerge(m, |b|), b, BitGt), x + y);
  }

  lemma AdjacentMergeIs(m: nat, n: nat)
    requires m <= n
    ensures AdjacentMerge(m, n) == MergeNetwork(WiresOf(0, 1, m), WiresOf(m, 1, n - m))
    ensures Fits(AdjacentMerge(m, n), n)
  {
    AdjacentRuns(m, n);
    MergeUses(WiresOf(0, 1, m), WiresOf(m, 1, n - m), n);
  }

  /**
    Two sorted runs, the first of power-of-two length and at least as long as the
    second, become one sorted permutation.
   */
  lemma MergeSorts<T(!new)>(s: seq<T>, a: nat, gt: (T, T) -> bool)
    requires TotalPreorder(gt) && Pow2(a) <= |s| <= 2 * Pow2(a)
    requires Sorted(s[..Pow2(a)], gt) && Sorted(s[Pow2(a)..], gt)
    ensures Fits(AdjacentMerge(Pow2(a), |s|), |s|)
    ensures Sorted(Run(AdjacentMerge(Pow2(a), |s|), s, gt), gt)
    ensures multiset(Run(AdjacentMerge(Pow2(a), |s|), s, gt)) == multiset(s)
  {
    hide *;
    var net := AdjacentMerge(Pow2(a), |s|);
    AdjacentMergeIs(Pow2(a), |s|);
    RunPermutes(net, s, gt);
    forall t ensures Sorted(Above(Run(net, s, gt), t, gt), BitGt) {
      MergeSortsThreshold(s, a, t, gt);
    }
    ZeroOne(Run(net, s, gt), gt);
  }

  lemma MergeSortsThreshold<T(!new)>(s: seq<T>, a: nat, t: T, gt: (T, T) -> bool)
    requires TotalPreorder(gt) && Pow2(a) <= |s| <= 2 * Pow2(a)
    requires Sorted(s[..Pow2(a)], gt) && Sorted(s[Pow2(a)..], gt)
    requires Fits(AdjacentMerge(Pow2(a), |s|), |s|)
    ensures Sorted(Above(Run(AdjacentMerge(Pow2(a), |s|), s, gt), t, gt), BitGt)
  {
    hide *;
    var m, bits := Pow2(a), Above(s, t, gt);
    ThresholdCommutes(AdjacentMerge(m, |s|), s, t, gt);
    SortedAbove(s[..m], t, gt);
    SortedAbove(s[m..], t, gt);
    assert bits[..m] == Above(s[..m], t, gt) && bits[m..] == Above(s[m..], t, gt);
    MergeSortsAdjacentBits(bits, a);
  }

  lemma SortedAbove<T(!new)>(s: seq<T>, t: T, gt: (T, T) -> bool)
    requires TotalPreorder(gt) && Sorted(s, gt)
    ensures Sorted(Above(s, t, gt), BitGt)
  {
    forall i, j | 0 <= i < j < |s| ensures gt(s[i], t) ==> gt(s[j], t) {
      assert gt(s[i], t) ==> gt(s[i], s[j]) || gt(s[j], t);
    }
  }

  // ---- The in-place procedure --------------------------------------------------------

  /** Wire `index` of a first strided run followed by a second one. */
  function ConcatWire(firstStart: nat, firstStride: nat, firstLen: nat, secondStart: nat, secondStride: nat,
                      index: nat): (w: nat)
  {
    if index < firstLen then firstStart + index * firstStride
    else secondStart + (index - firstLen) * secondStride
  }

  lemma ConcatWireIs(firstStart: nat, firstStride: nat, firstLen: nat, secondStart: nat, secondStride: nat,
                     secondLen: nat, index: nat)
    requires index < firstLen + secondLen
    ensures ConcatWire(firstStart, firstStride, firstLen, secondStart, secondStride, index)
         == (WiresOf(firstStart, firstStride, firstLen) + WiresOf(secondStart, secondStride, secondLen))[index]
  {
  }

  /** Every second wire of a strided run is a strided run. */
  lemma StridedHalves(start: nat, stride: nat, len: nat)
    ensures OddWires(WiresOf(start, stride, len)) == WiresOf(start, stride * 2, (len + 1) / 2)
    ensures EvenWires(WiresOf(start, stride, len)) == WiresOf(start + stride, stride * 2, len / 2)
  {
    var w := WiresOf(start, stride, len);
    forall i: nat ensures (2 * i) * stride == i * (stride * 2) && (2 * i + 1) * stride == stride + i * (stride * 2) {}
    assert |OddWires(w)| == (len + 1) / 2 && |EvenWires(w)| == len / 2;
  }

  /** The state of a merge on the slice `lo .. lo + n`: `net` has run, and only the slice changed. */
  ghost predicate Done<T>(net: Network, before: seq<T>, now: seq<T>, lo: nat, n: nat, gt: (T, T) -> bool) {
    && SameOutside(before, now, lo, n)
    && Reached(net, before[lo..lo + n], now[lo..lo + n], gt)
  }

  lemma DoneThen<T>(first: Network, second: Network, s0: seq<T>, s1: seq<T>, s2: seq<T>, lo: nat, n: nat,
                    gt: (T, T) -> bool)
    requires Done(first, s0, s1, lo, n, gt) && Done(second, s1, s2, lo, n, gt)
    ensures Done(Then(first, second), s0, s2, lo, n, gt)
  {
  }

  lemma DoneNothing<T>(s: seq<T>, lo: nat, n: nat, gt: (T, T) -> bool)
    requires lo + n <= |s|
    ensures Done(Empty, s, s, lo, n, gt)
  {
  }

  method Compare<T>(a: array<T>, lo: nat, n: nat, i: nat, j: nat, gt: (T, T) -> bool)
    requires lo + n <= a.Length && i < n && j < n && i != j
    modifies a
    ensures Done(One(i, j), old(a[..]), a[..], lo, n, gt)
  {
    ghost var a0 := a[..];
    assert a0[lo..lo + n] == a[lo..lo + n];
    MinMax(a, lo, n, i, j, gt);
    assert a[..][lo..lo + n] == a[lo..lo + n];
  }

  lemma MergeNetworkCases(f: Wires, g: Wires)
    ensures |f| == 0 || |g| == 0 ==> MergeNetwork(f, g) == Empty
    ensures |f| == 1 && |g| == 1 ==> MergeNetwork(f, g) == One(f[0], g[0])
    ensures |f| > 0 && |g| > 0 && (|f| > 1 || |g| > 1) ==>
      MergeNetwork(f, g) == Then(Then(OddMerge(f, g), EvenMerge(f, g)), LastRow(f, g))
  {
  }

  /** The comparators of the last row, in the order of the merge's closing loop. */
  method MergeLastRow<T>(a: array<T>, lo: nat, n: nat,
                         firstStart: nat, firstStride: nat, firstLen: nat,
                         secondStart: nat, secondStride: nat, secondLen: nat, gt: (T, T) -> bool)
    requires lo + n <= a.Length
    requires Proper(WiresOf(firstStart, firstStride, firstLen) + WiresOf(secondStart, secondStride, secondLen), n)
    modifies a
    ensures Done(LastRow(WiresOf(firstStart, firstStride, firstLen), WiresOf(secondStart, secondStride, secondLen)),
                 old(a[..]), a[..], lo, n, gt)
  {
    ghost var f, g := WiresOf(firstStart, firstStride, firstLen), WiresOf(secondStart, secondStride, secondLen);
    hide *;
    var firstOddLen, secondOddLen := (firstLen + 1) / 2, (secondLen + 1) / 2;
    var firstEvenLen, secondEvenLen := firstLen / 2, secondLen / 2;
    var oddLen, evenLen := firstOddLen + secondOddLen, firstEvenLen + secondEvenLen;
    StridedHalves(firstStart, firstStride, firstLen);
    StridedHalves(secondStart, secondStride, secondLen);
    assert |Evens(f, g)| == evenLen && |Odds(f, g)| == oddLen;
    var stop := FixupLength(evenLen, oddLen);
    ghost var a0 := a[..];
    LastRowUnfolds(f, g, Odds(f, g), Evens(f, g), stop);
    DoneNothing(a[..], lo, n, gt);
    for i := 0 to stop
      invariant Done(Fixup(Evens(f, g), Odds(f, g), i), a0, a[..], lo, n, gt)
    {
      var evenWire := ConcatWire(firstStart + firstStride, firstStride * 2, firstEvenLen, secondStart + secondStride,
                                 secondStride * 2, i);
      var nextOddWire := ConcatWire(firstStart, firstStride * 2, firstOddLen, secondStart, secondStride * 2, i + 1);
      LastRowWires(firstStart, firstStride, firstLen, secondStart, secondStride, secondLen, n, i);
      ghost var a1 := a[..];
      Compare(a, lo, n, evenWire, nextOddWire, gt);
      DoneThen(Fixup(Evens(f, g), Odds(f, g), i), One(evenWire, nextOddWire), a0, a1, a[..], lo, n, gt);
      FixupUnfolds(Evens(f, g), Odds(f, g), i);
    }
  }

  lemma LastRowWires(firstStart: nat, firstStride: nat, firstLen: nat,
                     secondStart: nat, secondStride: nat, secondLen: nat, n: nat, i: nat)
    requires Proper(WiresOf(firstStart, firstStride, firstLen) + WiresOf(secondStart, secondStride, secondLen), n)
    requires i < firstLen / 2 + secondLen / 2 && i + 1 < (firstLen + 1) / 2 + (secondLen + 1) / 2
    ensures var f, g := WiresOf(firstStart, firstStride, firstLen), WiresOf(secondStart, secondStride, secondLen);
      var evenWire := ConcatWire(firstStart + firstStride, firstStride * 2, firstLen / 2, secondStart + secondStride,
                                 secondStride * 2, i);
      var oddWire := ConcatWire(firstStart, firstStride * 2, (firstLen + 1) / 2, secondStart, secondStride * 2, i + 1);
      && i < |Evens(f, g)| && evenWire == Evens(f, g)[i] && evenWire < n
      && i + 1 < |Odds(f, g)| && oddWire == Odds(f, g)[i + 1] && oddWire < n
      && evenWire != oddWire
  {
    var f, g := WiresOf(firstStart, firstStride, firstLen), WiresOf(secondStart, secondStride, secondLen);
    StridedHalves(firstStart, firstStride, firstLen);
    StridedHalves(secondStart, secondStride, secondLen);
    HalvesOf(f, g, n);
    ConcatWireIs(firstStart + firstStride, firstStride * 2, firstLen / 2, secondStart + secondStride, secondStride * 2,
                 secondLen / 2, i);
    ConcatWireIs(firstStart, firstStride * 2, (firstLen + 1) / 2, secondStart, secondStride * 2, (secondLen + 1) / 2,
                 i + 1);
    hide WiresOf, OddWires, EvenWires, ConcatWire;
    assert Evens(f, g)[i] in Evens(f, g) && Odds(f, g)[i + 1] in Odds(f, g);
  }

  lemma LastRowUnfolds(f: Wires, g: Wires, odds: Wires, evens: Wires, stop: nat)
    requires odds == Odds(f, g) && evens == Evens(f, g) && stop == FixupLength(|evens|, |odds|)
    ensures LastRow(f, g) == Fixup(evens, odds, stop) && Fixup(evens, odds, 0) == Empty
    ensures odds == OddWires(f) + OddWires(g) && evens == EvenWires(f) + EvenWires(g)
  {
  }

  lemma FixupUnfolds(evens: Wires, odds: Wires, i: nat)
    requires i < |evens| && i + 1 < |odds|
    ensures Fixup(evens, odds, i + 1) == Then(Fixup(evens, odds, i), One(evens[i], odds[i + 1]))
  {
  }

  /** `odd_even_merge_by_raw`: merges two strided runs in place, on the slice `lo .. lo + n`. */
  method OddEvenMergeByRaw<T>(a: array<T>, lo: nat, n: nat,
                              firstStart: nat, firstStride: nat, firstLen: nat,
                              secondStart: nat, secondStride: nat, secondLen: nat, gt: (T, T) -> bool)
    requires lo + n <= a.Length
    requires Proper(WiresOf(firstStart, firstStride, firstLen) + WiresOf(secondStart, secondStride, secondLen), n)
    modifies a
    ensures Done(MergeNetwork(WiresOf(firstStart, firstStride, firstLen),
                              WiresOf(secondStart, secondStride, secondLen)), old(a[..]), a[..], lo, n, gt)
    decreases firstLen + secondLen
  {
    ghost var f, g := WiresOf(firstStart, firstStride, firstLen), WiresOf(secondStart, secondStride, secondLen);
    hide MergeNetwork, OddWires, EvenWires, Odds, Evens, LastRow, Fixup, Done;
    MergeNetworkCases(f, g);
    if firstLen == 0 || secondLen == 0 {
      DoneNothing(a[..], lo, n, gt);
      return;
    }
    if firstLen == 1 && secondLen == 1 {
      assert (f + g)[0] == f[0] == firstStart && (f + g)[1] == g[0] == secondStart;
      Compare(a, lo, n, firstStart, secondStart, gt);
      return;
    }
    StridedHalves(firstStart, firstStride, firstLen);
    StridedHalves(secondStart, secondStride, secondLen);
    OddsAndEvens(f, g, n);
    hide WiresOf, Proper;
    var firstOddLen, secondOddLen := (firstLen + 1) / 2, (secondLen + 1) / 2;
    var firstEvenLen, secondEvenLen := firstLen / 2, secondLen / 2;
    ghost var a0 := a[..];
    OddEvenMergeByRaw(a, lo, n, firstStart, firstStride * 2, firstOddLen, secondStart, secondStride * 2, secondOddLen,
                      gt);
    ghost var a1 := a[..];
    OddEvenMergeByRaw(a, lo, n, firstStart + firstStride, firstStride * 2, firstEvenLen,
                      secondStart + secondStride, secondStride * 2, secondEvenLen, gt);
    ghost var a2 := a[..];
    MergeLastRow(a, lo, n, firstStart, firstStride, firstLen, secondStart, secondStride, secondLen, gt);
    DoneThen(OddMerge(f, g), EvenMerge(f, g), a0, a1, a2, lo, n, gt);
    DoneThen(Then(OddMerge(f, g), EvenMerge(f, g)), LastRow(f, g), a0, a2, a[..], lo, n, gt);
  }

  lemma OddsAndEvens(f: Wires, g: Wires, n: nat)
    requires Proper(f + g, n)
    ensures Proper(OddWires(f) + OddWires(g), n) && Proper(EvenWires(f) + EvenWires(g), n)
  {
    HalvesOf(f, g, n);
  }

  predicate IsPowerOfTwo(n: nat) {
    n == 1 || (n > 1 && n % 2 == 0 && IsPowerOfTwo(n / 2))
  }

  lemma {:induction false} PowerOfTwoExponent(n: nat) returns (a: nat)
    requires IsPowerOfTwo(n)
    ensures n == Pow2(a)
  {
    if n == 1 {
      a := 0;
    } else {
      var b := PowerOfTwoExponent(n / 2);
      a := b + 1;
    }
  }

  lemma MergeNothing(n: nat)
    ensures AdjacentMerge(n, n) == Empty
  {
  }

  /**
    `merge_sorted_by` on the slice `lo .. lo + n`, split after `split` elements.
    The merge's assertions become `ok`.
   */
  method MergeSortedBy<T>(a: array<T>, lo: nat, n: nat, split: nat, gt: (T, T) -> bool) returns (ok: bool)
    requires lo + n <= a.Length
    modifies a
    ensures ok == (split <= n && (split == 0 || split == n ||
                     (IsPowerOfTwo(split) && IsPowerOfTwo(n - split) && n - split <= split)))
    ensures !ok ==> a[..] == old(a[..])
    ensures ok ==> Done(if split == 0 then Empty else AdjacentMerge(split, n), old(a[..]), a[..], lo, n, gt)
  {
    hide Done, MergeNetwork, AdjacentMerge, Proper;
    if split > n {
      return false;
    }
    MergeNothing(n);
    AdjacentMergeIs(split, n);
    var secondLen := n - split;
    if split == 0 || secondLen == 0 {
      DoneNothing(a[..], lo, n, gt);
      return true;
    }
    if !IsPowerOfTwo(split) || !IsPowerOfTwo(secondLen) || split < secondLen {
      return false;
    }
    AdjacentRuns(split, n);
    OddEvenMergeByRaw(a, lo, n, 0, 1, split, split, 1, secondLen, gt);
    return true;
  }

  /** What `merge_sorted_by` promises: two sorted runs become one sorted permutation. */
  lemma MergeSortedBySorts<T(!new)>(before: seq<T>, after: seq<T>, lo: nat, n: nat, split: nat, gt: (T, T) -> bool)
    requires TotalPreorder(gt) && lo + n <= |before| && split <= n
    requires split == 0 || split == n || (IsPowerOfTwo(split) && n - split <= split)
    requires Sorted(before[lo..lo + split], gt) && Sorted(before[lo + split..lo + n], gt)
    requires Done(if split == 0 then Empty else AdjacentMerge(split, n), before, after, lo, n, gt)
    ensures Sorted(after[lo..lo + n], gt) && multiset(after[lo..lo + n]) == multiset(before[lo..lo + n])
  {
    var s := before[lo..lo + n];
    assert s[..split] == before[lo..lo + split] && s[split..] == before[lo + split..lo + n];
    if split == 0 {
      assert s[split..] == s;
    } else if split == n {
      assert s[..split] == s && AdjacentMerge(split, n) == Empty;
    } else {
      var a := PowerOfTwoExponent(split);
      MergeSorts(s, a, gt);
    }
  }
}
