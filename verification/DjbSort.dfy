/**
  The in-place sorting routines: djbsort's loops over an array, for a caller's
  comparator and for a key array that carries a payload array along.
 */
module DjbSort {
  import opened Arithmetic
  import opened Networks
  import opened MergeExchangeNetwork

  // ---- Columns and rows that hold no comparator -----------------------------------

  lemma {:induction false} FirstRowSkips(n: nat, p: nat, start: nat, stop: nat)
    requires p > 0 && start <= stop
    requires forall x :: start <= x < stop ==> !Low(x, p) || x + p >= n
    ensures FirstRow(n, p, stop) == FirstRow(n, p, start)
    decreases stop
  {
    if start < stop { FirstRowSkips(n, p, start, stop - 1); }
  }

  /** Distances that reach beyond the last wire contribute nothing stop a column. */
  lemma {:induction false} ColumnSkips<T>(n: nat, e: nat, j: nat, t: nat, f: nat, s: seq<T>, gt: (T, T) -> bool)
    requires f <= t && |s| == n && (Low(j, Pow2(e)) ==> j + 2 * Pow2(f) >= n)
    ensures Fits(Column(n, e, j, t), n) && Fits(Column(n, e, j, f), n)
    ensures Run(Column(n, e, j, t), s, gt) == Run(Column(n, e, j, f), s, gt)
    decreases t
  {
    ColumnFits(n, e, j, t);
    ColumnFits(n, e, j, f);
    if f < t {
      Pow2Monotone(f, t);
      ColumnSkips(n, e, j, t - 1, f, s, gt);
    }
  }

  lemma {:induction false} ColumnsSkip<T>(n: nat, e: nat, t: nat, start: nat, stop: nat, s: seq<T>, gt: (T, T) -> bool)
    requires start <= stop && e <= t && |s| == n
    requires forall x :: start <= x < stop ==> !Low(x, Pow2(e)) || x + 2 * Pow2(e) >= n
    ensures Fits(Columns(n, e, t, stop), n) && Fits(Columns(n, e, t, start), n)
    ensures Run(Columns(n, e, t, stop), s, gt) == Run(Columns(n, e, t, start), s, gt)
    decreases stop
  {
    ColumnsFit(n, e, t, stop);
    ColumnsFit(n, e, t, start);
    if start < stop {
      ColumnsSkip(n, e, t, start, stop - 1, s, gt);
      var s1 := Run(Columns(n, e, t, stop - 1), s, gt);
      ColumnSkips(n, e, stop - 1, t, e, s1, gt);
    }
  }

  /** A block of `2p` wires that starts at `i`: `p` low ones, then `p` high ones. */
  lemma BlockOf(i: nat, p: nat)
    requires p > 0 && Multiple(i, 2 * p)
    ensures forall x: nat :: i <= x < i + p ==> Low(x, p)
    ensures forall x: nat :: i + p <= x < i + 2 * p ==> !Low(x, p)
    ensures Multiple(i + 2 * p, 2 * p)
  {
    forall x: nat | i <= x < i + 2 * p ensures Low(x, p) == (x - i < p) {
      LowShift(x - i, p, i);
    }
  }

  // ---- sort_by -------------------------------------------------------------------

  /** `now` is what `net` makes of `start`. */
  ghost predicate Reached<T>(net: Network, start: seq<T>, now: seq<T>, gt: (T, T) -> bool) {
    Fits(net, |start|) && now == Run(net, start, gt)
  }

  /** Nothing outside the slice `lo .. lo + n` differs. */
  ghost predicate SameOutside<T>(before: seq<T>, now: seq<T>, lo: nat, n: nat) {
    lo + n <= |before| == |now| && now[..lo] == before[..lo] && now[lo + n..] == before[lo + n..]
  }

  method MinMax<T>(a: array<T>, lo: nat, n: nat, i: nat, j: nat, gt: (T, T) -> bool)
    requires lo + n <= a.Length && i < n && j < n && i != j
    modifies a
    ensures Reached(One(i, j), old(a[lo..lo + n]), a[lo..lo + n], gt)
    ensures SameOutside(old(a[..]), a[..], lo, n)
  {
    var shouldSwap := gt(a[lo + i], a[lo + j]);
    if shouldSwap {
      a[lo + i], a[lo + j] := a[lo + j], a[lo + i];
    }
  }

  lemma CellReached<T>(n: nat, e: nat, j: nat, g: nat, s: seq<T>, s': seq<T>, final: seq<T>, gt: (T, T) -> bool)
    requires |s| == n && e < g && Low(j, Pow2(e)) && j + Pow2(g) < n
    requires Reached(Column(n, e, j, g), s, final, gt)
    requires Pow2(e) < Pow2(g) && s' == Exchange(s, j + Pow2(e), j + Pow2(g), gt)
    ensures Reached(Column(n, e, j, g - 1), s', final, gt)
  {
    var cell, rest := Cell(n, Pow2(e), j, Pow2(g)), Column(n, e, j, g - 1);
    assert Column(n, e, j, g) == Then(cell, rest);
    assert Run(cell, s, gt) == s';
  }

  lemma ColumnReached<T>(n: nat, e: nat, j: nat, s: seq<T>, final: seq<T>, gt: (T, T) -> bool)
    requires Reached(Column(n, e, j, e), s, final, gt)
    ensures s == final
  {
  }

  /** One comparison of a cascade: the element held in place of slot `i` against slot `j`. */
  method SwapHeld<T>(a: array<T>, lo: nat, n: nat, i: nat, j: nat, x: T, gt: (T, T) -> bool) returns (held: T)
    requires lo + n <= a.Length && i < j < n
    modifies a
    ensures a[lo..lo + n][i := held] == Exchange(old(a[lo..lo + n])[i := x], i, j, gt)
    ensures SameOutside(old(a[..]), a[..], lo, n)
  {
    held := x;
    var shouldSwap := gt(x, a[lo + j]);
    if shouldSwap {
      held := a[lo + j];
      a[lo + j] := x;
    }
  }

  lemma ColumnFrom<T>(n: nat, e: nat, j: nat, f: nat, s: seq<T>, gt: (T, T) -> bool) returns (final: seq<T>)
    requires |s| == n && e < f && Low(j, Pow2(e))
    ensures Reached(Column(n, e, j, f), s, final, gt)
  {
    ColumnFits(n, e, j, f);
    final := Run(Column(n, e, j, f), s, gt);
  }

  method Cascade<T>(a: array<T>, lo: nat, n: nat, j: nat, p: nat, q: nat, gt: (T, T) -> bool, ghost e: nat,
                    ghost f: nat)
    requires lo + n <= a.Length && p == Pow2(e) && q == Pow2(f) && e < f
    requires Low(j, p) && j + q < n
    modifies a
    ensures Reached(Column(n, e, j, f), old(a[lo..lo + n]), a[lo..lo + n], gt)
    ensures SameOutside(old(a[..]), a[..], lo, n)
  {
    hide Run, Fits, Low, Column, Reached, Exchange;
    Pow2Monotone(e, f);
    ghost var final := ColumnFrom(n, e, j, f, a[lo..lo + n], gt);
    var x := a[lo + j + p];
    var r := q;
    ghost var g := f;
    assert a[lo..lo + n][j + p := x] == a[lo..lo + n];
    assert Reached(Column(n, e, j, g), a[lo..lo + n][j + p := x], final, gt);
    while r > p
      invariant e <= g <= f && r == Pow2(g) && j + r < n && (g > e ==> r > p)
      invariant Reached(Column(n, e, j, g), a[lo..lo + n][j + p := x], final, gt)
      invariant SameOutside(old(a[..]), a[..], lo, n)
    {
      ghost var before := a[lo..lo + n][j + p := x];
      x := SwapHeld(a, lo, n, j + p, j + r, x, gt);
      CellReached(n, e, j, g, before, a[lo..lo + n][j + p := x], final, gt);
      r := r / 2;
      g := g - 1;
      if g > e { Pow2Monotone(e, g); }
    }
    ghost var last := a[lo..lo + n][j + p := x];
    ColumnReached(n, e, j, last, final, gt);
    a[lo + j + p] := x;
    assert a[lo..lo + n] == last;
  }

  lemma NothingReached<T>(n: nat, p: nat, s: seq<T>, gt: (T, T) -> bool)
    requires p > 0
    ensures Multiple(0, 2 * p) && Reached(FirstRow(n, p, 0), s, s, gt)
  {
  }

  lemma FirstRowReached<T>(n: nat, p: nat, j: nat, s: seq<T>, now: seq<T>, now': seq<T>, gt: (T, T) -> bool)
    requires p > 0 && Low(j, p) && j + p < n == |s|
    requires Reached(FirstRow(n, p, j), s, now, gt) && Reached(One(j, j + p), now, now', gt)
    ensures Reached(FirstRow(n, p, j + 1), s, now', gt)
  {
  }

  /** The first pass of a phase: the comparisons at distance `p`. */
  method FirstPass<T>(a: array<T>, lo: nat, n: nat, p: nat, gt: (T, T) -> bool)
    requires lo + n <= a.Length && p > 0
    modifies a
    ensures Reached(FirstRow(n, p, n), old(a[lo..lo + n]), a[lo..lo + n], gt)
    ensures SameOutside(old(a[..]), a[..], lo, n)
  {
    hide Run, Fits, Low, Multiple;
    ghost var s0 := a[lo..lo + n];
    NothingReached(n, p, s0, gt);
    var i := 0;
    while i + 2 * p <= n
      invariant i <= n && Multiple(i, 2 * p)
      invariant Reached(FirstRow(n, p, i), s0, a[lo..lo + n], gt)
      invariant SameOutside(old(a[..]), a[..], lo, n)
    {
      BlockOf(i, p);
      var k := 0;
      while k < p
        invariant k <= p
        invariant Reached(FirstRow(n, p, i + k), s0, a[lo..lo + n], gt)
        invariant SameOutside(old(a[..]), a[..], lo, n)
      {
        ghost var before := a[lo..lo + n];
        MinMax(a, lo, n, i + k, i + k + p, gt);
        FirstRowReached(n, p, i + k, s0, before, a[lo..lo + n], gt);
        k := k + 1;
      }
      FirstRowSkips(n, p, i + p, i + 2 * p);
      i := i + 2 * p;
    }
    BlockOf(i, p);
    var j := i;
    while j + p < n
      invariant i <= j <= n && (j == i || j + p <= n)
      invariant Reached(FirstRow(n, p, j), s0, a[lo..lo + n], gt)
      invariant SameOutside(old(a[..]), a[..], lo, n)
    {
      ghost var before := a[lo..lo + n];
      MinMax(a, lo, n, j, j + p, gt);
      FirstRowReached(n, p, j, s0, before, a[lo..lo + n], gt);
      j := j + 1;
    }
    FirstRowSkips(n, p, j, n);
  }

  lemma ColumnsReached<T>(n: nat, e: nat, t: nat, f: nat, j: nat, s: seq<T>, now: seq<T>, now': seq<T>,
                          gt: (T, T) -> bool)
    requires e < f <= t && |s| == n && j + 2 * Pow2(f) >= n
    requires Reached(Columns(n, e, t, j), s, now, gt) && Reached(Column(n, e, j, f), now, now', gt)
    ensures Reached(Columns(n, e, t, j + 1), s, now', gt)
  {
    ColumnSkips(n, e, j, t, f, now, gt);
    ColumnsFit(n, e, t, j + 1);
    assert Columns(n, e, t, j + 1) == Then(Columns(n, e, t, j), Column(n, e, j, t));
  }

  lemma ColumnsReachedSkip<T>(n: nat, e: nat, t: nat, start: nat, stop: nat, s: seq<T>, now: seq<T>, gt: (T, T) -> bool)
    requires start <= stop && e <= t && |s| == n
    requires forall x: nat :: start <= x < stop ==> !Low(x, Pow2(e)) || x + 2 * Pow2(e) >= n
    requires Reached(Columns(n, e, t, start), s, now, gt)
    ensures Reached(Columns(n, e, t, stop), s, now, gt)
  {
    ColumnsSkip(n, e, t, start, stop, s, gt);
  }

  /** The state of a cascade pass: every column before `j` has run, and only the slice changed. */
  ghost predicate ColumnsDone<T>(before: seq<T>, now: seq<T>, lo: nat, n: nat, e: nat, t: nat, j: nat,
                                 gt: (T, T) -> bool) {
    && SameOutside(before, now, lo, n)
    && Reached(Columns(n, e, t, j), before[lo..lo + n], now[lo..lo + n], gt)
  }

  /** One cascade, as a step of the pass. */
  method CascadeStep<T>(a: array<T>, lo: nat, n: nat, j: nat, p: nat, q: nat, gt: (T, T) -> bool,
                        ghost e: nat, ghost f: nat, ghost t: nat, ghost a0: seq<T>)
    requires p == Pow2(e) && q == Pow2(f) && e < f <= t
    requires ColumnsDone(a0, a[..], lo, n, e, t, j, gt)
    requires Low(j, p) && j + q < n <= j + 2 * q
    modifies a
    ensures ColumnsDone(a0, a[..], lo, n, e, t, j + 1, gt)
  {
    ghost var before := a[..];
    assert a[lo..lo + n] == before[lo..lo + n];
    Cascade(a, lo, n, j, p, q, gt, e, f);
    assert a[..][lo..lo + n] == a[lo..lo + n];
    ColumnsReached(n, e, t, f, j, a0[lo..lo + n], before[lo..lo + n], a[lo..lo + n], gt);
  }

  lemma ColumnsDoneSkip<T>(before: seq<T>, now: seq<T>, lo: nat, n: nat, e: nat, t: nat, start: nat, stop: nat,
                           gt: (T, T) -> bool)
    requires start <= stop && e <= t
    requires forall x: nat :: start <= x < stop ==> !Low(x, Pow2(e)) || x + 2 * Pow2(e) >= n
    requires ColumnsDone(before, now, lo, n, e, t, start, gt)
    ensures ColumnsDone(before, now, lo, n, e, t, stop, gt)
  {
    ColumnsReachedSkip(n, e, t, start, stop, before[lo..lo + n], now[lo..lo + n], gt);
  }

  /** Finishes, at distance `q`, the block at `i` that the previous distance left at column `j0`. */
  method FinishBlock<T>(a: array<T>, lo: nat, n: nat, i: nat, j0: nat, p: nat, q: nat, gt: (T, T) -> bool,
                        ghost e: nat, ghost f: nat, ghost t: nat, ghost a0: seq<T>)
    requires p == Pow2(e) && q == Pow2(f) && e < f <= t && 2 * p <= q
    requires Multiple(i, 2 * p) && i < j0 < i + p && j0 + 2 * q == n
    requires ColumnsDone(a0, a[..], lo, n, e, t, j0, gt)
    modifies a
    ensures ColumnsDone(a0, a[..], lo, n, e, t, i + 2 * p, gt)
  {
    BlockOf(i, p);
    var j := j0;
    while true
      invariant i < j < i + p && j + 2 * q >= n && i + 2 * q < n
      invariant ColumnsDone(a0, a[..], lo, n, e, t, j, gt)
      decreases i + p - j
    {
      if j + q == n {
        // The sort would halve `q` and retry here; no execution reaches it.
        assert false;
      }
      CascadeStep(a, lo, n, j, p, q, gt, e, f, t, a0);
      j := j + 1;
      if j == i + p {
        break;
      }
    }
    ColumnsDoneSkip(a0, a[..], lo, n, e, t, i + p, i + 2 * p, gt);
  }

  /** All blocks from `i0` on whose `p` cascades can all start at distance `q`. */
  method WholeBlocks<T>(a: array<T>, lo: nat, n: nat, i0: nat, p: nat, q: nat, gt: (T, T) -> bool,
                        ghost e: nat, ghost f: nat, ghost t: nat, ghost a0: seq<T>) returns (i: nat)
    requires p == Pow2(e) && q == Pow2(f) && e < f <= t && 2 * p <= q
    requires Multiple(i0, 2 * p) && i0 <= n <= i0 + 2 * q
    requires ColumnsDone(a0, a[..], lo, n, e, t, i0, gt)
    modifies a
    ensures Multiple(i, 2 * p) && i0 <= i <= n < i + p + q
    ensures ColumnsDone(a0, a[..], lo, n, e, t, i, gt)
  {
    i := i0;
    while i + p + q <= n
      invariant Multiple(i, 2 * p) && i0 <= i <= n
      invariant ColumnsDone(a0, a[..], lo, n, e, t, i, gt)
      decreases n - i
    {
      BlockOf(i, p);
      var k := 0;
      while k < p
        invariant k <= p
        invariant ColumnsDone(a0, a[..], lo, n, e, t, i + k, gt)
      {
        CascadeStep(a, lo, n, i + k, p, q, gt, e, f, t, a0);
        k := k + 1;
      }
      ColumnsDoneSkip(a0, a[..], lo, n, e, t, i + p, i + 2 * p, gt);
      i := i + 2 * p;
    }
  }

  /** The columns of the block at `i` that still have a comparator at distance `q`. */
  method StartBlock<T>(a: array<T>, lo: nat, n: nat, i: nat, p: nat, q: nat, gt: (T, T) -> bool,
                       ghost e: nat, ghost f: nat, ghost t: nat, ghost a0: seq<T>) returns (j: nat)
    requires p == Pow2(e) && q == Pow2(f) && e < f <= t && 2 * p <= q
    requires Multiple(i, 2 * p) && i <= n < i + p + q
    requires ColumnsDone(a0, a[..], lo, n, e, t, i, gt)
    modifies a
    ensures i <= j <= n <= j + q && (j != i ==> j < i + p && j + q == n)
    ensures ColumnsDone(a0, a[..], lo, n, e, t, j, gt)
  {
    BlockOf(i, p);
    j := i;
    while j + q < n
      invariant i <= j <= n && (j == i || j + q <= n)
      invariant ColumnsDone(a0, a[..], lo, n, e, t, j, gt)
      decreases n - j
    {
      CascadeStep(a, lo, n, j, p, q, gt, e, f, t, a0);
      j := j + 1;
    }
  }

  lemma NextDistance(e: nat, f: nat)
    requires e < f
    ensures Pow2(f) == 2 * Pow2(f - 1) && Pow2(f - 1) >= Pow2(e) && (f - 1 > e ==> Pow2(f - 1) > Pow2(e))
  {
    if f - 1 > e { Pow2Monotone(e, f - 1); }
  }

  lemma NothingDone<T>(a: seq<T>, lo: nat, n: nat, e: nat, t: nat, gt: (T, T) -> bool)
    requires lo + n <= |a| && e <= t
    ensures ColumnsDone(a, a, lo, n, e, t, 0, gt) && Multiple(0, 2 * Pow2(e))
    ensures lo == 0 && n == |a| ==> Reached(Columns(n, e, t, 0), a, a, gt)
  {
    if lo == 0 && n == |a| { assert a[lo..lo + n] == a; }
  }

  /**
    The rest of a phase: one cascade per low wire `j`, from left to right.  The
    distance `q` a cascade starts at shrinks as `j` approaches the end, so one
    block of `2p` wires may be finished at a smaller `q` than it was begun with.
   */
  method CascadePass<T>(a: array<T>, lo: nat, n: nat, p: nat, top: nat, gt: (T, T) -> bool, ghost e: nat, ghost t: nat)
    requires lo + n <= a.Length && e <= t && p == Pow2(e) && top == Pow2(t) && n <= 2 * top
    modifies a
    ensures ColumnsDone(old(a[..]), a[..], lo, n, e, t, n, gt)
  {
    hide Pow2, Multiple, Low, Columns, Reached, ColumnsDone;
    ghost var a0 := a[..];
    NothingDone(a0, lo, n, e, t, gt);
    var i, j, q := 0, 0, top;
    ghost var f := t;
    while q > p
      invariant e <= f <= t && q == Pow2(f) && (f == e ==> q == p)
      invariant 0 <= i <= j <= n && Multiple(i, 2 * p)
      invariant j + 2 * q >= n && (j != i ==> i < j < i + p && j + 2 * q == n)
      invariant ColumnsDone(a0, a[..], lo, n, e, t, j, gt)
      decreases q
    {
      DistanceIsMultiple(e, f);
      if j != i {
        BlockOf(i, p);
        FinishBlock(a, lo, n, i, j, p, q, gt, e, f, t, a0);
        i := i + 2 * p;
      }
      i := WholeBlocks(a, lo, n, i, p, q, gt, e, f, t, a0);
      j := StartBlock(a, lo, n, i, p, q, gt, e, f, t, a0);
      NextDistance(e, f);
      q := q / 2;
      f := f - 1;
    }
    ColumnsDoneSkip(a0, a[..], lo, n, e, t, j, n, gt);
  }

  lemma PhaseReached<T>(n: nat, t: nat, k: nat, s: seq<T>, s1: seq<T>, s2: seq<T>, final: seq<T>, gt: (T, T) -> bool)
    requires k > 0 && |s| == n
    requires Reached(Phases(n, t, k), s, final, gt)
    requires Reached(FirstRow(n, Pow2(k - 1), n), s, s1, gt)
    requires Reached(Columns(n, k - 1, t, n), s1, s2, gt)
    ensures Reached(Phases(n, t, k - 1), s2, final, gt)
  {
    PhasesFit(n, t, k - 1);
    var first, rest := FirstRow(n, Pow2(k - 1), n), Columns(n, k - 1, t, n);
    assert Phases(n, t, k) == Then(Then(first, rest), Phases(n, t, k - 1));
    assert Run(Then(first, rest), s, gt) == s2;
  }

  /** `top` as the loop at the head of the sort computes it. */
  method FindTop(n: nat) returns (top: nat, ghost t: nat)
    requires n >= 2
    ensures t == TopExponent(n) && top == Pow2(t)
  {
    top, t := 1, 0;
    while top < n - top
      invariant top == Pow2(t) && top < n && TopFrom(n, t) == TopExponent(n)
      decreases n - top
    {
      top := top + top;
      t := t + 1;
    }
  }

  /** `sort_by` on the slice `a[lo .. lo + n]`. */
  method SortBy<T>(a: array<T>, lo: nat, n: nat, gt: (T, T) -> bool)
    requires lo + n <= a.Length
    modifies a
    ensures Reached(MergeExchange(n), old(a[lo..lo + n]), a[lo..lo + n], gt)
    ensures SameOutside(old(a[..]), a[..], lo, n)
  {
    if n < 2 {
      return;
    }
    ghost var a0 := a[..];
    MergeExchangeFits(n);
    ghost var final := Run(MergeExchange(n), a[lo..lo + n], gt);
    ghost var t: nat;
    var top;
    top, t := FindTop(n);
    var p := top;
    ghost var k := t + 1;
    while p >= 1
      invariant 0 <= k <= t + 1 && p == (if k == 0 then 0 else Pow2(k - 1))
      invariant Reached(Phases(n, t, k), a[lo..lo + n], final, gt)
      invariant SameOutside(a0, a[..], lo, n)
      decreases p
    {
      ghost var s := a[lo..lo + n];
      FirstPass(a, lo, n, p, gt);
      ghost var a1 := a[..];
      assert a1[lo..lo + n] == a[lo..lo + n];
      CascadePass(a, lo, n, p, top, gt, k - 1, t);
      assert a[..][lo..lo + n] == a[lo..lo + n];
      PhaseReached(n, t, k, s, a1[lo..lo + n], a[lo..lo + n], final, gt);
      p := p / 2;
      k := k - 1;
    }
  }

  /** What `sort_by` promises: a sorted permutation, for every length and total preorder. */
  lemma SortBySorts<T(!new)>(before: seq<T>, after: seq<T>, gt: (T, T) -> bool)
    requires TotalPreorder(gt) && Reached(MergeExchange(|before|), before, after, gt)
    ensures Sorted(after, gt) && multiset(after) == multiset(before) && |after| == |before|
  {
    MergeExchangeSorts(before, gt);
  }

  // ---- sort_with_payload -----------------------------------------------------------

  /** The two arrays seen as one sequence of (key, payload) pairs. */
  ghost function Zip<T>(keys: seq<nat>, payloads: seq<T>): (r: seq<(nat, T)>)
    requires |keys| == |payloads|
    ensures |r| == |keys|
    ensures forall k :: 0 <= k < |r| ==> r[k] == (keys[k], payloads[k])
  {
    seq(|keys|, k requires 0 <= k < |keys| => (keys[k], payloads[k]))
  }

  predicate KeyGt<T>(a: (nat, T), b: (nat, T)) { a.0 > b.0 }

  method MinMaxWithPayload<T>(keys: array<nat>, payloads: array<T>, i: nat, j: nat)
    requires keys.Length == payloads.Length && keys as object != payloads as object
    requires i < keys.Length && j < keys.Length && i != j
    modifies keys, payloads
    ensures Reached(One(i, j), old(Zip(keys[..], payloads[..])), Zip(keys[..], payloads[..]), KeyGt)
  {
    ghost var z := Zip(keys[..], payloads[..]);
    var shouldSwap := keys[i] > keys[j];
    if shouldSwap {
      keys[i], keys[j] := keys[j], keys[i];
      payloads[i], payloads[j] := payloads[j], payloads[i];
    }
    assert Zip(keys[..], payloads[..]) == Exchange(z, i, j, KeyGt);
  }

  /** One comparison of a cascade: the pair held in place of slot `i` against slot `j`. */
  method CompareHeld<T>(keys: array<nat>, payloads: array<T>, i: nat, j: nat, key: nat, pay: T)
      returns (heldKey: nat, heldPay: T)
    requires keys.Length == payloads.Length && keys as object != payloads as object && i < j < keys.Length
    modifies keys, payloads
    ensures Zip(keys[..], payloads[..])[i := (heldKey, heldPay)]
            == Exchange(old(Zip(keys[..], payloads[..]))[i := (key, pay)], i, j, KeyGt)
  {
    heldKey, heldPay := key, pay;
    var shouldSwap := heldKey > keys[j];
    if shouldSwap {
      heldKey, keys[j] := keys[j], heldKey;
      heldPay, payloads[j] := payloads[j], heldPay;
    }
  }

  method CascadeWithPayload<T>(keys: array<nat>, payloads: array<T>, j: nat, p: nat, q: nat, ghost e: nat, ghost f: nat)
    requires keys.Length == payloads.Length && keys as object != payloads as object
    requires p == Pow2(e) && q == Pow2(f) && e < f && Low(j, p) && j + q < keys.Length
    modifies keys, payloads
    ensures Reached(Column(keys.Length, e, j, f), old(Zip(keys[..], payloads[..])), Zip(keys[..], payloads[..]), KeyGt)
  {
    ghost var n := keys.Length;
    hide Run, Fits, Low, Column, Reached, Exchange;
    Pow2Monotone(e, f);
    ghost var final := ColumnFrom(n, e, j, f, Zip(keys[..], payloads[..]), KeyGt);
    var aKey, aPay := keys[j + p], payloads[j + p];
    var r := q;
    ghost var g := f;
    ghost var now := Zip(keys[..], payloads[..]);
    while r > p
      invariant e <= g <= f && r == Pow2(g) && j + r < n && (g > e ==> r > p)
      invariant now == Zip(keys[..], payloads[..])[j + p := (aKey, aPay)]
      invariant Reached(Column(n, e, j, g), now, final, KeyGt)
    {
      aKey, aPay := CompareHeld(keys, payloads, j + p, j + r, aKey, aPay);
      ghost var next := Zip(keys[..], payloads[..])[j + p := (aKey, aPay)];
      CellReached(n, e, j, g, now, next, final, KeyGt);
      now := next;
      r := r / 2;
      g := g - 1;
      if g > e { Pow2Monotone(e, g); }
    }
    ColumnReached(n, e, j, now, final, KeyGt);
    keys[j + p] := aKey;
    payloads[j + p] := aPay;
    assert Zip(keys[..], payloads[..]) == now;
  }

  method FirstPassWithPayload<T>(keys: array<nat>, payloads: array<T>, p: nat)
    requires keys.Length == payloads.Length && keys as object != payloads as object && p > 0
    modifies keys, payloads
    ensures Reached(FirstRow(keys.Length, p, keys.Length), old(Zip(keys[..], payloads[..])),
                    Zip(keys[..], payloads[..]), KeyGt)
  {
    hide Run, Fits, Low, Multiple;
    var n := keys.Length;
    ghost var s0 := Zip(keys[..], payloads[..]);
    NothingReached(n, p, s0, KeyGt);
    var i := 0;
    while i + 2 * p <= n
      invariant i <= n && Multiple(i, 2 * p)
      invariant Reached(FirstRow(n, p, i), s0, Zip(keys[..], payloads[..]), KeyGt)
    {
      BlockOf(i, p);
      var k := 0;
      while k < p
        invariant k <= p
        invariant Reached(FirstRow(n, p, i + k), s0, Zip(keys[..], payloads[..]), KeyGt)
      {
        ghost var before := Zip(keys[..], payloads[..]);
        MinMaxWithPayload(keys, payloads, i + k, i + k + p);
        FirstRowReached(n, p, i + k, s0, before, Zip(keys[..], payloads[..]), KeyGt);
        k := k + 1;
      }
      FirstRowSkips(n, p, i + p, i + 2 * p);
      i := i + 2 * p;
    }
    BlockOf(i, p);
    var j := i;
    while j + p < n
      invariant i <= j <= n && (j == i || j + p <= n)
      invariant Reached(FirstRow(n, p, j), s0, Zip(keys[..], payloads[..]), KeyGt)
    {
      ghost var before := Zip(keys[..], payloads[..]);
      MinMaxWithPayload(keys, payloads, j, j + p);
      FirstRowReached(n, p, j, s0, before, Zip(keys[..], payloads[..]), KeyGt);
      j := j + 1;
    }
    FirstRowSkips(n, p, j, n);
  }

  method CascadeStepWithPayload<T>(keys: array<nat>, payloads: array<T>, j: nat, p: nat, q: nat,
                                   ghost e: nat, ghost f: nat, ghost t: nat, ghost s0: seq<(nat, T)>)
    requires keys.Length == payloads.Length == |s0| && keys as object != payloads as object
    requires p == Pow2(e) && q == Pow2(f) && e < f <= t
    requires Reached(Columns(|s0|, e, t, j), s0, Zip(keys[..], payloads[..]), KeyGt)
    requires Low(j, p) && j + q < |s0| <= j + 2 * q
    modifies keys, payloads
    ensures Reached(Columns(|s0|, e, t, j + 1), s0, Zip(keys[..], payloads[..]), KeyGt)
  {
    ghost var before := Zip(keys[..], payloads[..]);
    CascadeWithPayload(keys, payloads, j, p, q, e, f);
    ColumnsReached(|s0|, e, t, f, j, s0, before, Zip(keys[..], payloads[..]), KeyGt);
  }

  method FinishBlockWithPayload<T>(keys: array<nat>, payloads: array<T>, i: nat, j0: nat, p: nat, q: nat,
                                   ghost e: nat, ghost f: nat, ghost t: nat, ghost s0: seq<(nat, T)>)
    requires keys.Length == payloads.Length == |s0| && keys as object != payloads as object
    requires p == Pow2(e) && q == Pow2(f) && e < f <= t && 2 * p <= q
    requires Multiple(i, 2 * p) && i < j0 < i + p && j0 + 2 * q == |s0|
    requires Reached(Columns(|s0|, e, t, j0), s0, Zip(keys[..], payloads[..]), KeyGt)
    modifies keys, payloads
    ensures Reached(Columns(|s0|, e, t, i + 2 * p), s0, Zip(keys[..], payloads[..]), KeyGt)
  {
    BlockOf(i, p);
    var j := j0;
    while true
      invariant i < j < i + p && j + 2 * q >= |s0| && i + 2 * q < |s0|
      invariant Reached(Columns(|s0|, e, t, j), s0, Zip(keys[..], payloads[..]), KeyGt)
      decreases i + p - j
    {
      if j + q == keys.Length {
        // The sort would halve `q` and retry here; no execution reaches it.
        assert false;
      }
      CascadeStepWithPayload(keys, payloads, j, p, q, e, f, t, s0);
      j := j + 1;
      if j == i + p {
        break;
      }
    }
    ColumnsReachedSkip(|s0|, e, t, i + p, i + 2 * p, s0, Zip(keys[..], payloads[..]), KeyGt);
  }

  method WholeBlocksWithPayload<T>(keys: array<nat>, payloads: array<T>, i0: nat, p: nat, q: nat,
                                   ghost e: nat, ghost f: nat, ghost t: nat, ghost s0: seq<(nat, T)>) returns (i: nat)
    requires keys.Length == payloads.Length == |s0| && keys as object != payloads as object
    requires p == Pow2(e) && q == Pow2(f) && e < f <= t && 2 * p <= q
    requires Multiple(i0, 2 * p) && i0 <= |s0| <= i0 + 2 * q
    requires Reached(Columns(|s0|, e, t, i0), s0, Zip(keys[..], payloads[..]), KeyGt)
    modifies keys, payloads
    ensures Multiple(i, 2 * p) && i0 <= i <= |s0| < i + p + q
    ensures Reached(Columns(|s0|, e, t, i), s0, Zip(keys[..], payloads[..]), KeyGt)
  {
    i := i0;
    while i + p + q <= keys.Length
      invariant Multiple(i, 2 * p) && i0 <= i <= |s0|
      invariant Reached(Columns(|s0|, e, t, i), s0, Zip(keys[..], payloads[..]), KeyGt)
      decreases |s0| - i
    {
      BlockOf(i, p);
      var k := 0;
      while k < p
        invariant k <= p
        invariant Reached(Columns(|s0|, e, t, i + k), s0, Zip(keys[..], payloads[..]), KeyGt)
      {
        CascadeStepWithPayload(keys, payloads, i + k, p, q, e, f, t, s0);
        k := k + 1;
      }
      ColumnsReachedSkip(|s0|, e, t, i + p, i + 2 * p, s0, Zip(keys[..], payloads[..]), KeyGt);
      i := i + 2 * p;
    }
  }

  method StartBlockWithPayload<T>(keys: array<nat>, payloads: array<T>, i: nat, p: nat, q: nat,
                                  ghost e: nat, ghost f: nat, ghost t: nat, ghost s0: seq<(nat, T)>) returns (j: nat)
    requires keys.Length == payloads.Length == |s0| && keys as object != payloads as object
    requires p == Pow2(e) && q == Pow2(f) && e < f <= t && 2 * p <= q
    requires Multiple(i, 2 * p) && i <= |s0| < i + p + q
    requires |s0| <= i + 2 * q
    requires Reached(Columns(|s0|, e, t, i), s0, Zip(keys[..], payloads[..]), KeyGt)
    modifies keys, payloads
    ensures i <= j <= |s0| <= j + q && (j != i ==> j < i + p && j + q == |s0|)
    ensures Reached(Columns(|s0|, e, t, j), s0, Zip(keys[..], payloads[..]), KeyGt)
  {
    BlockOf(i, p);
    j := i;
    while j + q < keys.Length
      invariant i <= j <= |s0| && (j == i || j + q <= |s0|)
      invariant Reached(Columns(|s0|, e, t, j), s0, Zip(keys[..], payloads[..]), KeyGt)
      decreases |s0| - j
    {
      CascadeStepWithPayload(keys, payloads, j, p, q, e, f, t, s0);
      j := j + 1;
    }
  }

  method CascadePassWithPayload<T>(keys: array<nat>, payloads: array<T>, p: nat, top: nat, ghost e: nat, ghost t: nat)
    requires keys.Length == payloads.Length && keys as object != payloads as object
    requires e <= t && p == Pow2(e) && top == Pow2(t) && keys.Length <= 2 * top
    modifies keys, payloads
    ensures Reached(Columns(keys.Length, e, t, keys.Length), old(Zip(keys[..], payloads[..])),
                    Zip(keys[..], payloads[..]), KeyGt)
  {
    hide Pow2, Multiple, Low, Columns, Reached, Zip;
    ghost var n, s0 := keys.Length, Zip(keys[..], payloads[..]);
    NothingDone(s0, 0, n, e, t, KeyGt);
    var i, j, q := 0, 0, top;
    ghost var f := t;
    while q > p
      invariant e <= f <= t && q == Pow2(f) && (f == e ==> q == p)
      invariant 0 <= i <= j <= n && Multiple(i, 2 * p)
      invariant j + 2 * q >= n && (j != i ==> i < j < i + p && j + 2 * q == n)
      invariant Reached(Columns(n, e, t, j), s0, Zip(keys[..], payloads[..]), KeyGt)
      decreases q
    {
      DistanceIsMultiple(e, f);
      if j != i {
        BlockOf(i, p);
        FinishBlockWithPayload(keys, payloads, i, j, p, q, e, f, t, s0);
        i := i + 2 * p;
      }
      i := WholeBlocksWithPayload(keys, payloads, i, p, q, e, f, t, s0);
      j := StartBlockWithPayload(keys, payloads, i, p, q, e, f, t, s0);
      NextDistance(e, f);
      q := q / 2;
      f := f - 1;
    }
    ColumnsReachedSkip(n, e, t, j, n, s0, Zip(keys[..], payloads[..]), KeyGt);
  }

  /** `sort_with_payload`: sorts `keys` and moves `payloads` along. */
  method SortWithPayload<T>(keys: array<nat>, payloads: array<T>)
    requires keys.Length == payloads.Length && keys as object != payloads as object
    modifies keys, payloads
    ensures Reached(MergeExchange(keys.Length), old(Zip(keys[..], payloads[..])), Zip(keys[..], payloads[..]), KeyGt)
  {
    var n := keys.Length;
    if n < 2 {
      return;
    }
    MergeExchangeFits(n);
    ghost var final := Run(MergeExchange(n), Zip(keys[..], payloads[..]), KeyGt);
    ghost var t: nat;
    var top;
    top, t := FindTop(n);
    var p := top;
    ghost var k := t + 1;
    while p >= 1
      invariant 0 <= k <= t + 1 && p == (if k == 0 then 0 else Pow2(k - 1))
      invariant Reached(Phases(n, t, k), Zip(keys[..], payloads[..]), final, KeyGt)
      decreases p
    {
      ghost var s := Zip(keys[..], payloads[..]);
      FirstPassWithPayload(keys, payloads, p);
      ghost var s1 := Zip(keys[..], payloads[..]);
      CascadePassWithPayload(keys, payloads, p, top, k - 1, t);
      PhaseReached(n, t, k, s, s1, Zip(keys[..], payloads[..]), final, KeyGt);
      p := p / 2;
      k := k - 1;
    }
  }

  /**
    What `sort_with_payload` promises, for every length: the keys end up sorted,
    and the (key, payload) pairs are a permutation of what they were.
   */
  lemma SortWithPayloadSorts<T(!new)>(keys: seq<nat>, payloads: seq<T>, keys': seq<nat>, payloads': seq<T>)
    requires |keys| == |payloads| && |keys'| == |payloads'|
    requires Reached(MergeExchange(|keys|), Zip(keys, payloads), Zip(keys', payloads'), KeyGt)
    ensures |keys'| == |keys| && forall i, j :: 0 <= i < j < |keys'| ==> keys'[i] <= keys'[j]
    ensures multiset(Zip(keys', payloads')) == multiset(Zip(keys, payloads))
  {
    var before, after := Zip(keys, payloads), Zip(keys', payloads');
    MergeExchangeSorts(before, KeyGt);
    forall i, j | 0 <= i < j < |keys'| ensures keys'[i] <= keys'[j] {
      assert !KeyGt(after[i], after[j]);
    }
  }
}
