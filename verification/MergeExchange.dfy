/**
  Batcher's merge exchange, in the cascaded order of djbsort: why the comparisons
  made for one length sort every input of that length.
 */
module MergeExchangeNetwork {
  import opened Arithmetic
  import opened Networks

  /** The smallest power of two that is at least half of `n`, as an exponent. */
  function TopExponent(n: nat): (t: nat)
    requires n >= 2
    ensures n <= 2 * Pow2(t)
    ensures Pow2(t) < n
  {
    TopFrom(n, 0)
  }

  function TopFrom(n: nat, t: nat): (r: nat)
    requires n >= 2 && Pow2(t) < n
    ensures n <= 2 * Pow2(r) && Pow2(r) < n
    decreases n - Pow2(t)
  {
    if Pow2(t) < n - Pow2(t) then
      assert Pow2(t + 1) == 2 * Pow2(t);
      TopFrom(n, t + 1)
    else t
  }

  /** `w` lies in the first half of its block of `2p` wires. */
  predicate Low(w: nat, p: nat)
    requires p > 0
    decreases w
  {
    if w < 2 * p then w < p else Low(w - 2 * p, p)
  }

  // ---- The network -------------------------------------------------------------

  /** First pass with half-distance `p`: compare `j` with `j + p`, for each low `j < J`. */
  function FirstRow(n: nat, p: nat, J: nat): Network
    requires p > 0
  {
    if J == 0 then Empty
    else if Low(J - 1, p) && J - 1 + p < n then Then(FirstRow(n, p, J - 1), One(J - 1, J - 1 + p))
    else FirstRow(n, p, J - 1)
  }

  /** The comparator of column `j` at distance `q`, when it exists. */
  function Cell(n: nat, p: nat, j: nat, q: nat): Network
    requires p > 0
  {
    if Low(j, p) && j + q < n then One(j + p, j + q) else Empty
  }

  /** Column `j`: the cascade of comparators at distances `2^f, 2^(f-1), ..., 2p`, where `p = 2^e`. */
  function Column(n: nat, e: nat, j: nat, f: nat): Network {
    if f <= e then Empty else Then(Cell(n, Pow2(e), j, Pow2(f)), Column(n, e, j, f - 1))
  }

  /** djbsort's order: whole columns, from left to right. */
  function Columns(n: nat, e: nat, f: nat, J: nat): Network {
    if J == 0 then Empty else Then(Columns(n, e, f, J - 1), Column(n, e, J - 1, f))
  }

  /** Batcher's order: at one distance `q`, every column `j < J`. */
  function Row(n: nat, p: nat, q: nat, J: nat): Network
    requires p > 0
  {
    if J == 0 then Empty else Then(Row(n, p, q, J - 1), Cell(n, p, J - 1, q))
  }

  function Rows(n: nat, e: nat, f: nat, J: nat): Network {
    if f <= e then Empty else Then(Row(n, Pow2(e), Pow2(f), J), Rows(n, e, f - 1, J))
  }

  /** The phases for `p = 2^(k-1), ..., 2, 1`. */
  function Phases(n: nat, t: nat, k: nat): Network {
    if k == 0 then Empty
    else
      Then(Then(FirstRow(n, Pow2(k - 1), n), Columns(n, k - 1, t, n)), Phases(n, t, k - 1))
  }

  function MergeExchange(n: nat): Network {
    if n < 2 then Empty else Phases(n, TopExponent(n), TopExponent(n) + 1)
  }

  // ---- The network stays on its wires ---------------------------------------------

  lemma {:induction false} FirstRowFits(n: nat, p: nat, J: nat)
    requires p > 0
    ensures Fits(FirstRow(n, p, J), n)
  {
    if J > 0 { FirstRowFits(n, p, J - 1); }
  }

  lemma {:induction false} ColumnFits(n: nat, e: nat, j: nat, f: nat)
    ensures Fits(Column(n, e, j, f), n)
  {
    if f > e {
      ColumnFits(n, e, j, f - 1);
      Pow2Monotone(e, f);
    }
  }

  lemma {:induction false} ColumnsFit(n: nat, e: nat, f: nat, J: nat)
    ensures Fits(Columns(n, e, f, J), n)
  {
    if J > 0 {
      ColumnsFit(n, e, f, J - 1);
      ColumnFits(n, e, J - 1, f);
    }
  }

  lemma {:induction false} RowFits(n: nat, p: nat, q: nat, J: nat)
    requires 0 < p < q
    ensures Fits(Row(n, p, q, J), n)
  {
    if J > 0 { RowFits(n, p, q, J - 1); }
  }

  lemma {:induction false} RowsFit(n: nat, e: nat, f: nat, J: nat)
    ensures Fits(Rows(n, e, f, J), n)
  {
    if f > e {
      Pow2Monotone(e, f);
      RowFits(n, Pow2(e), Pow2(f), J);
      RowsFit(n, e, f - 1, J);
    }
  }

  lemma {:induction false} PhasesFit(n: nat, t: nat, k: nat)
    ensures Fits(Phases(n, t, k), n)
  {
    if k > 0 {
      FirstRowFits(n, Pow2(k - 1), n);
      ColumnsFit(n, k - 1, t, n);
      PhasesFit(n, t, k - 1);
    }
  }

  lemma MergeExchangeFits(n: nat)
    ensures Fits(MergeExchange(n), n)
  {
    if n >= 2 { PhasesFit(n, TopExponent(n), TopExponent(n) + 1); }
  }

  // ---- Low and high wires ---------------------------------------------------------

  lemma {:induction false} LowShift(w: nat, p: nat, d: nat)
    requires p > 0 && Multiple(d, 2 * p)
    ensures Low(w + d, p) == Low(w, p)
    decreases d
  {
    if d > 0 { LowShift(w, p, d - 2 * p); }
  }

  lemma {:induction false} LowHigh(w: nat, p: nat)
    requires p > 0
    ensures Low(w, p) ==> !Low(w + p, p)
    ensures !Low(w, p) ==> w >= p && Low(w - p, p)
    decreases w
  {
    if w >= 2 * p { LowHigh(w - 2 * p, p); }
  }

  /** Wires of a comparator at distance `q`: a high one and a low one. */
  lemma CellSides(p: nat, j: nat, q: nat)
    requires p > 0 && Low(j, p) && Multiple(q, 2 * p)
    ensures !Low(j + p, p) && Low(j + q, p)
  {
    LowHigh(j, p);
    LowShift(j, p, q);
  }

  lemma DistanceIsMultiple(e: nat, f: nat)
    requires e < f
    ensures Multiple(Pow2(f), 2 * Pow2(e)) && 2 * Pow2(e) <= Pow2(f)
  {
    assert Pow2(e + 1) == 2 * Pow2(e);
    Pow2Divides(e + 1, f);
    Pow2Monotone(e, f);
  }

  // ---- The cascaded order computes what the pass order computes ----------------------

  /** Comparators of earlier columns at smaller distances share no wire with column `J` at `q`. */
  lemma {:induction false} RowAvoids(n: nat, e: nat, f: nat, g: nat, J: nat, j: nat)
    requires e < f < g && J <= j && Low(j, Pow2(e))
    ensures !Touches(Row(n, Pow2(e), Pow2(f), J), j + Pow2(e))
    ensures !Touches(Row(n, Pow2(e), Pow2(f), J), j + Pow2(g))
  {
    if J > 0 {
      var p := Pow2(e);
      RowAvoids(n, e, f, g, J - 1, j);
      DistanceIsMultiple(e, f);
      DistanceIsMultiple(e, g);
      Pow2Monotone(f, g);
      CellSides(p, j, Pow2(g));
      if Low(J - 1, p) { CellSides(p, J - 1, Pow2(f)); }
    }
  }

  lemma {:induction false} RowsAvoid(n: nat, e: nat, f: nat, g: nat, J: nat, j: nat)
    requires f < g && e < g && J <= j && Low(j, Pow2(e))
    ensures !Touches(Rows(n, e, f, J), j + Pow2(e))
    ensures !Touches(Rows(n, e, f, J), j + Pow2(g))
  {
    if f > e {
      RowAvoids(n, e, f, g, J, j);
      RowsAvoid(n, e, f - 1, g, J, j);
    }
  }

  lemma CellAvoided(n: nat, e: nat, f: nat, J: nat)
    requires e < f
    ensures Cell(n, Pow2(e), J, Pow2(f)).Empty? || DisjointOne(Cell(n, Pow2(e), J, Pow2(f)), Rows(n, e, f - 1, J))
  {
    if Low(J, Pow2(e)) { RowsAvoid(n, e, f - 1, f, J, J); }
  }

  /** Adding one more column to all rows is the same as running that column last. */
  lemma {:induction false} RowsThenColumn<T>(n: nat, e: nat, f: nat, J: nat, s: seq<T>, gt: (T, T) -> bool)
    requires |s| == n
    requires Fits(Rows(n, e, f, J + 1), n) && Fits(Rows(n, e, f, J), n) && Fits(Column(n, e, J, f), n)
    ensures Run(Rows(n, e, f, J + 1), s, gt) == Run(Column(n, e, J, f), Run(Rows(n, e, f, J), s, gt), gt)
  {
    if f > e {
      var p, q := Pow2(e), Pow2(f);
      var s1 := Run(Row(n, p, q, J), s, gt);
      var cell := Cell(n, p, J, q);
      var s2 := Run(cell, s1, gt);
      RowsThenColumn(n, e, f - 1, J, s2, gt);
      CellAvoided(n, e, f, J);
      CommuteStep(cell, Rows(n, e, f - 1, J), s1, gt);
    }
  }

  /** djbsort's cascaded order is a legal reordering of Batcher's passes. */
  lemma {:induction false} ColumnsAreRows<T>(n: nat, e: nat, f: nat, J: nat, s: seq<T>, gt: (T, T) -> bool)
    requires |s| == n && Fits(Columns(n, e, f, J), n) && Fits(Rows(n, e, f, J), n)
    ensures Run(Columns(n, e, f, J), s, gt) == Run(Rows(n, e, f, J), s, gt)
  {
    if J == 0 {
      RowsOfNothing(n, e, f, s, gt);
    } else {
      RowsFit(n, e, f, J - 1);
      ColumnsAreRows(n, e, f, J - 1, s, gt);
      RowsThenColumn(n, e, f, J - 1, s, gt);
    }
  }

  lemma {:induction false} RowsOfNothing<T>(n: nat, e: nat, f: nat, s: seq<T>, gt: (T, T) -> bool)
    requires |s| == n && Fits(Rows(n, e, f, 0), n)
    ensures Run(Rows(n, e, f, 0), s, gt) == s
  {
    if f > e { RowsOfNothing(n, e, f - 1, s, gt); }
  }

  // ---- What the passes do to bits ----------------------------------------------------

  ghost predicate Stride(b: seq<bool>, d: nat) {
    forall i :: 0 <= i && i + d < |b| && b[i] ==> b[i + d]
  }

  lemma {:induction false} StrideMultiple(b: seq<bool>, d: nat, m: nat, i: nat)
    requires d > 0 && Stride(b, d) && Multiple(m, d) && i + m < |b| && b[i]
    ensures b[i + m]
    decreases m
  {
    if m > 0 { StrideMultiple(b, d, m - d, i + d); }
  }

  /** Between passes: both interleaved runs are sorted, and they are at most `Q` apart. */
  ghost predicate Interleaved(b: seq<bool>, p: nat, Q: nat)
    requires p > 0
  {
    && Stride(b, 2 * p)
    && (forall w {:trigger Low(w, p)} :: 0 <= w && w + p < |b| && Low(w, p) && b[w] ==> b[w + p])
    && (forall w {:trigger Low(w, p)} :: 0 <= w && w + Q < |b| && w + p < |b| && Low(w, p) && b[w + p] ==> b[w + Q])
  }

  ghost predicate AfterFirstRow(b: seq<bool>, r: seq<bool>, p: nat, J: nat)
    requires p > 0 && |r| == |b|
  {
    && (forall x {:trigger r[x]} :: 0 <= x < |b| && Low(x, p) ==>
          r[x] == (b[x] && (x < J && x + p < |b| ==> b[x + p])))
    && (forall x {:trigger r[x]} :: p <= x < |b| && !Low(x, p) ==>
          r[x] == (b[x] || (x - p < J && b[x - p])))
  }

  lemma FirstRowSwap(b: seq<bool>, r: seq<bool>, p: nat, j: nat)
    requires p > 0 && |r| == |b| && Low(j, p) && j + p < |b|
    requires AfterFirstRow(b, r, p, j)
    ensures AfterFirstRow(b, Exchange(r, j, j + p, BitGt), p, j + 1)
  {
    hide Low;
    LowHigh(j, p);
    var r' := Exchange(r, j, j + p, BitGt);
    assert r[j] == b[j] && r[j + p] == b[j + p];
    assert r'[j] == (b[j] && b[j + p]) && r'[j + p] == (b[j + p] || b[j]);
  }

  lemma FirstRowIdle(b: seq<bool>, r: seq<bool>, p: nat, j: nat)
    requires p > 0 && |r| == |b| && !(Low(j, p) && j + p < |b|)
    requires AfterFirstRow(b, r, p, j)
    ensures AfterFirstRow(b, r, p, j + 1)
  {
    hide Low;
    forall x: nat | !Low(x, p) ensures x >= p && Low(x - p, p) { LowHigh(x, p); }
  }

  lemma {:induction false} FirstRowEffect(n: nat, p: nat, J: nat, b: seq<bool>)
    requires p > 0 && |b| == n && Fits(FirstRow(n, p, J), n)
    ensures AfterFirstRow(b, Run(FirstRow(n, p, J), b, BitGt), p, J)
  {
    if J > 0 {
      var j := J - 1;
      FirstRowEffect(n, p, j, b);
      var r := Run(FirstRow(n, p, j), b, BitGt);
      hide AfterFirstRow;
      if Low(j, p) && j + p < n { FirstRowSwap(b, r, p, j); } else { FirstRowIdle(b, r, p, j); }
    } else {
      hide Low, Fits;
    }
  }

  ghost predicate AfterRow(b: seq<bool>, r: seq<bool>, p: nat, q: nat, J: nat)
    requires 0 < p < q && |r| == |b|
  {
    && (forall x {:trigger r[x]} :: 0 <= x < |b| && Low(x, p) ==>
          r[x] == (b[x] || (q <= x && x - q < J && b[x - q + p])))
    && (forall x {:trigger r[x]} :: p <= x < |b| && !Low(x, p) ==>
          r[x] == (b[x] && (x - p < J && x - p + q < |b| ==> b[x - p + q])))
  }

  lemma RowSwap(b: seq<bool>, r: seq<bool>, p: nat, q: nat, j: nat)
    requires 0 < p && 2 * p <= q && Multiple(q, 2 * p) && |r| == |b| && Low(j, p) && j + q < |b|
    requires AfterRow(b, r, p, q, j)
    ensures AfterRow(b, Exchange(r, j + p, j + q, BitGt), p, q, j + 1)
  {
    hide Multiple, Low;
    var r' := Exchange(r, j + p, j + q, BitGt);
    CellSides(p, j, q);
    assert r'[j + p] == (b[j + p] && b[j + q]) && r'[j + q] == (b[j + q] || b[j + p]);
    forall x | p <= x < |b| && !Low(x, p) && x - p == j ensures x == j + p {}
  }

  lemma RowIdle(b: seq<bool>, r: seq<bool>, p: nat, q: nat, j: nat)
    requires 0 < p && 2 * p <= q && Multiple(q, 2 * p) && |r| == |b| && !(Low(j, p) && j + q < |b|)
    requires AfterRow(b, r, p, q, j)
    ensures AfterRow(b, r, p, q, j + 1)
  {
    hide Multiple, Low;
    forall x | 0 <= x < |b| && Low(x, p) ensures r[x] == (b[x] || (q <= x && x - q < j + 1 && b[x - q + p])) {
      if x >= q { LowShift(x - q, p, q); }
    }
    forall x | p <= x < |b| && !Low(x, p)
      ensures r[x] == (b[x] && (x - p < j + 1 && x - p + q < |b| ==> b[x - p + q]))
    {
      LowHigh(x, p);
    }
  }

  lemma RowStep(b: seq<bool>, r: seq<bool>, p: nat, q: nat, j: nat)
    requires 0 < p && 2 * p <= q && Multiple(q, 2 * p) && |r| == |b|
    requires AfterRow(b, r, p, q, j)
    ensures Fits(Cell(|b|, p, j, q), |b|)
    ensures AfterRow(b, Run(Cell(|b|, p, j, q), r, BitGt), p, q, j + 1)
  {
    hide Multiple, Low, Run, AfterRow;
    RunStep(Cell(|b|, p, j, q), r, BitGt);
    if Low(j, p) && j + q < |b| {
      RowSwap(b, r, p, q, j);
    } else {
      RowIdle(b, r, p, q, j);
    }
  }

  lemma {:induction false} RowEffect(n: nat, p: nat, q: nat, J: nat, b: seq<bool>)
    requires 0 < p && 2 * p <= q && Multiple(q, 2 * p) && |b| == n && Fits(Row(n, p, q, J), n)
    ensures AfterRow(b, Run(Row(n, p, q, J), b, BitGt), p, q, J)
  {
    if J > 0 {
      RowEffect(n, p, q, J - 1, b);
      RowStep(b, Run(Row(n, p, q, J - 1), b, BitGt), p, q, J - 1);
    } else {
      hide Low, Multiple, Fits;
      RunStep(Empty, b, BitGt);
      hide Run;
    }
  }

  /** The first pass orders each low wire against its high partner. */
  lemma FirstRowInterleaves(n: nat, p: nat, Q: nat, b: seq<bool>)
    requires p > 0 && |b| == n <= Q && Stride(b, 2 * p) && Fits(FirstRow(n, p, n), n)
    ensures Interleaved(Run(FirstRow(n, p, n), b, BitGt), p, Q)
  {
    var r := Run(FirstRow(n, p, n), b, BitGt);
    FirstRowEffect(n, p, n, b);
    LowHighEverywhere(p);
    forall i | 0 <= i && i + 2 * p < n && r[i] ensures r[i + 2 * p] {
      LowShift(i, p, 2 * p);
      if !Low(i, p) { assert b[i] || b[i - p]; }
    }
  }

  lemma LowHighEverywhere(p: nat)
    requires p > 0
    ensures forall w: nat {:trigger Low(w, p)} :: Low(w, p) ==> !Low(w + p, p)
    ensures forall w: nat {:trigger Low(w, p)} :: !Low(w, p) ==> w >= p && Low(w - p, p)
  {
    forall w: nat ensures Low(w, p) ==> !Low(w + p, p) { LowHigh(w, p); }
    forall w: nat ensures !Low(w, p) ==> w >= p && Low(w - p, p) { LowHigh(w, p); }
  }

  lemma RowKeepsPair(b: seq<bool>, r: seq<bool>, p: nat, q: nat, w: nat)
    requires 0 < p && 2 * p <= q && Multiple(q, 2 * p) && |r| == |b|
    requires Interleaved(b, p, 2 * q) && AfterRow(b, r, p, q, |b|)
    requires w + p < |b| && Low(w, p) && r[w]
    ensures r[w + p]
  {
    hide Multiple, Low, Stride;
    LowHigh(w, p);
    if b[w] {
      if w + q < |b| { StrideMultiple(b, 2 * p, q, w); }
    } else {
      var v := w - q;
      LowShift(v, p, q);
      assert b[v + p] && Low(v, p);
      StrideMultiple(b, 2 * p, q, v + p);
    }
  }

  /** A pass at distance `q` halves how far apart the two interleaved runs can be. */
  lemma RowInterleaves(n: nat, p: nat, q: nat, b: seq<bool>)
    requires 0 < p && 2 * p <= q && Multiple(q, 2 * p) && |b| == n && Fits(Row(n, p, q, n), n)
    requires Interleaved(b, p, 2 * q)
    ensures Interleaved(Run(Row(n, p, q, n), b, BitGt), p, q)
  {
    var r := Run(Row(n, p, q, n), b, BitGt);
    RowEffect(n, p, q, n, b);
    hide Run, Row, Fits, Low, Multiple;
    RowKeepsStride(b, r, p, q);
    forall w | 0 <= w && w + p < n && Low(w, p) && r[w] ensures r[w + p] {
      RowKeepsPair(b, r, p, q, w);
    }
    forall w | 0 <= w && w + q < n && w + p < n && Low(w, p) && r[w + p] ensures r[w + q] {
      CellSides(p, w, q);
    }
  }

  lemma RowKeepsStride(b: seq<bool>, r: seq<bool>, p: nat, q: nat)
    requires 0 < p && 2 * p <= q && Multiple(q, 2 * p) && |b| == |r|
    requires Stride(b, 2 * p) && AfterRow(b, r, p, q, |b|)
    ensures Stride(r, 2 * p)
  {
    forall i | 0 <= i && i + 2 * p < |b| && r[i] ensures r[i + 2 * p] {
      LowShift(i, p, 2 * p);
      LowHigh(i, p);
      hide Low, Multiple;
      if Low(i, p) {
        if !b[i] { assert b[i - q + p + 2 * p]; }
      } else if i + 2 * p - p + q < |b| {
        assert b[i - p + q + 2 * p];
      }
    }
  }

  lemma {:induction false} RowsInterleave(n: nat, e: nat, f: nat, b: seq<bool>)
    requires e <= f && |b| == n && Fits(Rows(n, e, f, n), n)
    requires Interleaved(b, Pow2(e), 2 * Pow2(f))
    ensures Interleaved(Run(Rows(n, e, f, n), b, BitGt), Pow2(e), 2 * Pow2(e))
  {
    if f > e {
      DistanceIsMultiple(e, f);
      RowInterleaves(n, Pow2(e), Pow2(f), b);
      RowsInterleave(n, e, f - 1, Run(Row(n, Pow2(e), Pow2(f), n), b, BitGt));
    }
  }

  /** Two interleaved runs that are at most one step apart form a single run. */
  lemma InterleavedIsStride(b: seq<bool>, p: nat)
    requires p > 0 && Interleaved(b, p, 2 * p)
    ensures Stride(b, p)
  {
    forall i | 0 <= i && i + p < |b| && b[i] ensures b[i + p] {
      LowHigh(i, p);
      if !Low(i, p) {
        assert Low(i - p, p) && (i - p) + 2 * p == i + p;
      }
    }
  }

  /** One phase turns a `2p`-sorted bit sequence into a `p`-sorted one. */
  lemma PhaseSorts(n: nat, t: nat, e: nat, b: seq<bool>)
    requires e <= t && |b| == n <= 2 * Pow2(t) && Stride(b, 2 * Pow2(e))
    requires Fits(Then(FirstRow(n, Pow2(e), n), Columns(n, e, t, n)), n)
    ensures Stride(Run(Then(FirstRow(n, Pow2(e), n), Columns(n, e, t, n)), b, BitGt), Pow2(e))
  {
    var b1 := Run(FirstRow(n, Pow2(e), n), b, BitGt);
    FirstRowInterleaves(n, Pow2(e), 2 * Pow2(t), b);
    RowsFit(n, e, t, n);
    ColumnsAreRows(n, e, t, n, b1, BitGt);
    RowsInterleave(n, e, t, b1);
    InterleavedIsStride(Run(Columns(n, e, t, n), b1, BitGt), Pow2(e));
  }

  lemma {:induction false} PhasesSort(n: nat, t: nat, k: nat, b: seq<bool>)
    requires k <= t + 1 && |b| == n <= 2 * Pow2(t) && Stride(b, Pow2(k))
    requires Fits(Phases(n, t, k), n)
    ensures Stride(Run(Phases(n, t, k), b, BitGt), 1)
  {
    if k > 0 {
      var phase := Then(FirstRow(n, Pow2(k - 1), n), Columns(n, k - 1, t, n));
      PhaseSorts(n, t, k - 1, b);
      PhasesSort(n, t, k - 1, Run(phase, b, BitGt));
    }
  }

  lemma {:induction false} OneDivides(x: nat)
    ensures Multiple(x, 1)
  {
    if x > 0 { OneDivides(x - 1); }
  }

  lemma StrideOneSorted(b: seq<bool>)
    requires Stride(b, 1)
    ensures Sorted(b, BitGt)
  {
    forall i, j | 0 <= i < j < |b| && b[i] ensures b[j] {
      OneDivides(j - i);
      StrideMultiple(b, 1, j - i, i);
    }
  }

  lemma MergeExchangeSortsBits(b: seq<bool>)
    requires |b| >= 2
    requires Fits(MergeExchange(|b|), |b|)
    ensures Sorted(Run(MergeExchange(|b|), b, BitGt), BitGt)
  {
    var t := TopExponent(|b|);
    var k := t + 1;
    assert Pow2(k) == 2 * Pow2(t);
    PhasesSort(|b|, t, k, b);
    StrideOneSorted(Run(Phases(|b|, t, k), b, BitGt));
  }

  /** For every length and every total preorder, djbsort's comparisons sort. */
  lemma MergeExchangeSorts<T(!new)>(s: seq<T>, gt: (T, T) -> bool)
    requires TotalPreorder(gt)
    ensures Fits(MergeExchange(|s|), |s|)
    ensures Sorted(Run(MergeExchange(|s|), s, gt), gt)
    ensures multiset(Run(MergeExchange(|s|), s, gt)) == multiset(s)
  {
    MergeExchangeFits(|s|);
    var net := MergeExchange(|s|);
    var r := Run(net, s, gt);
    RunPermutes(net, s, gt);
    if |s| >= 2 {
      forall t ensures Sorted(Above(r, t, gt), BitGt) {
        ThresholdCommutes(net, s, t, gt);
        MergeExchangeSortsBits(Above(s, t, gt));
      }
      ZeroOne(r, gt);
    }
  }
}
