/**
  Reducing runs of adjacent real blocks that carry the same key: the last block of a
  run survives, with the run's sum and its smallest epoch; the others become dummies.
 */
module Reduction {
  import opened Blocks

  /** Does block `i` extend the run of block `i - 1`? */
  predicate Continues<V>(s: seq<Block<V>>, i: nat)
    requires i < |s|
  {
    i > 0 && s[i].Real() && s[i - 1].Real() && s[i].payload == s[i - 1].payload
  }

  /** Where the run that block `i` belongs to begins. */
  ghost function RunStart<V>(s: seq<Block<V>>, i: nat): (r: nat)
    requires i < |s|
    ensures r <= i
  {
    if Continues(s, i) then RunStart(s, i - 1) else i
  }

  /** The values of the run up to block `i`, added up. */
  ghost function RunValue<V>(m: Values<V>, s: seq<Block<V>>, i: nat): V
    requires i < |s|
  {
    if Continues(s, i) then m.plus(RunValue(m, s, i - 1), s[i].value) else s[i].value
  }

  function MinByte(a: Byte, b: Byte): Byte { if b < a then b else a }

  ghost function RunEpoch<V>(s: seq<Block<V>>, i: nat): Byte
    requires i < |s|
  {
    if Continues(s, i) then MinByte(RunEpoch(s, i - 1), s[i].epoch) else s[i].epoch
  }

  ghost function ReducedAt<V>(m: Values<V>, s: seq<Block<V>>, i: nat): Block<V>
    requires i < |s|
  {
    if !s[i].Real() then s[i]
    else Block(if i + 1 < |s| && Continues(s, i + 1) then 0 else s[i].tag, RunEpoch(s, i), RunValue(m, s, i),
               s[i].payload)
  }

  ghost function Reduced<V>(m: Values<V>, s: seq<Block<V>>): (r: seq<Block<V>>)
    ensures |r| == |s|
  {
    seq(|s|, i requires 0 <= i < |s| => ReducedAt(m, s, i))
  }

  /** Block `i` when the scan has reached it and not yet looked past it. */
  ghost function Pending<V>(m: Values<V>, s: seq<Block<V>>, i: nat): Block<V>
    requires i < |s|
  {
    if s[i].Real() then s[i].(value := RunValue(m, s, i), epoch := RunEpoch(s, i)) else s[i]
  }

  /** The array when the scan is about to look at block `i`. */
  ghost function Scanned<V>(m: Values<V>, s: seq<Block<V>>, i: nat): seq<Block<V>>
    requires 0 < i <= |s|
  {
    Reduced(m, s)[..i - 1] + [Pending(m, s, i - 1)] + s[i..]
  }

  lemma ScanStep<V>(m: Values<V>, s: seq<Block<V>>, i: nat)
    requires 0 < i < |s|
    ensures |Scanned(m, s, i)| == |s| && Scanned(m, s, i)[i] == s[i] && Scanned(m, s, i)[i - 1] == Pending(m, s, i - 1)
    ensures Scanned(m, s, i + 1) == Scanned(m, s, i)[i := Pending(m, s, i)][i - 1 := ReducedAt(m, s, i - 1)]
    ensures Continues(s, i) <==> s[i].payload == s[i - 1].payload && s[i].Real() && s[i - 1].Real()
    ensures Pending(m, s, i) == if s[i].Real() then s[i].(value := RunValue(m, s, i), epoch := RunEpoch(s, i)) else s[i]
    ensures Pending(m, s, i - 1).payload == s[i - 1].payload && Pending(m, s, i - 1).Real() == s[i - 1].Real()
    ensures ReducedAt(m, s, i - 1) == if Continues(s, i) then Pending(m, s, i - 1).(tag := 0) else Pending(m, s, i - 1)
    ensures RunValue(m, s, i) == if Continues(s, i) then m.plus(RunValue(m, s, i - 1), s[i].value) else s[i].value
    ensures RunEpoch(s, i) == if Continues(s, i) then MinByte(RunEpoch(s, i - 1), s[i].epoch) else s[i].epoch
  {
  }

  lemma ScanEnds<V>(m: Values<V>, s: seq<Block<V>>)
    requires s != []
    ensures RunValue(m, s, 0) == s[0].value && RunEpoch(s, 0) == s[0].epoch
    ensures Pending(m, s, 0) == (if s[0].Real() then s[0].(value := s[0].value, epoch := s[0].epoch) else s[0])
    ensures Scanned(m, s, 1) == s[0 := Pending(m, s, 0)] && Scanned(m, s, |s|) == Reduced(m, s)
  {
  }

  /** One step of the scan: one accumulator, one look back. */
  method ReduceNext<V>(m: Values<V>, blocks: array<Block<V>>, i: nat, accVal: V, accEpoch: Byte, ghost s: seq<Block<V>>)
      returns (val: V, epoch: Byte)
    requires 0 < i < blocks.Length == |s| && blocks[..] == Scanned(m, s, i)
    requires s[i - 1].Real() ==> accVal == RunValue(m, s, i - 1) && accEpoch == RunEpoch(s, i - 1)
    modifies blocks
    ensures blocks[..] == Scanned(m, s, i + 1)
    ensures s[i].Real() ==> val == RunValue(m, s, i) && epoch == RunEpoch(s, i)
  {
    hide RunValue, RunEpoch, ReducedAt, Reduced, Scanned, Pending, Continues, MinByte;
    ScanStep(m, s, i);
    var cur, prev := blocks[i], blocks[i - 1];
    var same := cur.payload == prev.payload && cur.Real() && prev.Real();
    var startNew := cur.Real() && !same;
    var combined, minEpoch := m.plus(accVal, cur.value), MinByte(accEpoch, cur.epoch);
    val := if startNew then cur.value else if same then combined else accVal;
    epoch := if startNew then cur.epoch else if same then minEpoch else accEpoch;
    blocks[i] := if cur.Real() then cur.(value := val, epoch := epoch) else cur;
    blocks[i - 1] := prev.(tag := if same then 0 else prev.tag);
  }

  /** `reduce_equal_runs`, in one scan. */
  method ReduceEqualRuns<V>(m: Values<V>, blocks: array<Block<V>>)
    modifies blocks
    ensures blocks[..] == Reduced(m, old(blocks[..]))
  {
    if blocks.Length == 0 {
      return;
    }
    hide RunValue, RunEpoch, Reduced, Scanned;
    ghost var s := blocks[..];
    ScanEnds(m, s);
    var accVal: V, accEpoch: Byte := m.zero, 0;
    if blocks[0].Real() {
      accVal, accEpoch := blocks[0].value, blocks[0].epoch;
      blocks[0] := blocks[0].(value := accVal, epoch := accEpoch);
    }
    for i := 1 to blocks.Length
      invariant blocks[..] == Scanned(m, s, i)
      invariant s[i - 1].Real() ==> accVal == RunValue(m, s, i - 1) && accEpoch == RunEpoch(s, i - 1)
    {
      accVal, accEpoch := ReduceNext(m, blocks, i, accVal, accEpoch, s);
    }
  }

  // ---- What reduction keeps and what it leaves -------------------------------------------

  /** Reducing a prefix differs from reducing the whole only in whether its last block survives. */
  lemma {:induction false} RunsOfPrefix<V>(m: Values<V>, s: seq<Block<V>>, n: nat, i: nat)
    requires i < n <= |s|
    ensures RunValue(m, s[..n], i) == RunValue(m, s, i) && RunEpoch(s[..n], i) == RunEpoch(s, i)
    ensures Continues(s[..n], i) == Continues(s, i)
  {
    if Continues(s, i) { RunsOfPrefix(m, s, n, i - 1); }
  }

  lemma ReducedPrefix<V>(m: Values<V>, s: seq<Block<V>>, n: nat)
    requires 0 < n < |s|
    ensures Reduced(m, s[..n])[..n - 1] == Reduced(m, s)[..n - 1]
    ensures var x := Reduced(m, s[..n])[n - 1];
      Reduced(m, s)[n - 1] == if Continues(s, n) then x.(tag := 0) else x
  {
    forall i | 0 <= i < n ensures RunValue(m, s[..n], i) == RunValue(m, s, i) && RunEpoch(s[..n], i) == RunEpoch(s, i)
      && Continues(s[..n], i) == Continues(s, i) { RunsOfPrefix(m, s, n, i); }
  }

  /** What one more block adds to a reduced prefix. */
  lemma ReducedStep<V(!new)>(m: Values<V>, a: V, x: Block<V>, y: Block<V>, z: Block<V>, p: Payload)
    requires Lawful(m) && x.Real() && y.Real() && x.payload == y.payload
    requires z == y.(value := m.plus(x.value, y.value), epoch := z.epoch)
    ensures m.plus(m.plus(a, Contribution(m, x.(tag := 0), p)), Contribution(m, z, p))
         == m.plus(m.plus(a, Contribution(m, x, p)), Contribution(m, y, p))
  {
    Laws(m, a, x.value, y.value);
    Laws(m, a, m.zero, m.zero);
  }

  lemma ReducedTail<V>(m: Values<V>, s: seq<Block<V>>, n: nat)
    requires n + 1 == |s| && n > 0
    ensures var r, r' := Reduced(m, s), Reduced(m, s[..n]);
      && r == r'[..n - 1] + [if Continues(s, n) then r'[n - 1].(tag := 0) else r'[n - 1]] + [r[n]]
      && r' == r'[..n - 1] + [r'[n - 1]]
      && (Continues(s, n) ==> r'[n - 1].Real() && r'[n - 1].payload == s[n].payload && s[n].Real()
                              && r[n] == s[n].(value := m.plus(r'[n - 1].value, s[n].value), epoch := r[n].epoch))
      && (!Continues(s, n) ==> r[n] == s[n])
  {
    ReducedPrefix(m, s, n);
    RunsOfPrefix(m, s, n, n - 1);
  }

  /** For any input order, reduction keeps the total of every key. */
  lemma {:induction false} ReducedKeepsTotals<V(!new)>(m: Values<V>, s: seq<Block<V>>, p: Payload)
    requires Lawful(m)
    ensures Total(m, Reduced(m, s), p) == Total(m, s, p)
  {
    hide Reduced, Total, Lawful, Continues;
    if |s| <= 1 {
      ReducedSingle(m, s);
    } else {
      var n := |s| - 1;
      ReducedKeepsTotals(m, s[..n], p);
      ReducedTail(m, s, n);
      var r, r' := Reduced(m, s), Reduced(m, s[..n]);
      var a, x := r'[..n - 1], r'[n - 1];
      var x' := if Continues(s, n) then x.(tag := 0) else x;
      assert s == s[..n] + [s[n]];
      TotalAppend(m, s[..n], s[n], p);
      TotalAppend(m, a, x, p);
      TotalAppend(m, a, x', p);
      TotalAppend(m, a + [x'], r[n], p);
      if Continues(s, n) { ReducedStep(m, Total(m, a, p), x, s[n], r[n], p); }
    }
  }

  lemma ReducedSingle<V>(m: Values<V>, s: seq<Block<V>>)
    requires |s| <= 1
    ensures Reduced(m, s) == s
  {
  }

  lemma TotalAppend<V>(m: Values<V>, s: seq<Block<V>>, x: Block<V>, p: Payload)
    ensures Total(m, s + [x], p) == m.plus(Total(m, s, p), Contribution(m, x, p))
  {
    assert (s + [x])[..|s + [x]| - 1] == s;
  }

  /** A survivor carries what its whole run held for its key, and the run's smallest epoch. */
  lemma {:induction false} SurvivorHoldsRun<V(!new)>(m: Values<V>, s: seq<Block<V>>, i: nat)
    requires Lawful(m) && i < |s| && s[i].Real()
    ensures var a := RunStart(s, i);
      && (forall k :: a <= k <= i ==> s[k].Real() && s[k].payload == s[i].payload && RunEpoch(s, i) <= s[k].epoch)
      && (exists k :: a <= k <= i && s[k].epoch == RunEpoch(s, i))
      && RunValue(m, s, i) == Total(m, s[a..i + 1], s[i].payload)
  {
    hide Lawful, Total;
    var a := RunStart(s, i);
    if Continues(s, i) {
      SurvivorHoldsRun(m, s, i - 1);
      assert s[a..i + 1] == s[a..i] + [s[i]];
      TotalAppend(m, s[a..i], s[i], s[i].payload);
      var k :| a <= k <= i - 1 && s[k].epoch == RunEpoch(s, i - 1);
      assert s[if s[i].epoch < RunEpoch(s, i - 1) then i else k].epoch == RunEpoch(s, i);
    } else {
      assert s[i..i + 1] == [s[i]];
      TotalOne(m, s[i], s[i].payload);
    }
  }

  /** Exactly the last block of each run survives. */
  lemma Survives<V>(m: Values<V>, s: seq<Block<V>>, i: nat)
    requires i < |s|
    ensures Reduced(m, s)[i].Real() <==> s[i].Real() && !(i + 1 < |s| && Continues(s, i + 1))
    ensures Reduced(m, s)[i].payload == s[i].payload
    ensures Reduced(m, s)[i].Real() ==> Reduced(m, s)[i].tag == s[i].tag
    ensures Reduced(m, s)[i].Real() ==> Reduced(m, s)[i].value == RunValue(m, s, i)
    ensures Reduced(m, s)[i].Real() ==> Reduced(m, s)[i].epoch == RunEpoch(s, i)
  {
  }

  /** The real blocks of `p` are adjacent. */
  ghost predicate Adjacent<V>(s: seq<Block<V>>, p: Payload) {
    forall i, j, k :: 0 <= i < j < k < |s| && Matches(s[i], p) && Matches(s[k], p) ==> Matches(s[j], p)
  }

  /** No two real blocks carry `p`. */
  ghost predicate Single<V>(s: seq<Block<V>>, p: Payload) {
    forall i, j :: 0 <= i < j < |s| && Matches(s[i], p) ==> !Matches(s[j], p)
  }

  /** When the blocks of a key are adjacent, at most one of them is left. */
  lemma AdjacentLeavesOne<V>(m: Values<V>, s: seq<Block<V>>, p: Payload)
    requires Adjacent(s, p)
    ensures Single(Reduced(m, s), p)
  {
    var r := Reduced(m, s);
    forall i, j | 0 <= i < j < |s| && Matches(r[i], p) ensures !Matches(r[j], p) {
      Survives(m, s, i);
      Survives(m, s, j);
      assert Matches(s[i], p);
      var next := s[i + 1];
      assert i + 1 < j && Matches(s[j], p) ==> Matches(next, p);
    }
  }

  /** The one block of a key carries its whole total. */
  lemma {:induction false} OneHoldsTotal<V(!new)>(m: Values<V>, s: seq<Block<V>>, i: nat)
    requires Lawful(m) && i < |s| && s[i].Real() && Single(s, s[i].payload)
    ensures Total(m, s, s[i].payload) == s[i].value
  {
    var p, a, c := s[i].payload, s[..i], s[i + 1..];
    assert s == a + [s[i]] + c;
    assert Matches(s[i], p);
    TotalRemove(m, s, i, p);
    TotalConcat(m, a, c, p);
    TotalAbsent(m, a, p);
    TotalAbsent(m, c, p);
    Laws(m, s[i].value, m.zero, m.zero);
    Laws(m, m.zero, m.zero, m.zero);
  }
}
