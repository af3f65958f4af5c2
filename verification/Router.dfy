/**
  Routing a compacted run of blocks to bins of fixed size: the loads of the bins, the
  marks of the slots to fill, and what distribution then puts where.  The bins are the
  shards of a sharded histogram, or the subtrees of a partitioned readout.
 */
module Router {
  import opened Arithmetic
  import opened Bits
  import opened Networks
  import opened Compaction
  import opened OddEvenMerge
  import opened Blocks
  import opened Tree
  import opened Layout

  // ---- Shards of tags -------------------------------------------------------------------------------

  /** `shard_index_for_tag`: the low bits of the tag's high half. */
  function ShardIndexForTag(tag: Tag, shardCount: nat): (r: nat)
    requires IsPowerOfTwo(shardCount)
    ensures r < shardCount
  {
    var e := FloorLog(shardCount);
    PowerOfTwoLog(shardCount);
    ShrLowBits(tag / 0x1_0000_0000, e);
    LowBits(tag / 0x1_0000_0000, e)
  }

  /** The shard is the remainder of the tag's high half. */
  lemma ShardIndexIs(tag: Tag, shardCount: nat)
    requires IsPowerOfTwo(shardCount)
    ensures shardCount >= 1 && ShardIndexForTag(tag, shardCount) == tag / 0x1_0000_0000 % shardCount
  {
    hide LowBits, Pow2, IsPowerOfTwo;
    PowerOfTwoLog(shardCount);
    ShrLowBits(tag / 0x1_0000_0000, FloorLog(shardCount));
  }

  lemma PowerOfTwoLog(n: nat)
    requires IsPowerOfTwo(n)
    ensures n == Pow2(FloorLog(n))
  {
    var a := PowerOfTwoExponent(n);
    LogUnique(n, a);
  }

  // ---- Loads --------------------------------------------------------------------------------------------

  /** The real blocks of `s` that belong to bin `b`. */
  ghost function BinBlocks<V>(s: seq<Block<V>>, binOf: Block<V> -> nat, b: nat): (r: seq<Block<V>>)
    ensures |r| <= |s|
    ensures forall x :: x in r ==> x in s && x.Real() && binOf(x) == b
  {
    if s == [] then []
    else
      var x := s[|s| - 1];
      BinBlocks(s[..|s| - 1], binOf, b) + if x.Real() && binOf(x) == b then [x] else []
  }

  /** `count_shard_loads_oblivious`: every counter is visited for every block. */
  method CountLoads<V>(counts: array<nat>, blocks: array<Block<V>>, reducedLen: nat, binOf: Block<V> -> nat)
    requires reducedLen <= blocks.Length
    modifies counts
    ensures Tallied(counts[..], blocks[..reducedLen], binOf)
  {
    hide Tallied;
    for b := 0 to counts.Length
      invariant forall c :: 0 <= c < b ==> counts[c] == 0
    {
      counts[b] := 0;
    }
    ghost var s := blocks[..reducedLen];
    assert s[..0] == [];
    NothingTallied(counts[..], s, binOf);
    for i := 0 to blocks.Length
      invariant blocks[..reducedLen] == s
      invariant Tallied(counts[..], s[..if i < reducedLen then i else reducedLen], binOf)
    {
      var active := i < reducedLen && blocks[i].Real();
      var bin := binOf(blocks[i]);
      ghost var c := counts[..];
      CountBlock(counts, bin, active);
      if i < reducedLen {
        assert s[i] == blocks[i];
        TalliedNext(c, counts[..], s, i, binOf);
      } else {
        assert counts[..] == c;
      }
    }
    assert s[..reducedLen] == s;
  }

  ghost predicate Tallied<V>(c: seq<nat>, s: seq<Block<V>>, binOf: Block<V> -> nat) {
    forall b :: 0 <= b < |c| ==> c[b] == |BinBlocks(s, binOf, b)|
  }

  lemma NothingTallied<V>(c: seq<nat>, s: seq<Block<V>>, binOf: Block<V> -> nat)
    requires forall b :: 0 <= b < |c| ==> c[b] == 0
    ensures Tallied(c, s[..0], binOf)
  {
  }

  lemma TalliedNext<V>(c: seq<nat>, c': seq<nat>, s: seq<Block<V>>, i: nat, binOf: Block<V> -> nat)
    requires i < |s| && Tallied(c, s[..i], binOf) && |c'| == |c|
    requires forall b :: 0 <= b < |c| ==> c'[b] == c[b] + if s[i].Real() && binOf(s[i]) == b then 1 else 0
    ensures Tallied(c', s[..i + 1], binOf)
  {
    assert s[..i + 1][..i] == s[..i];
  }

  method CountBlock(counts: array<nat>, bin: nat, active: bool)
    modifies counts
    ensures forall b :: 0 <= b < counts.Length ==> counts[b] == old(counts[b]) + if active && bin == b then 1 else 0
  {
    for candidate := 0 to counts.Length
      invariant forall b :: 0 <= b < candidate ==> counts[b] == old(counts[b]) + if active && bin == b then 1 else 0
      invariant forall b :: candidate <= b < counts.Length ==> counts[b] == old(counts[b])
    {
      var shouldIncrement := active && bin == candidate;
      counts[candidate] := counts[candidate] + if shouldIncrement then 1 else 0;
    }
  }

  method MaxLoad(counts: array<nat>) returns (maxLoad: nat)
    ensures forall b :: 0 <= b < counts.Length ==> counts[b] <= maxLoad
    ensures maxLoad == 0 || maxLoad in counts[..]
  {
    maxLoad := 0;
    for b := 0 to counts.Length
      invariant forall c :: 0 <= c < b ==> counts[c] <= maxLoad
      invariant maxLoad == 0 || maxLoad in counts[..]
    {
      assert counts[..][b] == counts[b];
      if maxLoad < counts[b] { maxLoad := counts[b]; }
    }
  }

  // ---- Marks -----------------------------------------------------------------------------------------------

  ghost function SumTo(c: seq<nat>, b: nat): nat
    requires b <= |c|
  {
    if b == 0 then 0 else SumTo(c, b - 1) + c[b - 1]
  }

  ghost predicate BinMark(marks: seq<nat>, c: seq<nat>, q: nat, b: nat, j: nat)
    requires b < |c|
  {
    Slots(b, q) + j < |marks| && marks[Slots(b, q) + j] == SumTo(c, b) + Min(j, c[b])
  }

  ghost predicate BinMarks(marks: seq<nat>, c: seq<nat>, q: nat) {
    && Prefix(marks) && marks[0] == 0 && |marks| == Slots(|c|, q) + 1 && marks[Slots(|c|, q)] == SumTo(c, |c|)
    && forall b: nat, j: nat {:trigger BinMark(marks, c, q, b, j)} :: b < |c| && j <= q ==> BinMark(marks, c, q, b, j)
  }

  /** `build_distribute_marks_router`. */
  method BuildDistributeMarks(counts: seq<nat>, quota: nat) returns (marks: seq<nat>)
    requires forall b :: 0 <= b < |counts| ==> counts[b] <= quota
    ensures BinMarks(marks, counts, quota)
  {
    hide Slots;
    var c, q := counts, quota;
    SlotsNext(0, q);
    marks := [0];
    for b := 0 to |c|
      invariant Prefix(marks) && marks[0] == 0 && |marks| == Slots(b, q) + 1 && marks[Slots(b, q)] == SumTo(c, b)
      invariant forall l: nat, j: nat {:trigger BinMark(marks, c, q, l, j)} :: l < b && j <= q ==>
                BinMark(marks, c, q, l, j)
    {
      ghost var marks0 := marks;
      SlotsNext(b, q);
      marks := AppendBucket(marks, q, c[b]);
      forall l: nat, j: nat | l < b + 1 && j <= q ensures BinMark(marks, c, q, l, j) {
        if l < b {
          SlotsMonotone(l, b, q);
          assert BinMark(marks0, c, q, l, j);
          assert marks[Slots(l, q) + j] == marks[..|marks0|][Slots(l, q) + j];
        }
      }
      assert marks[|marks0| - 1 + q] == marks0[|marks0| - 1] + Min(q, c[b]);
    }
  }

  // ---- Blocks in bin order --------------------------------------------------------------------------------

  /** Real blocks only, in order of their bins. */
  ghost predicate InBinOrder<V>(l: seq<Block<V>>, binOf: Block<V> -> nat, bins: nat) {
    && (forall i :: 0 <= i < |l| ==> l[i].Real() && binOf(l[i]) < bins)
    && (forall i, j :: 0 <= i < j < |l| ==> binOf(l[i]) <= binOf(l[j]))
  }

  lemma {:induction false} BinsConcat<V>(s: seq<Block<V>>, t: seq<Block<V>>, binOf: Block<V> -> nat, b: nat)
    ensures BinBlocks(s + t, binOf, b) == BinBlocks(s, binOf, b) + BinBlocks(t, binOf, b)
  {
    if t == [] {
      assert s + t == s;
    } else {
      assert (s + t)[..|s + t| - 1] == s + t[..|t| - 1];
      BinsConcat(s, t[..|t| - 1], binOf, b);
    }
  }

  lemma {:induction false} AllOfBin<V>(s: seq<Block<V>>, binOf: Block<V> -> nat, b: nat)
    requires forall i :: 0 <= i < |s| ==> s[i].Real() && binOf(s[i]) == b
    ensures BinBlocks(s, binOf, b) == s
  {
    if s != [] {
      AllOfBin(s[..|s| - 1], binOf, b);
      assert s == s[..|s| - 1] + [s[|s| - 1]];
    }
  }

  lemma {:induction false} NoneOfBin<V>(s: seq<Block<V>>, binOf: Block<V> -> nat, b: nat)
    requires forall i :: 0 <= i < |s| ==> binOf(s[i]) != b
    ensures BinBlocks(s, binOf, b) == []
  {
    if s != [] { NoneOfBin(s[..|s| - 1], binOf, b); }
  }

  /** When exactly the stretch `x .. y` belongs to the bin, it is the bin. */
  lemma StretchBlocks<V>(l: seq<Block<V>>, binOf: Block<V> -> nat, b: nat, x: nat, y: nat)
    requires x <= y <= |l| && forall i :: 0 <= i < |l| ==> l[i].Real() && (binOf(l[i]) == b <==> x <= i < y)
    ensures BinBlocks(l, binOf, b) == l[x..y]
  {
    hide BinBlocks;
    var u, v, w := l[..x], l[x..y], l[y..];
    NoneOfBin(u, binOf, b);
    AllOfBin(v, binOf, b);
    NoneOfBin(w, binOf, b);
    BinsConcat(u + v, w, binOf, b);
    BinsConcat(u, v, binOf, b);
    assert l == (u + v) + w;
  }

  /** The blocks of each bin form one stretch, and the stretches follow each other. */
  lemma {:induction false} Stretches<V>(l: seq<Block<V>>, binOf: Block<V> -> nat, c: seq<nat>, b: nat)
    requires InBinOrder(l, binOf, |c|) && Tallied(c, l, binOf) && b <= |c|
    ensures SumTo(c, b) <= |l|
    ensures forall i :: 0 <= i < |l| ==> (binOf(l[i]) < b <==> i < SumTo(c, b))
    decreases b
  {
    hide BinBlocks;
    if b > 0 {
      Stretches(l, binOf, c, b - 1);
      var x := SumTo(c, b - 1);
      var n := FirstAtLeast(l, binOf, |c|, b);
      assert x <= n;
      StretchBlocks(l, binOf, b - 1, x, n);
      assert SumTo(c, b) == x + c[b - 1] == n;
    }
  }

  lemma {:induction false} FirstAtLeast<V>(l: seq<Block<V>>, binOf: Block<V> -> nat, bins: nat, b: nat) returns (n: nat)
    requires InBinOrder(l, binOf, bins)
    ensures n <= |l| && forall i :: 0 <= i < |l| ==> (binOf(l[i]) < b <==> i < n)
    ensures n < |l| ==> binOf(l[n]) >= b
    decreases |l|
  {
    n := |l|;
    if l != [] && binOf(l[n - 1]) >= b { n := FirstAtLeast(l[..n - 1], binOf, bins, b); }
  }

  /** The stretch of bin `b` is the bin's blocks, in order. */
  lemma StretchIsBin<V>(l: seq<Block<V>>, binOf: Block<V> -> nat, c: seq<nat>, b: nat)
    requires InBinOrder(l, binOf, |c|) && Tallied(c, l, binOf) && b < |c|
    ensures SumTo(c, b) <= SumTo(c, b + 1) <= |l| && l[SumTo(c, b)..SumTo(c, b + 1)] == BinBlocks(l, binOf, b)
  {
    hide BinBlocks;
    Stretches(l, binOf, c, b);
    Stretches(l, binOf, c, b + 1);
    assert SumTo(c, b + 1) == SumTo(c, b) + c[b];
    StretchBlocks(l, binOf, b, SumTo(c, b), SumTo(c, b + 1));
  }

  lemma AllInBins<V>(l: seq<Block<V>>, binOf: Block<V> -> nat, c: seq<nat>)
    requires InBinOrder(l, binOf, |c|) && Tallied(c, l, binOf)
    ensures SumTo(c, |c|) == |l|
  {
    Stretches(l, binOf, c, |c|);
    if l != [] { assert binOf(l[|l| - 1]) < |c|; }
  }

  lemma {:induction false} SumBelow(c: seq<nat>, b: nat, q: nat)
    requires b <= |c| && forall i :: 0 <= i < |c| ==> c[i] <= q
    ensures SumTo(c, b) <= Slots(b, q)
  {
    hide Slots;
    SlotsNext(0, q);
    if b > 0 {
      SumBelow(c, b - 1, q);
      SlotsNext(b - 1, q);
    }
  }

  // ---- What ends up in each bin ----------------------------------------------------------------------------

  /** Slot `j` of bin `b` holds the bin's `j`-th block, or a dummy. */
  ghost predicate BinSlot<V>(l: seq<Block<V>>, r: seq<Block<V>>, c: seq<nat>, q: nat, b: nat, j: nat)
    requires b < |c| && j < q
  {
    var x := Slots(b, q) + j;
    && x < |r| && (r[x].Real() <==> j < c[b])
    && (j < c[b] ==> SumTo(c, b) + j < |l| && r[x] == l[SumTo(c, b) + j])
  }

  ghost predicate Binned<V>(l: seq<Block<V>>, r: seq<Block<V>>, c: seq<nat>, q: nat) {
    |r| == Slots(|c|, q)
    && forall b: nat, j: nat {:trigger BinSlot(l, r, c, q, b, j)} :: b < |c| && j < q ==> BinSlot(l, r, c, q, b, j)
  }

  /** A compacted run: the blocks of `l`, then dummies. */
  ghost predicate Packed<V>(s: seq<Block<V>>, l: seq<Block<V>>) {
    && |l| <= |s| && s[..|l|] == l && Live(s) == l
    && forall i :: |l| <= i < |s| ==> !s[i].Real()
  }

  /** Distribution of a compacted run: a marked slot gets the block of its rank, the others dummies. */
  lemma DistributedSlots<V>(s: seq<Block<V>>, l: seq<Block<V>>, marks: seq<nat>, x: nat)
    requires Packed(s, l) && Prefix(marks) && marks[0] == 0 && |marks| == |s| + 1 && marks[|s|] == |l| && x < |s|
    ensures Covers(marks, 0, |s|) && Fits(DistributeNet(marks, 0, 0, |s|), |s|)
    ensures var r := Run(DistributeNet(marks, 0, 0, |s|), s, Always);
      && (Marked(marks, x) ==> marks[x] < |l| && r[x] == l[marks[x]] && r[x].Real())
      && (!Marked(marks, x) ==> !r[x].Real())
  {
    hide Run, Fits, DistributeNet, Live, Packed, Prefix;
    var n := |s|;
    NetsInside(marks, 0, 0, n);
    InsideFits(DistributeNet(marks, 0, 0, n), 0, n, n);
    var r := Run(DistributeNet(marks, 0, 0, n), s, Always);
    forall i: nat | i < n && Marked(marks, i) ensures marks[i] < |l| && r[i] == l[marks[i]] && r[i].Real() {
      MarkedSlot(s, l, marks, i);
    }
    RunPermutes(DistributeNet(marks, 0, 0, n), s, Always);
    LivePermutes(r, s);
    PackedLive(s, l);
    MarkedRealCount(r, marks, n, x);
    assert r[..n] == r;
  }

  lemma PackedLive<V>(s: seq<Block<V>>, l: seq<Block<V>>)
    requires Packed(s, l)
    ensures Live(s) == l
  {
  }

  lemma MarkedSlot<V>(s: seq<Block<V>>, l: seq<Block<V>>, marks: seq<nat>, i: nat)
    requires Packed(s, l) && Prefix(marks) && marks[0] == 0 && |marks| == |s| + 1 && marks[|s|] == |l| && i < |s|
    requires Marked(marks, i)
    requires Covers(marks, 0, |s|) && Fits(DistributeNet(marks, 0, 0, |s|), |s|)
    ensures var r := Run(DistributeNet(marks, 0, 0, |s|), s, Always);
      marks[i] < |l| && r[i] == l[marks[i]] && r[i].Real()
  {
    hide Run, Fits, DistributeNet, Live, Packed, Covers;
    PrefixGrows(marks, i + 1, |s|);
    DistributePlaces(s, marks, 0, 0, |s|, i);
    PackedAt(s, l, marks[i]);
  }

  lemma PackedAt<V>(s: seq<Block<V>>, l: seq<Block<V>>, k: nat)
    requires Packed(s, l) && k < |l|
    ensures k < |s| && s[k] == l[k] && l[k].Real()
  {
    assert s[k] == s[..|l|][k];
    assert l[k] in l;
  }

  /** Distribution by the bins' marks. */
  lemma Distributes<V>(s: seq<Block<V>>, l: seq<Block<V>>, marks: seq<nat>, c: seq<nat>, q: nat)
    requires Packed(s, l) && BinMarks(marks, c, q) && |s| == Slots(|c|, q) && SumTo(c, |c|) == |l|
    requires forall b :: 0 <= b < |c| ==> c[b] <= q
    ensures Covers(marks, 0, |s|) && Fits(DistributeNet(marks, 0, 0, |s|), |s|)
    ensures Binned(l, Run(DistributeNet(marks, 0, 0, |s|), s, Always), c, q)
  {
    hide Slots, Run, Fits, DistributeNet, Packed;
    NetsInside(marks, 0, 0, |s|);
    InsideFits(DistributeNet(marks, 0, 0, |s|), 0, |s|, |s|);
    var r := Run(DistributeNet(marks, 0, 0, |s|), s, Always);
    forall b: nat, j: nat | b < |c| && j < q ensures BinSlot(l, r, c, q, b, j) {
      SlotsMonotone(b, |c|, q);
      DistributedSlots(s, l, marks, Slots(b, q) + j);
      assert BinMark(marks, c, q, b, j) && BinMark(marks, c, q, b, j + 1);
    }
  }

  /** The blocks of bin `b` after distribution, in their old order. */
  lemma BinLive<V>(l: seq<Block<V>>, r: seq<Block<V>>, c: seq<nat>, q: nat, b: nat)
    requires Binned(l, r, c, q) && b < |c| && c[b] <= q && SumTo(c, b + 1) <= |l|
    ensures Slots(b, q) + q <= |r| && SumTo(c, b) <= SumTo(c, b + 1)
    ensures Live(r[Slots(b, q)..Slots(b, q) + q]) == l[SumTo(c, b)..SumTo(c, b + 1)]
  {
    hide Slots, Live;
    SlotsMonotone(b, |c|, q);
    var lo, k := Slots(b, q), SumTo(c, b);
    var chunk := r[lo..lo + q];
    assert SumTo(c, b + 1) == k + c[b];
    forall j: nat | j < q ensures chunk[j].Real() <==> j < c[b] {
      assert BinSlot(l, r, c, q, b, j);
    }
    forall j: nat | j < c[b] ensures chunk[j] == l[k + j] {
      assert BinSlot(l, r, c, q, b, j);
    }
    assert chunk[..c[b]] == l[k..k + c[b]];
    assert chunk == chunk[..c[b]] + chunk[c[b]..];
    LiveConcat(chunk[..c[b]], chunk[c[b]..]);
    LiveAll(chunk[..c[b]]);
    LiveNone(chunk[c[b]..]);
  }

  /** Distribution keeps all blocks, and their order. */
  lemma {:induction false} BinsLive<V>(l: seq<Block<V>>, r: seq<Block<V>>, c: seq<nat>, q: nat, b: nat)
    requires Binned(l, r, c, q) && b <= |c| && SumTo(c, |c|) == |l| && (forall i :: 0 <= i < |c| ==> c[i] <= q)
    ensures Slots(b, q) <= |r| && SumTo(c, b) <= |l| && Live(r[..Slots(b, q)]) == l[..SumTo(c, b)]
  {
    hide Slots, Live, Binned;
    SumsGrow(c, b);
    BinnedLength(l, r, c, q);
    SlotsNext(0, q);
    SlotsMonotone(b, |c|, q);
    if b > 0 {
      BinsLive(l, r, c, q, b - 1);
      BinLive(l, r, c, q, b - 1);
      SlotsNext(b - 1, q);
      var lo := Slots(b - 1, q);
      assert r[..Slots(b, q)] == r[..lo] + r[lo..lo + q];
      LiveConcat(r[..lo], r[lo..lo + q]);
      assert l[..SumTo(c, b)] == l[..SumTo(c, b - 1)] + l[SumTo(c, b - 1)..SumTo(c, b)];
    } else {
      assert r[..0] == [];
      LiveNone(r[..0]);
    }
  }

  lemma BinnedLength<V>(l: seq<Block<V>>, r: seq<Block<V>>, c: seq<nat>, q: nat)
    requires Binned(l, r, c, q)
    ensures |r| == Slots(|c|, q)
  {
  }

  lemma {:induction false} SumsGrow(c: seq<nat>, b: nat)
    requires b <= |c|
    ensures SumTo(c, b) <= SumTo(c, |c|)
    decreases |c| - b
  {
    if b < |c| { SumsGrow(c, b + 1); }
  }

  // ---- Routing as a whole --------------------------------------------------------------------------------------

  /** The result of routing the blocks `l` to `bins` bins of `q` slots. */
  ghost predicate Routed<V>(l: seq<Block<V>>, r: seq<Block<V>>, binOf: Block<V> -> nat, bins: nat, q: nat) {
    && |r| == Slots(bins, q) && Live(r) == l
    && forall b: nat :: b < bins ==> RoutedBin(l, r, binOf, q, b)
  }

  /** The slots of bin `b` hold exactly the bin's blocks, in order, in front of dummies. */
  ghost predicate RoutedBin<V>(l: seq<Block<V>>, r: seq<Block<V>>, binOf: Block<V> -> nat, q: nat, b: nat) {
    && Slots(b, q) + q <= |r|
    && Packed(r[Slots(b, q)..Slots(b, q) + q], BinBlocks(l, binOf, b))
  }

  lemma RoutesAll<V>(s: seq<Block<V>>, l: seq<Block<V>>, marks: seq<nat>, c: seq<nat>, binOf: Block<V> -> nat, q: nat)
    requires Packed(s, l) && BinMarks(marks, c, q) && |s| == Slots(|c|, q)
    requires InBinOrder(l, binOf, |c|) && Tallied(c, l, binOf) && forall b :: 0 <= b < |c| ==> c[b] <= q
    ensures Covers(marks, 0, |s|) && Fits(DistributeNet(marks, 0, 0, |s|), |s|)
    ensures Routed(l, Run(DistributeNet(marks, 0, 0, |s|), s, Always), binOf, |c|, q)
  {
    hide Slots, Run, Fits, DistributeNet, Live, BinBlocks, Binned, InBinOrder, Packed, BinMarks;
    AllInBins(l, binOf, c);
    Distributes(s, l, marks, c, q);
    var r := Run(DistributeNet(marks, 0, 0, |s|), s, Always);
    BinsLive(l, r, c, q, |c|);
    assert r[..Slots(|c|, q)] == r && l[..SumTo(c, |c|)] == l;
    forall b: nat | b < |c| ensures RoutedBin(l, r, binOf, q, b) {
      RoutesBin(l, r, c, binOf, q, b);
    }
  }

  lemma RoutesBin<V>(l: seq<Block<V>>, r: seq<Block<V>>, c: seq<nat>, binOf: Block<V> -> nat, q: nat, b: nat)
    requires Binned(l, r, c, q) && InBinOrder(l, binOf, |c|) && Tallied(c, l, binOf) && b < |c| && c[b] <= q
    ensures RoutedBin(l, r, binOf, q, b)
  {
    hide Slots, Live, BinBlocks, InBinOrder;
    StretchIsBin(l, binOf, c, b);
    BinLive(l, r, c, q, b);
    var lo := Slots(b, q);
    var chunk := r[lo..lo + q];
    forall j: nat | j < q ensures chunk[j].Real() <==> j < c[b] { assert BinSlot(l, r, c, q, b, j); }
    forall j: nat | j < c[b] ensures chunk[j] == BinBlocks(l, binOf, b)[j] {
      assert BinSlot(l, r, c, q, b, j);
      assert l[SumTo(c, b)..SumTo(c, b + 1)][j] == l[SumTo(c, b) + j];
    }
    assert chunk[..c[b]] == BinBlocks(l, binOf, b);
  }

  /** `Vec::resize`: cut off, or padded with `x`. */
  method Resize<T>(a: array<T>, n: nat, x: T) returns (r: array<T>)
    ensures fresh(r) && r.Length == n
    ensures forall i :: 0 <= i < n ==> r[i] == if i < a.Length then a[i] else x
  {
    r := new T[n](_ => x);
    for i := 0 to if a.Length < n then a.Length else n
      invariant forall k :: 0 <= k < i ==> r[k] == a[k]
      invariant forall k :: i <= k < n ==> r[k] == x
    {
      r[i] := a[i];
    }
  }

  lemma ResizedPacked<V>(s: seq<Block<V>>, t: seq<Block<V>>, l: seq<Block<V>>, x: Block<V>)
    requires Packed(s, l) && |l| <= |t| && !x.Real() && forall i :: 0 <= i < |t| ==> t[i] == if i < |s| then s[i] else x
    ensures Packed(t, l)
  {
    hide Live;
    assert t[..|l|] == l;
    assert t == l + t[|l|..] && s == l + s[|l|..];
    LiveConcat(l, t[|l|..]);
    LiveConcat(l, s[|l|..]);
    LiveNone(t[|l|..]);
    LiveNone(s[|l|..]);
  }

  /**
    The end of routing, shared by frontends and partitioned readouts: a compacted run is
    resized to the bins' slots and distributed.  The blocks are cut off only if they are dummies.
   */
  method RouteToBins<V>(blocks: array<Block<V>>, counts: array<nat>, quota: nat, dummy: Block<V>,
                        ghost l: seq<Block<V>>, ghost binOf: Block<V> -> nat)
      returns (routed: array<Block<V>>)
    requires Packed(blocks[..], l) && !dummy.Real() && InBinOrder(l, binOf, counts.Length)
    requires Tallied(counts[..], l, binOf)
    requires forall b :: 0 <= b < counts.Length ==> counts[b] <= quota
    ensures fresh(routed) && Routed(l, routed[..], binOf, counts.Length, quota)
  {
    hide Slots, Packed, InBinOrder, Tallied, DistributeNet, Routed, BinMarks;
    var routedLen := Slots(counts.Length, quota);
    ghost var c, s := counts[..], blocks[..];
    AllInBins(l, binOf, c);
    SumBelow(c, |c|, quota);
    routed := Resize(blocks, routedLen, dummy);
    ResizedPacked(s, routed[..], l, dummy);
    var marks := BuildDistributeMarks(counts[..], quota);
    RoutesAll(routed[..], l, marks, c, binOf, quota);
    DistributePayload(routed, 0, routedLen, marks, 0);
  }
}
