/**
  The primitives put together on blocks: marks of the real blocks, compaction to a
  prefix of real blocks, and sorting by a key followed by reducing equal runs.
 */
module SortReduce {
  import opened Networks
  import opened MergeExchangeNetwork
  import opened DjbSort
  import opened Compaction
  import opened Blocks
  import opened Reduction

  // ---- Marks of the real blocks -----------------------------------------------------------

  /** Prefix sums of the real blocks. */
  ghost function MarksOf<V>(s: seq<Block<V>>): (p: seq<nat>)
    ensures |p| == |s| + 1
  {
    seq(|s| + 1, i requires 0 <= i < |s| + 1 => |Live(s[..i])|)
  }

  lemma LiveNext<V>(s: seq<Block<V>>, i: nat)
    requires i < |s|
    ensures Live(s[..i + 1]) == Live(s[..i]) + if s[i].Real() then [s[i]] else []
  {
    assert s[..i + 1][..i] == s[..i];
  }

  lemma MarksOfPrefix<V>(s: seq<Block<V>>)
    ensures Prefix(MarksOf(s)) && MarksOf(s)[0] == 0 && MarksOf(s)[|s|] == |Live(s)|
    ensures forall i :: 0 <= i < |s| ==> Marked(MarksOf(s), i) == s[i].Real()
    ensures Covers(MarksOf(s), 0, |s|)
  {
    forall i: nat | i < |s| ensures MarksStep(s, i) { MarksNext(s, i); }
    hide Live;
    assert s[..|s|] == s;
    MarksArePrefix(s);
  }

  ghost predicate MarksStep<V>(s: seq<Block<V>>, i: nat)
    requires i < |s|
  {
    MarksOf(s)[i + 1] == MarksOf(s)[i] + if s[i].Real() then 1 else 0
  }

  lemma MarksNext<V>(s: seq<Block<V>>, i: nat)
    requires i < |s|
    ensures MarksStep(s, i)
  {
    LiveNext(s, i);
  }

  lemma MarksArePrefix<V>(s: seq<Block<V>>)
    requires forall i: nat :: i < |s| ==> MarksStep(s, i)
    ensures Prefix(MarksOf(s)) && forall i :: 0 <= i < |s| ==> Marked(MarksOf(s), i) == s[i].Real()
  {
    hide MarksOf;
    var p := MarksOf(s);
    forall i, j | 0 <= i < j < |p| && j == i + 1 ensures p[i] <= p[j] <= p[i] + 1 { assert MarksStep(s, i); }
    forall i | 0 <= i < |s| ensures Marked(p, i) == s[i].Real() { assert MarksStep(s, i); }
  }

  lemma NoMarks<V>(s: seq<Block<V>>)
    ensures MarksOf(s)[..1] == [0] && MarksOf(s)[0] == 0
  {
    assert s[..0] == [];
  }

  /** `compact_marks` on the slice `lo .. lo + n`. */
  method CompactMarks<V>(blocks: array<Block<V>>, lo: nat, n: nat) returns (marks: seq<nat>)
    requires lo + n <= blocks.Length
    ensures marks == MarksOf(blocks[lo..lo + n])
  {
    ghost var s := blocks[lo..lo + n];
    NoMarks(s);
    hide MarksOf;
    marks := [0];
    var sum := 0;
    for i := 0 to n
      invariant sum == MarksOf(s)[i] && marks == MarksOf(s)[..i + 1]
    {
      MarksNext(s, i);
      assert s[i] == blocks[lo + i];
      sum := sum + if blocks[lo + i].Real() then 1 else 0;
      marks := marks + [sum];
    }
  }

  /** Each real block has its place among the real blocks. */
  lemma {:induction false} LiveAt<V>(s: seq<Block<V>>, i: nat)
    requires i < |s| && s[i].Real()
    ensures |Live(s[..i])| < |Live(s)| && Live(s)[|Live(s[..i])|] == s[i]
    decreases |s|
  {
    var n := |s| - 1;
    LiveLast(s);
    hide Live;
    if i < n {
      assert s[..n][..i] == s[..i];
      LiveAt(s[..n], i);
    }
  }

  /** Every place among the real blocks belongs to some real block. */
  lemma {:induction false} LiveOrigin<V>(s: seq<Block<V>>, k: nat) returns (i: nat)
    requires k < |Live(s)|
    ensures i < |s| && s[i].Real() && |Live(s[..i])| == k && s[i] == Live(s)[k]
    decreases |s|
  {
    var n := |s| - 1;
    LiveLast(s);
    hide Live;
    if k < |Live(s[..n])| {
      i := LiveOrigin(s[..n], k);
      assert s[..n][..i] == s[..i];
    } else {
      i := n;
    }
  }

  lemma LiveLast<V>(s: seq<Block<V>>)
    ensures Live(s) == if s == [] then [] else Live(s[..|s| - 1]) + if s[|s| - 1].Real() then [s[|s| - 1]] else []
  {
  }

  // ---- Compaction of a slice -----------------------------------------------------------------

  /** `now` is `before` with the slice `lo .. lo + n` compacted: its real blocks first, in order. */
  ghost predicate CompactedSlice<V>(before: seq<Block<V>>, now: seq<Block<V>>, lo: nat, n: nat) {
    && SameOutside(before, now, lo, n)
    && multiset(now[lo..lo + n]) == multiset(before[lo..lo + n])
    && var r := |Live(before[lo..lo + n])|;
       && r <= n
       && now[lo..lo + r] == Live(before[lo..lo + n])
       && forall i :: lo + r <= i < lo + n ==> !now[i].Real()
  }

  /** A network inside a slice leaves the rest alone and permutes the slice. */
  lemma InsideKeeps<T>(net: Network, s: seq<T>, lo: nat, n: nat)
    requires Inside(net, lo, lo + n) && lo + n <= |s|
    ensures Fits(net, |s|) && SameOutside(s, Run(net, s, Always), lo, n)
    ensures multiset(Run(net, s, Always)[lo..lo + n]) == multiset(s[lo..lo + n])
  {
    InsideFits(net, lo, lo + n, |s|);
    var r := Run(net, s, Always);
    forall w | 0 <= w < |s| && !(lo <= w < lo + n) ensures r[w] == s[w] { RunFrame(net, s, Always, w); }
    RunPermutes(net, s, Always);
    SlicePermutes(s, r, lo, n);
  }

  lemma SlicePermutes<T>(s: seq<T>, r: seq<T>, lo: nat, n: nat)
    requires SameOutside(s, r, lo, n) && multiset(r) == multiset(s)
    ensures multiset(r[lo..lo + n]) == multiset(s[lo..lo + n])
  {
    SliceJoined(s, lo, n);
    SliceJoined(r, lo, n);
    assert r[..lo] == s[..lo] && r[lo + n..] == s[lo + n..];
    Cancel(multiset(r[lo..lo + n]), multiset(s[lo..lo + n]), multiset(s[..lo]) + multiset(s[lo + n..]));
  }

  lemma SliceJoined<T>(s: seq<T>, lo: nat, n: nat)
    requires lo + n <= |s|
    ensures multiset(s) == multiset(s[lo..lo + n]) + (multiset(s[..lo]) + multiset(s[lo + n..]))
  {
    assert s == s[..lo] + s[lo..];
    assert s[lo..] == s[lo..lo + n] + s[lo + n..];
  }

  /** A permutation that begins with all the real blocks has no others. */
  lemma OnlyDummiesLeft<V>(s: seq<Block<V>>, r: seq<Block<V>>)
    requires multiset(s) == multiset(r) && |Live(s)| <= |r| && r[..|Live(s)|] == Live(s)
    ensures forall i :: |Live(s)| <= i < |r| ==> !r[i].Real()
  {
    hide Live;
    var k := |Live(s)|;
    LivePermutes(s, r);
    assert r == r[..k] + r[k..];
    LiveConcat(r[..k], r[k..]);
    LiveAll(r[..k]);
    var rest := r[k..];
    forall i | k <= i < |r| ensures !r[i].Real() {
      if rest[i - k].Real() { LiveAt(rest, i - k); }
    }
  }

  /** Compacting by the marks of the real blocks is stable and leaves only dummies behind. */
  lemma CompactsSlice<V>(s: seq<Block<V>>, lo: nat, n: nat)
    requires lo + n <= |s|
    ensures Covers(MarksOf(s[lo..lo + n]), 0, n)
    ensures Fits(CompactNet(MarksOf(s[lo..lo + n]), 0, lo, n), |s|)
    ensures CompactedSlice(s, Run(CompactNet(MarksOf(s[lo..lo + n]), 0, lo, n), s, Always), lo, n)
  {
    hide *;
    var slice := s[lo..lo + n];
    var p := MarksOf(slice);
    MarksOfPrefix(slice);
    var net := CompactNet(p, 0, lo, n);
    NetsInside(p, 0, lo, n);
    InsideKeeps(net, s, lo, n);
    var r := Run(net, s, Always);
    var k := |Live(slice)|;
    forall x | lo <= x < lo + k ensures r[x] == Live(slice)[x - lo] {
      CompactsAt(s, lo, n, x - lo);
    }
    CompactedFrom(s, r, lo, n);
  }

  lemma CompactsAt<V>(s: seq<Block<V>>, lo: nat, n: nat, j: nat)
    requires lo + n <= |s| && j < |Live(s[lo..lo + n])|
    requires Covers(MarksOf(s[lo..lo + n]), 0, n) && Fits(CompactNet(MarksOf(s[lo..lo + n]), 0, lo, n), |s|)
    ensures Run(CompactNet(MarksOf(s[lo..lo + n]), 0, lo, n), s, Always)[lo + j] == Live(s[lo..lo + n])[j]
  {
    hide Run, Fits, CompactNet, Live;
    var slice := s[lo..lo + n];
    var p := MarksOf(slice);
    MarksOfPrefix(slice);
    var i := LiveOrigin(slice, j);
    CompactPlaces(s, p, 0, lo, n, i);
  }

  lemma CompactedFrom<V>(s: seq<Block<V>>, r: seq<Block<V>>, lo: nat, n: nat)
    requires SameOutside(s, r, lo, n) && multiset(r[lo..lo + n]) == multiset(s[lo..lo + n])
    requires forall x :: lo <= x < lo + |Live(s[lo..lo + n])| ==> r[x] == Live(s[lo..lo + n])[x - lo]
    ensures CompactedSlice(s, r, lo, n)
  {
    hide Live;
    var slice, now := s[lo..lo + n], r[lo..lo + n];
    var k := |Live(slice)|;
    SliceAt(r, lo, Live(slice));
    assert now[..k] == r[lo..lo + k];
    OnlyDummiesLeft(slice, now);
    DummiesFrom(r, now, lo, n, k);
  }

  lemma SliceAt<T>(r: seq<T>, lo: nat, l: seq<T>)
    requires lo + |l| <= |r| && forall x :: lo <= x < lo + |l| ==> r[x] == l[x - lo]
    ensures r[lo..lo + |l|] == l
  {
  }

  lemma DummiesFrom<V>(r: seq<Block<V>>, now: seq<Block<V>>, lo: nat, n: nat, k: nat)
    requires lo + n <= |r| && now == r[lo..lo + n] && forall i :: k <= i < n ==> !now[i].Real()
    ensures forall i :: lo + k <= i < lo + n ==> !r[i].Real()
  {
    forall i | lo + k <= i < lo + n ensures !r[i].Real() { assert r[i] == now[i - lo]; }
  }

  /** `compact_marks` and `compact_payload` on a slice. */
  method CompactBlocks<V>(blocks: array<Block<V>>, lo: nat, n: nat) returns (realLen: nat)
    requires lo + n <= blocks.Length
    modifies blocks
    ensures realLen == |Live(old(blocks[lo..lo + n]))|
    ensures CompactedSlice(old(blocks[..]), blocks[..], lo, n)
  {
    hide CompactedSlice, CompactNet;
    ghost var s := blocks[..];
    assert s[lo..lo + n] == blocks[lo..lo + n];
    var marks := CompactMarks(blocks, lo, n);
    MarksOfPrefix(s[lo..lo + n]);
    CompactsSlice(s, lo, n);
    CompactPayload(blocks, lo, n, marks, 0);
    realLen := marks[n];
  }

  // ---- Sorting by key ----------------------------------------------------------------------------

  ghost function KeysOf<V>(s: seq<Block<V>>, keyOf: Block<V> -> nat): (k: seq<nat>)
    ensures |k| == |s|
  {
    seq(|s|, i requires 0 <= i < |s| => keyOf(s[i]))
  }

  ghost function Seconds<T>(z: seq<(nat, T)>): (r: seq<T>)
    ensures |r| == |z|
  {
    seq(|z|, i requires 0 <= i < |z| => z[i].1)
  }

  /** The blocks in the order `sort_with_payload` leaves them. */
  ghost function SortedByKey<V>(s: seq<Block<V>>, keyOf: Block<V> -> nat): (r: seq<Block<V>>)
    ensures |r| == |s|
  {
    MergeExchangeFits(|s|);
    Seconds(Run(MergeExchange(|s|), Zip(KeysOf(s, keyOf), s), KeyGt))
  }

  lemma {:induction false} SecondsPermute<T>(z: seq<(nat, T)>, y: seq<(nat, T)>)
    requires multiset(z) == multiset(y)
    ensures multiset(Seconds(z)) == multiset(Seconds(y))
    decreases |z|
  {
    assert |multiset(z)| == |z| && |multiset(y)| == |y|;
    if |z| > 0 {
      var z', x := z[..|z| - 1], z[|z| - 1];
      assert z == z' + [x];
      assert x in multiset(y);
      var i :| 0 <= i < |y| && y[i] == x;
      WithoutOne(z', x, y, i);
      var y' := y[..i] + y[i + 1..];
      SecondsPermute(z', y');
      assert Seconds(z) == Seconds(z') + [x.1];
      assert Seconds(y') == Seconds(y)[..i] + Seconds(y)[i + 1..];
      assert Seconds(y) == Seconds(y)[..i] + [x.1] + Seconds(y)[i + 1..];
    }
  }

  /** Sorting by key is a permutation that orders the keys. */
  lemma SortedByKeyIsSorted<V(!new)>(s: seq<Block<V>>, keyOf: Block<V> -> nat)
    ensures multiset(SortedByKey(s, keyOf)) == multiset(s)
    ensures forall i, j :: 0 <= i < j < |s| ==> keyOf(SortedByKey(s, keyOf)[i]) <= keyOf(SortedByKey(s, keyOf)[j])
  {
    hide Run, Fits, MergeExchange;
    var z := Zip(KeysOf(s, keyOf), s);
    MergeExchangeSorts(z, KeyGt);
    var y := Run(MergeExchange(|s|), z, KeyGt);
    SecondsPermute(y, z);
    assert Seconds(z) == s;
    forall i | 0 <= i < |s| ensures y[i].0 == keyOf(y[i].1) {
      assert y[i] in multiset(y);
      assert y[i] in multiset(z);
    }
    forall i, j | 0 <= i < j < |s| ensures keyOf(y[i].1) <= keyOf(y[j].1) {
      assert !KeyGt(y[i], y[j]);
    }
  }

  /** `sort_reduce`: sorts by key, then reduces equal runs. */
  method SortAndReduce<V>(m: Values<V>, blocks: array<Block<V>>, keyOf: Block<V> -> nat)
    modifies blocks
    ensures blocks[..] == Reduced(m, SortedByKey(old(blocks[..]), keyOf))
  {
    var n := blocks.Length;
    ghost var s := blocks[..];
    var sortKeys := new nat[n];
    for i := 0 to n
      invariant blocks[..] == s
      invariant forall k :: 0 <= k < i ==> sortKeys[k] == keyOf(s[k])
    {
      sortKeys[i] := keyOf(blocks[i]);
    }
    assert sortKeys[..] == KeysOf(s, keyOf);
    SortWithPayload(sortKeys, blocks);
    assert blocks[..] == Seconds(Zip(sortKeys[..], blocks[..]));
    ReduceEqualRuns(m, blocks);
  }

  /** Sorting and reducing keeps the total of every key, whatever the key function. */
  lemma SortReduceKeepsTotals<V(!new)>(m: Values<V>, s: seq<Block<V>>, keyOf: Block<V> -> nat, p: Payload)
    requires Lawful(m)
    ensures Total(m, Reduced(m, SortedByKey(s, keyOf)), p) == Total(m, s, p)
  {
    hide Run, Lawful, SortedByKey, Reduced, Total;
    SortedByKeyIsSorted(s, keyOf);
    ReducedKeepsTotals(m, SortedByKey(s, keyOf), p);
    TotalPermutes(m, SortedByKey(s, keyOf), s, p);
  }

  /** The loops that dummy out every block from `keep` on, where compaction has left only dummies. */
  method ClearFrom<V>(blocks: array<Block<V>>, keep: nat)
    requires forall i :: keep <= i < blocks.Length ==> !blocks[i].Real()
    modifies blocks
    ensures blocks[..] == old(blocks[..])
  {
    for i := 0 to blocks.Length
      invariant forall k :: 0 <= k < blocks.Length ==> blocks[k] == old(blocks[k])
    {
      if i >= keep { blocks[i] := blocks[i].(tag := 0); }
    }
  }

  /** `sort_reduce_compact`: the survivors end up in front, in key order. */
  method SortReduceCompact<V>(m: Values<V>, blocks: array<Block<V>>, keyOf: Block<V> -> nat) returns (reducedLen: nat)
    modifies blocks
    ensures reducedLen == |Live(Reduced(m, SortedByKey(old(blocks[..]), keyOf)))|
    ensures CompactedSlice(Reduced(m, SortedByKey(old(blocks[..]), keyOf)), blocks[..], 0, blocks.Length)
  {
    SortAndReduce(m, blocks, keyOf);
    ghost var s := blocks[..];
    assert blocks[0..blocks.Length] == s;
    reducedLen := CompactBlocks(blocks, 0, blocks.Length);
    ClearFrom(blocks, reducedLen);
  }
}
