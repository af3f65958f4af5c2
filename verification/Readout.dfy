/**
  Bulk readouts of a sequence of blocks: one block per key present, carrying the key's
  total.  The plain readout sorts everything at once; the tree-aware one sorts buckets
  and merges levels.
 */
module Readout {
  import opened Networks
  import opened DjbSort
  import opened Blocks
  import opened Reduction
  import opened SortReduce
  import opened Order

  // ---- What a readout is ------------------------------------------------------------------------

  /** The number of real blocks that carry `p`. */
  ghost function MatchCount<V>(s: seq<Block<V>>, p: Payload): nat {
    if s == [] then 0 else MatchCount(s[..|s| - 1], p) + if Matches(s[|s| - 1], p) then 1 else 0
  }

  /** `out` holds one real block of `p` if `s` has any, with the total `s` has. */
  ghost predicate ReadsKey<V>(m: Values<V>, s: seq<Block<V>>, out: seq<Block<V>>, p: Payload) {
    MatchCount(out, p) == (if MatchCount(s, p) > 0 then 1 else 0) && Total(m, out, p) == Total(m, s, p)
  }

  /** `out` holds one real block for each key of `s`, and the totals of `s`. */
  ghost predicate IsReadout<V(!new)>(m: Values<V>, s: seq<Block<V>>, out: seq<Block<V>>) {
    forall p :: ReadsKey(m, s, out, p)
  }

  lemma {:induction false} CountPresent<V>(s: seq<Block<V>>, p: Payload)
    ensures MatchCount(s, p) > 0 <==> exists i :: 0 <= i < |s| && Matches(s[i], p)
  {
    if s != [] {
      var n := |s| - 1;
      CountPresent(s[..n], p);
      assert forall i :: 0 <= i < n ==> s[..n][i] == s[i];
      assert MatchCount(s, p) > 0 <==> MatchCount(s[..n], p) > 0 || Matches(s[n], p);
    }
  }

  lemma {:induction false} CountSingle<V>(s: seq<Block<V>>, p: Payload)
    ensures MatchCount(s, p) <= 1 <==> Single(s, p)
  {
    if s != [] {
      var n := |s| - 1;
      CountSingle(s[..n], p);
      CountPresent(s[..n], p);
      assert forall i :: 0 <= i < n ==> s[..n][i] == s[i];
      assert Single(s, p) <==> Single(s[..n], p) && (Matches(s[n], p) ==> MatchCount(s[..n], p) == 0);
    }
  }

  lemma {:induction false} CountConcat<V>(s: seq<Block<V>>, t: seq<Block<V>>, p: Payload)
    ensures MatchCount(s + t, p) == MatchCount(s, p) + MatchCount(t, p)
  {
    if t == [] {
      assert s + t == s;
    } else {
      assert (s + t)[..|s + t| - 1] == s + t[..|t| - 1];
      CountConcat(s, t[..|t| - 1], p);
    }
  }

  lemma {:induction false} CountLive<V>(s: seq<Block<V>>, p: Payload)
    ensures MatchCount(Live(s), p) == MatchCount(s, p)
  {
    if s != [] {
      var n := |s| - 1;
      CountLive(s[..n], p);
      if s[n].Real() {
        assert Live(s)[..|Live(s)| - 1] == Live(s[..n]) && Live(s)[|Live(s)| - 1] == s[n];
      } else {
        assert Live(s) == Live(s[..n]);
      }
    }
  }

  lemma CountPermutes<V>(s: seq<Block<V>>, t: seq<Block<V>>, p: Payload)
    requires multiset(s) == multiset(t)
    ensures MatchCount(s, p) > 0 <==> MatchCount(t, p) > 0
  {
    CountPresent(s, p);
    CountPresent(t, p);
    forall i | 0 <= i < |s| ensures exists j :: 0 <= j < |t| && t[j] == s[i] {
      assert s[i] in multiset(t);
    }
    forall i | 0 <= i < |t| ensures exists j :: 0 <= j < |s| && s[j] == t[i] {
      assert t[i] in multiset(s);
    }
  }

  /** Every run leaves a survivor: no key disappears. */
  lemma {:induction false} SomeSurvives<V>(m: Values<V>, s: seq<Block<V>>, p: Payload, i: nat)
    requires i < |s| && Matches(s[i], p)
    ensures exists j :: 0 <= j < |s| && Matches(Reduced(m, s)[j], p)
    decreases |s| - i
  {
    hide Reduced;
    Survives(m, s, i);
    if i + 1 < |s| && Continues(s, i + 1) { SomeSurvives(m, s, p, i + 1); }
    else { assert Matches(Reduced(m, s)[i], p); }
  }

  /** Reducing an arrangement in which each key's blocks are adjacent is a readout. */
  lemma ReducedIsReadout<V(!new)>(m: Values<V>, s: seq<Block<V>>, t: seq<Block<V>>)
    requires Lawful(m) && multiset(t) == multiset(s) && forall p :: Adjacent(t, p)
    ensures IsReadout(m, s, Reduced(m, t))
  {
    hide Reduced, Total, MatchCount, Adjacent, Lawful;
    var r := Reduced(m, t);
    forall p ensures ReadsKey(m, s, r, p) {
      AdjacentLeavesOne(m, t, p);
      CountSingle(r, p);
      CountPermutes(s, t, p);
      CountPresent(t, p);
      CountPresent(r, p);
      if i :| 0 <= i < |t| && Matches(t[i], p) { SomeSurvives(m, t, p, i); }
      if i :| 0 <= i < |r| && Matches(r[i], p) { Survives(m, t, i); assert Matches(t[i], p); }
      ReducedKeepsTotals(m, t, p);
      TotalPermutes(m, t, s, p);
    }
  }

  /** Only the real blocks matter. */
  lemma ReadoutOfLive<V(!new)>(m: Values<V>, s: seq<Block<V>>, out: seq<Block<V>>, s': seq<Block<V>>,
                               out': seq<Block<V>>)
    requires Lawful(m) && IsReadout(m, s, out) && Live(s') == Live(s) && Live(out') == Live(out)
    ensures IsReadout(m, s', out')
  {
    hide Total, Lawful, MatchCount, Live;
    forall p ensures ReadsKey(m, s', out', p) {
      assert ReadsKey(m, s, out, p);
      CountLive(s, p);
      CountLive(s', p);
      CountLive(out, p);
      CountLive(out', p);
      TotalLive(m, s, p);
      TotalLive(m, s', p);
      TotalLive(m, out, p);
      TotalLive(m, out', p);
    }
  }

  /** In a readout, a key's block carries the key's total. */
  lemma ReadoutValue<V(!new)>(m: Values<V>, s: seq<Block<V>>, out: seq<Block<V>>, i: nat)
    requires Lawful(m) && IsReadout(m, s, out) && i < |out| && out[i].Real()
    ensures out[i].value == Total(m, s, out[i].payload) && MatchCount(s, out[i].payload) > 0
  {
    hide Total, Lawful, MatchCount;
    var p := out[i].payload;
    assert Matches(out[i], p);
    assert ReadsKey(m, s, out, p);
    CountPresent(out, p);
    CountSingle(out, p);
    OneHoldsTotal(m, out, i);
  }

  /** Any two readouts of the same contents have the same keys with the same values. */
  lemma ReadoutsAgree<V(!new)>(m: Values<V>, s: seq<Block<V>>, one: seq<Block<V>>, two: seq<Block<V>>, i: nat)
    requires Lawful(m) && IsReadout(m, s, one) && IsReadout(m, s, two) && i < |one| && one[i].Real()
    ensures exists j :: 0 <= j < |two| && Matches(two[j], one[i].payload) && two[j].value == one[i].value
  {
    hide Total, Lawful, MatchCount;
    var p := one[i].payload;
    ReadoutValue(m, s, one, i);
    assert ReadsKey(m, s, two, p);
    CountPresent(two, p);
    var j :| 0 <= j < |two| && Matches(two[j], p);
    ReadoutValue(m, s, two, j);
  }

  /** The real blocks of `out` are the map: one block for each of its keys, with its value. */
  ghost predicate HoldsMap<V>(out: seq<Block<V>>, totals: map<Payload, V>) {
    && (forall i :: 0 <= i < |out| && out[i].Real() ==>
          out[i].payload in totals && totals[out[i].payload] == out[i].value)
    && (forall p :: p in totals ==> exists i :: 0 <= i < |out| && Matches(out[i], p))
    && (forall p :: Single(out, p))
  }

  /** A readout of contents that have the keys and totals of a map is that map. */
  lemma ReadoutIsMap<V(!new)>(m: Values<V>, s: seq<Block<V>>, out: seq<Block<V>>, totals: map<Payload, V>)
    requires Lawful(m) && IsReadout(m, s, out)
    requires forall p :: MatchCount(s, p) > 0 <==> p in totals
    requires forall p :: p in totals ==> Total(m, s, p) == totals[p]
    ensures HoldsMap(out, totals)
  {
    hide Total, Lawful, MatchCount, Single;
    forall i | 0 <= i < |out| && out[i].Real()
      ensures out[i].payload in totals && totals[out[i].payload] == out[i].value
    {
      ReadoutValue(m, s, out, i);
    }
    forall p ensures Single(out, p) && (p in totals ==> exists i :: 0 <= i < |out| && Matches(out[i], p)) {
      assert ReadsKey(m, s, out, p);
      CountSingle(out, p);
      CountPresent(out, p);
    }
  }

  // ---- Several readouts side by side ------------------------------------------------------------

  ghost function Flat<T>(ss: seq<seq<T>>): seq<T> {
    if ss == [] then [] else Flat(ss[..|ss| - 1]) + ss[|ss| - 1]
  }

  lemma FlatAppend<T>(ss: seq<seq<T>>, s: seq<T>)
    ensures Flat(ss + [s]) == Flat(ss) + s
  {
    assert (ss + [s])[..|ss + [s]| - 1] == ss;
  }

  lemma {:induction false} FlatCount<V>(ss: seq<seq<Block<V>>>, p: Payload)
    ensures MatchCount(Flat(ss), p) > 0 <==> exists d :: 0 <= d < |ss| && MatchCount(ss[d], p) > 0
  {
    if ss != [] {
      var n := |ss| - 1;
      FlatCount(ss[..n], p);
      CountConcat(Flat(ss[..n]), ss[n], p);
      assert forall d :: 0 <= d < n ==> ss[..n][d] == ss[d];
      assert MatchCount(Flat(ss), p) > 0 <==> MatchCount(Flat(ss[..n]), p) > 0 || MatchCount(ss[n], p) > 0;
    }
  }

  /** No part shares a key with another. */
  ghost predicate KeyOnce<V>(ss: seq<seq<Block<V>>>, p: Payload) {
    forall d, e :: 0 <= d < e < |ss| && MatchCount(ss[d], p) > 0 ==> MatchCount(ss[e], p) == 0
  }

  lemma NothingRead<V>(m: Values<V>, p: Payload)
    ensures ReadsKey(m, [], [], p)
  {
  }

  /** Readouts of parts that share no key make a readout of the whole. */
  lemma {:induction false} FlatReadsKey<V(!new)>(m: Values<V>, ss: seq<seq<Block<V>>>, os: seq<seq<Block<V>>>,
                                                 p: Payload)
    requires Lawful(m) && |ss| == |os| && KeyOnce(ss, p)
    requires forall d :: 0 <= d < |ss| ==> ReadsKey(m, ss[d], os[d], p)
    ensures ReadsKey(m, Flat(ss), Flat(os), p)
  {
    hide Lawful, Total, MatchCount;
    if ss == [] {
      NothingRead(m, p);
    } else {
      var n := |ss| - 1;
      forall d | 0 <= d < n ensures ss[..n][d] == ss[d] && os[..n][d] == os[d] {}
      FlatReadsKey(m, ss[..n], os[..n], p);
      CountConcat(Flat(ss[..n]), ss[n], p);
      CountConcat(Flat(os[..n]), os[n], p);
      TotalConcat(m, Flat(ss[..n]), ss[n], p);
      TotalConcat(m, Flat(os[..n]), os[n], p);
      FlatCount(ss[..n], p);
      if MatchCount(Flat(ss[..n]), p) > 0 {
        var d :| 0 <= d < n && MatchCount(ss[..n][d], p) > 0;
        assert ss[..n][d] == ss[d];
      }
    }
  }

  lemma {:induction false} FlatTotal<V(!new)>(m: Values<V>, ss: seq<seq<Block<V>>>, os: seq<seq<Block<V>>>, p: Payload)
    requires Lawful(m) && |ss| == |os| && forall d :: 0 <= d < |ss| ==> Total(m, ss[d], p) == Total(m, os[d], p)
    ensures Total(m, Flat(ss), p) == Total(m, Flat(os), p)
  {
    hide Lawful, Total;
    if ss != [] {
      var n := |ss| - 1;
      forall d | 0 <= d < n ensures ss[..n][d] == ss[d] && os[..n][d] == os[d] {}
      FlatTotal(m, ss[..n], os[..n], p);
      TotalConcat(m, Flat(ss[..n]), ss[n], p);
      TotalConcat(m, Flat(os[..n]), os[n], p);
    }
  }

  // ---- The plain readout --------------------------------------------------------------------------

  /** Dummies stand behind all real blocks. */
  ghost predicate RealFirst<V>(s: seq<Block<V>>) {
    forall i :: 0 <= i < |s| ==> (s[i].Real() <==> i < |Live(s)|)
  }

  /** `oblivious_readout`: sort by key, reduce, compact. */
  method ObliviousReadout<V(!new)>(m: Values<V>, blocks: array<Block<V>>)
    requires Lawful(m)
    modifies blocks
    ensures IsReadout(m, old(blocks[..]), blocks[..])
    ensures RealFirst(blocks[..])
  {
    hide Lawful, IsReadout, Reached, Reduced, Sorted, CompactedSlice, Live, Adjacent, RealFirst;
    ghost var s := blocks[..];
    assert blocks[0..blocks.Length] == s;
    SortBy(blocks, 0, blocks.Length, PayloadGt);
    ghost var t := blocks[..];
    assert blocks[0..blocks.Length] == t;
    PayloadOrder<V>();
    SortBySorts(s, t, PayloadGt);
    forall p ensures Adjacent(t, p) { PayloadSortedAdjacent(t, p); }
    ReduceEqualRuns(m, blocks);
    ReducedIsReadout(m, s, t);
    ghost var r := blocks[..];
    var realLen := CompactBlocks(blocks, 0, blocks.Length);
    CompactedAll(r, blocks[..]);
    ReadoutOfLive(m, s, r, s, blocks[..]);
  }

  /** A whole sequence compacted keeps its real blocks in order and in front. */
  lemma CompactedAll<V>(r: seq<Block<V>>, c: seq<Block<V>>)
    requires CompactedSlice(r, c, 0, |r|)
    ensures |c| == |r| && Live(c) == Live(r) && |Live(r)| <= |c|
    ensures RealFirst(c)
  {
    hide Live;
    assert r[0..0 + |r|] == r;
    var k := |Live(r)|;
    assert c == c[..k] + c[k..] && c[..k] == c[0..0 + k];
    LiveConcat(c[..k], c[k..]);
    forall i | 0 <= i < k ensures c[i].Real() { assert c[i] == Live(r)[i] && Live(r)[i] in Live(r); }
    LiveAll(c[..k]);
    LiveNone(c[k..]);
  }

  /** A fresh buffer with the first `n` slots of `a` and those of `b` from `lo` on. */
  method Joined<T>(a: array<T>, n: nat, b: array<T>, lo: nat, x: T) returns (r: array<T>)
    requires n <= a.Length && lo <= b.Length
    ensures fresh(r) && r[..] == a[..n] + b[lo..]
  {
    r := new T[n + (b.Length - lo)](_ => x);
    for i := 0 to n
      invariant forall k :: 0 <= k < i ==> r[k] == a[k]
    {
      r[i] := a[i];
    }
    for i := lo to b.Length
      invariant forall k :: 0 <= k < n ==> r[k] == a[k]
      invariant forall k :: n <= k < n + (i - lo) ==> r[k] == b[lo + (k - n)]
    {
      r[n + (i - lo)] := b[i];
    }
  }
}
