/**
  What a read misses when two keys' tags are ranked alike: the blocks of the key may be
  separated on the sorted path, and only the last run of them is returned.
 */
module Collisions {
  import opened Networks
  import opened MergeExchangeNetwork
  import opened DjbSort
  import opened Blocks
  import opened Reduction
  import opened Routing
  import opened SortReduce
  import opened Stash

  // ---- The order of a sorted path depends on tags only ---------------------------------------------

  predicate SameLabel<V>(a: Block<V>, b: Block<V>) { a.tag == b.tag && a.payload == b.payload }

  /** The same tags and keys throughout, whatever the values and epochs. */
  ghost predicate SameLabels<V>(s: seq<Block<V>>, t: seq<Block<V>>) {
    |s| == |t| && forall i :: 0 <= i < |s| ==> SameLabel(s[i], t[i])
  }

  ghost predicate SameKeyed<V>(z: seq<(nat, Block<V>)>, y: seq<(nat, Block<V>)>) {
    |z| == |y| && forall i :: 0 <= i < |z| ==> z[i].0 == y[i].0 && SameLabel(z[i].1, y[i].1)
  }

  lemma {:induction false} RunKeyed<V>(net: Network, z: seq<(nat, Block<V>)>, y: seq<(nat, Block<V>)>)
    requires SameKeyed(z, y) && Fits(net, |z|)
    ensures SameKeyed(Run(net, z, KeyGt), Run(net, y, KeyGt))
  {
    match net
    case Empty =>
    case One(i, j) =>
    case Then(a, b) =>
      RunKeyed(a, z, y);
      RunKeyed(b, Run(a, z, KeyGt), Run(a, y, KeyGt));
  }

  /** Every result with the same keys and labels is reached from some input with the same keys and labels. */
  lemma {:induction false} RunPreimage<V>(net: Network, z: seq<(nat, Block<V>)>, out: seq<(nat, Block<V>)>)
      returns (y: seq<(nat, Block<V>)>)
    requires Fits(net, |z|) && SameKeyed(Run(net, z, KeyGt), out)
    ensures SameKeyed(z, y) && Run(net, y, KeyGt) == out
  {
    match net
    case Empty => y := out;
    case One(i, j) => y := if KeyGt(z[i], z[j]) then out[i := out[j]][j := out[i]] else out;
    case Then(a, b) =>
      var mid := RunPreimage(b, Run(a, z, KeyGt), out);
      y := RunPreimage(a, z, mid);
  }

  lemma SortKeepsLabels<V>(s: seq<Block<V>>, t: seq<Block<V>>, leaf: nat, height: nat)
    requires height <= MAX_TREE_HEIGHT && SameLabels(s, t)
    ensures SameLabels(SortedByKey(s, RankKey(leaf, height)), SortedByKey(t, RankKey(leaf, height)))
  {
    hide Run, Fits, MergeExchange;
    MergeExchangeFits(|s|);
    var z, y := Zip(KeysOf(s, RankKey(leaf, height)), s), Zip(KeysOf(t, RankKey(leaf, height)), t);
    RunKeyed(MergeExchange(|s|), z, y);
  }

  lemma SortPreimage<V>(s: seq<Block<V>>, w: seq<Block<V>>, leaf: nat, height: nat) returns (t: seq<Block<V>>)
    requires height <= MAX_TREE_HEIGHT && SameLabels(SortedByKey(s, RankKey(leaf, height)), w)
    ensures SameLabels(s, t) && SortedByKey(t, RankKey(leaf, height)) == w
  {
    hide Run, Fits, MergeExchange, PathRankKey;
    var key := RankKey(leaf, height);
    MergeExchangeFits(|s|);
    var z := Zip(KeysOf(s, key), s);
    var sorted := Run(MergeExchange(|s|), z, KeyGt);
    RunPermutes(MergeExchange(|s|), z, KeyGt);
    forall i | 0 <= i < |s| ensures sorted[i].0 == key(sorted[i].1) {
      assert sorted[i] in multiset(sorted);
      assert sorted[i] in multiset(z);
    }
    var y := RunPreimage(MergeExchange(|s|), z, Zip(KeysOf(w, key), w));
    t := Seconds(y);
    assert y == Zip(KeysOf(t, key), t);
    assert Seconds(Zip(KeysOf(w, key), w)) == w;
  }

  // ---- When a read is exact, whatever the values ---------------------------------------------------------

  /** What sorting, reducing and scanning the blocks `s` of a path returns for `p`. */
  ghost function ReadOff<V>(m: Values<V>, s: seq<Block<V>>, leaf: nat, height: nat, p: Payload): V
    requires height <= MAX_TREE_HEIGHT
  {
    LastMatch(m, Reduced(m, SortedByKey(s, RankKey(leaf, height))), p)
  }

  ghost predicate ReadsExactly<V(!new)>(m: Values<V>, s: seq<Block<V>>, leaf: nat, height: nat, p: Payload)
    requires height <= MAX_TREE_HEIGHT
  {
    forall t :: SameLabels(s, t) ==> ReadOff(m, t, leaf, height, p) == Total(m, t, p)
  }

  /**
    With given tags and keys on the path, a read returns the key's total for all values
    exactly when no other block ends up between two of the key's in the sorted order.
   */
  lemma ReadIsExactIff<V(!new)>(m: Values<V>, s: seq<Block<V>>, leaf: nat, height: nat, p: Payload, v: V)
    requires Lawful(m) && v != m.zero && height <= MAX_TREE_HEIGHT && LeafAt(leaf, height)
    ensures ReadsExactly(m, s, leaf, height, p) <==> Adjacent(SortedByKey(s, RankKey(leaf, height)), p)
  {
    hide SortedByKey, LeafAt, Lawful, Total, Reduced, LastMatch;
    var key := RankKey(leaf, height);
    if Adjacent(SortedByKey(s, key), p) {
      forall t | SameLabels(s, t) ensures ReadOff(m, t, leaf, height, p) == Total(m, t, p) {
        SortKeepsLabels(s, t, leaf, height);
        AdjacentLabels(SortedByKey(s, key), SortedByKey(t, key), p);
        AdjacentLeavesOne(m, SortedByKey(t, key), p);
        LastMatchIsTotal(m, Reduced(m, SortedByKey(t, key)), p);
        SortReduceKeepsTotals(m, t, key, p);
      }
    } else {
      SomeReadMisses(m, s, leaf, height, p, v);
    }
  }

  lemma AdjacentLabels<V>(s: seq<Block<V>>, t: seq<Block<V>>, p: Payload)
    requires SameLabels(s, t) && Adjacent(s, p)
    ensures Adjacent(t, p)
  {
    forall i | 0 <= i < |s| ensures Matches(s[i], p) == Matches(t[i], p) { assert SameLabel(s[i], t[i]); }
  }

  lemma {:induction false} AllZero<V(!new)>(m: Values<V>, s: seq<Block<V>>, p: Payload, i: nat)
    requires Lawful(m) && (forall j :: 0 <= j < |s| && j != i ==> s[j].value == m.zero)
    ensures Total(m, s, p) == if i < |s| && Matches(s[i], p) then s[i].value else m.zero
  {
    if s != [] {
      var n := |s| - 1;
      AllZero(m, s[..n], p, i);
      Laws(m, m.zero, m.zero, m.zero);
      Laws(m, s[n].value, m.zero, m.zero);
      if i < n { Laws(m, s[i].value, m.zero, m.zero); }
    }
  }

  lemma Separated<V>(s: seq<Block<V>>, p: Payload) returns (i: nat, j: nat, k: nat)
    requires !Adjacent(s, p)
    ensures i < j < k < |s| && Matches(s[i], p) && Matches(s[k], p) && !Matches(s[j], p)
  {
    i, j, k :| i < j < k < |s| && Matches(s[i], p) && Matches(s[k], p) && !Matches(s[j], p);
  }

  /** Separated blocks: with `v` on the first of them and zeros elsewhere, the read returns zero. */
  lemma SomeReadMisses<V(!new)>(m: Values<V>, s: seq<Block<V>>, leaf: nat, height: nat, p: Payload, v: V)
    requires Lawful(m) && v != m.zero && height <= MAX_TREE_HEIGHT && LeafAt(leaf, height)
    requires !Adjacent(SortedByKey(s, RankKey(leaf, height)), p)
    ensures !ReadsExactly(m, s, leaf, height, p)
  {
    hide SortedByKey, LeafAt, Lawful, Total, Reduced, LastMatch, Adjacent;
    var key := RankKey(leaf, height);
    var u := SortedByKey(s, key);
    var i, j, k := Separated(u, p);
    var w := seq(|u|, l requires 0 <= l < |u| => u[l].(value := if l == i then v else m.zero));
    var t := SortPreimage(s, w, leaf, height);
    LaterRunIsZero(m, w, p, i, j, k);
    SortedByKeyIsSorted(t, key);
    TotalPermutes(m, w, t, p);
    AllZero(m, w, p, i);
  }

  lemma {:induction false} LastIndex<V>(s: seq<Block<V>>, p: Payload, k: nat) returns (l: nat)
    requires k < |s| && Matches(s[k], p)
    ensures k <= l < |s| && Matches(s[l], p) && forall x :: l < x < |s| ==> !Matches(s[x], p)
    decreases |s|
  {
    l := |s| - 1;
    if !Matches(s[l], p) { l := LastIndex(s[..l], p, k); }
  }

  lemma {:induction false} LastMatchAt<V>(m: Values<V>, s: seq<Block<V>>, p: Payload, l: nat)
    requires l < |s| && Matches(s[l], p) && forall x :: l < x < |s| ==> !Matches(s[x], p)
    ensures LastMatch(m, s, p) == s[l].value
    decreases |s|
  {
    if l < |s| - 1 { LastMatchAt(m, s[..|s| - 1], p, l); }
  }

  lemma LaterRunIsZero<V(!new)>(m: Values<V>, w: seq<Block<V>>, p: Payload, i: nat, j: nat, k: nat)
    requires Lawful(m) && i < j < k < |w| && !Matches(w[j], p) && Matches(w[k], p)
    requires forall l :: 0 <= l < |w| && l != i ==> w[l].value == m.zero
    ensures LastMatch(m, Reduced(m, w), p) == m.zero
  {
    hide Lawful, Total, LastMatch, Reduced;
    var l := LastIndex(w, p, k);
    var r := Reduced(m, w);
    forall x | l <= x < |w| ensures Matches(r[x], p) == (x == l) { Survives(m, w, x); }
    LastMatchAt(m, r, p, l);
    Survives(m, w, l);
    SurvivorHoldsRun(m, w, l);
    var a := RunStart(w, l);
    assert !(w[j].Real() && w[j].payload == w[l].payload);
    AllZero(m, w[a..l + 1], p, |w|);
  }

  /** Where nothing is greater than anything, a network does nothing. */
  lemma {:induction false} RunIdle<T>(net: Network, s: seq<T>, gt: (T, T) -> bool)
    requires Fits(net, |s|) && forall i, j :: 0 <= i < |s| && 0 <= j < |s| ==> !gt(s[i], s[j])
    ensures Run(net, s, gt) == s
  {
    match net
    case Empty =>
    case One(i, j) =>
    case Then(a, b) =>
      RunIdle(a, s, gt);
      RunIdle(b, s, gt);
  }

  lemma SortIdle<V>(s: seq<Block<V>>, keyOf: Block<V> -> nat)
    requires forall i, j :: 0 <= i < |s| && 0 <= j < |s| ==> keyOf(s[i]) == keyOf(s[j])
    ensures SortedByKey(s, keyOf) == s
  {
    hide Run, Fits, MergeExchange;
    MergeExchangeFits(|s|);
    RunIdle(MergeExchange(|s|), Zip(KeysOf(s, keyOf), s), KeyGt);
  }
}
