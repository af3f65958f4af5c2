/**
  How many blocks a sorted and reduced run leaves for a bin, in terms of the keys that
  went in: one for every key, when the sort brings the blocks of every key together.
 */
module Loads {
  import opened Blocks
  import opened Reduction
  import opened SortReduce
  import opened Readout
  import opened Presence
  import opened Router

  /** The keys that have a real block in the bin. */
  ghost function KeysIn<V>(s: seq<Block<V>>, binOf: Block<V> -> nat, b: nat): set<Payload> {
    set i | 0 <= i < |s| && s[i].Real() && binOf(s[i]) == b :: s[i].payload
  }

  ghost predicate OnePerKey<V>(s: seq<Block<V>>) {
    forall i, j :: 0 <= i < j < |s| && s[i].Real() && s[j].Real() ==> s[i].payload != s[j].payload
  }

  /** The bin of a block is that of its tag, and all blocks of a key have the same bin. */
  ghost predicate KeysHaveBins<V(!new)>(s: seq<Block<V>>, binOf: Block<V> -> nat) {
    && (forall x: Block<V>, y: Block<V> :: x.tag == y.tag ==> binOf(x) == binOf(y))
    && forall i, j :: 0 <= i < |s| && 0 <= j < |s| && s[i].Real() && s[j].Real() && s[i].payload == s[j].payload ==>
         binOf(s[i]) == binOf(s[j])
  }

  /** With one block per key, a bin has as many blocks as keys. */
  lemma {:induction false} BinIsKeys<V>(s: seq<Block<V>>, binOf: Block<V> -> nat, b: nat)
    requires OnePerKey(s)
    ensures |BinBlocks(s, binOf, b)| == |KeysIn(s, binOf, b)|
  {
    if s != [] {
      hide KeysIn, OnePerKey;
      KeysNext(s, binOf, b);
      BinIsKeys(s[..|s| - 1], binOf, b);
    } else {
      assert KeysIn(s, binOf, b) == {};
    }
  }

  lemma KeysNext<V>(s: seq<Block<V>>, binOf: Block<V> -> nat, b: nat)
    requires s != [] && OnePerKey(s)
    ensures var front, x := s[..|s| - 1], s[|s| - 1];
      && OnePerKey(front)
      && |KeysIn(s, binOf, b)| == |KeysIn(front, binOf, b)| + if x.Real() && binOf(x) == b then 1 else 0
  {
    hide KeysIn;
    KeysSplit(s, binOf, b);
    if s[|s| - 1].Real() { LastIsNew(s, binOf, b); }
  }

  lemma KeysSplit<V>(s: seq<Block<V>>, binOf: Block<V> -> nat, b: nat)
    requires s != []
    ensures var front, x := s[..|s| - 1], s[|s| - 1];
      KeysIn(s, binOf, b) == KeysIn(front, binOf, b) + if x.Real() && binOf(x) == b then {x.payload} else {}
  {
    var front, x := s[..|s| - 1], s[|s| - 1];
    forall p | p in KeysIn(front, binOf, b) ensures p in KeysIn(s, binOf, b) {
      var i :| 0 <= i < |front| && front[i].Real() && binOf(front[i]) == b && front[i].payload == p;
      assert s[i] == front[i];
    }
    forall p | p in KeysIn(s, binOf, b)
      ensures p in KeysIn(front, binOf, b) || (p == x.payload && x.Real() && binOf(x) == b)
    {
      var i :| 0 <= i < |s| && s[i].Real() && binOf(s[i]) == b && s[i].payload == p;
      if i < |front| { assert front[i] == s[i]; }
    }
  }

  lemma LastIsNew<V>(s: seq<Block<V>>, binOf: Block<V> -> nat, b: nat)
    requires s != [] && OnePerKey(s) && s[|s| - 1].Real()
    ensures s[|s| - 1].payload !in KeysIn(s[..|s| - 1], binOf, b)
  {
    var front := s[..|s| - 1];
    forall i | 0 <= i < |front| && front[i].Real() ensures front[i].payload != s[|s| - 1].payload {
      assert s[i] == front[i];
    }
  }

  /** Where the blocks of every key are adjacent, reduction leaves one per key. */
  lemma ReducedOnePerKey<V>(m: Values<V>, t: seq<Block<V>>)
    requires forall p :: Adjacent(t, p)
    ensures OnePerKey(Live(Reduced(m, t)))
  {
    hide Live, Reduced, Adjacent;
    var r := Reduced(m, t);
    var l := Live(r);
    forall i, j | 0 <= i < j < |l| && l[i].Real() && l[j].Real() ensures l[i].payload != l[j].payload {
      var a := LiveOrigin(r, i);
      var b := LiveOrigin(r, j);
      AdjacentLeavesOne(m, t, l[i].payload);
      assert a != b && Matches(r[a], l[i].payload);
    }
  }

  /** Reduction leaves every bin its keys. */
  lemma ReducedKeys<V(!new)>(m: Values<V>, t: seq<Block<V>>, binOf: Block<V> -> nat, b: nat)
    requires KeysHaveBins(t, binOf)
    ensures KeysIn(Live(Reduced(m, t)), binOf, b) == KeysIn(t, binOf, b)
  {
    hide Live, Reduced, MatchCount;
    var r := Reduced(m, t);
    var l := Live(r);
    forall p | p in KeysIn(l, binOf, b) ensures p in KeysIn(t, binOf, b) {
      var k :| 0 <= k < |l| && l[k].Real() && binOf(l[k]) == b && l[k].payload == p;
      var a := LiveOrigin(r, k);
      Survives(m, t, a);
      assert t[a].tag == r[a].tag;
    }
    forall p | p in KeysIn(t, binOf, b) ensures p in KeysIn(l, binOf, b) {
      var i :| 0 <= i < |t| && t[i].Real() && binOf(t[i]) == b && t[i].payload == p;
      assert Matches(t[i], p);
      CountPresent(t, p);
      ReducedPresent(m, t, p);
      CountPresent(r, p);
      var a :| 0 <= a < |r| && Matches(r[a], p);
      Survives(m, t, a);
      LiveAt(r, a);
      assert t[a].tag == r[a].tag && l[|Live(r[..a])|] == r[a];
    }
  }

  lemma KeysPermute<V>(s: seq<Block<V>>, t: seq<Block<V>>, binOf: Block<V> -> nat, b: nat)
    requires multiset(s) == multiset(t)
    ensures KeysIn(s, binOf, b) <= KeysIn(t, binOf, b)
  {
    forall p | p in KeysIn(s, binOf, b) ensures p in KeysIn(t, binOf, b) {
      var i :| 0 <= i < |s| && s[i].Real() && binOf(s[i]) == b && s[i].payload == p;
      assert s[i] in multiset(t);
    }
  }

  /** The load of a bin after sorting and reducing: the number of its keys. */
  lemma LoadIsKeys<V(!new)>(m: Values<V>, s: seq<Block<V>>, t: seq<Block<V>>, binOf: Block<V> -> nat, b: nat)
    requires multiset(s) == multiset(t) && KeysHaveBins(t, binOf) && forall p :: Adjacent(t, p)
    ensures |BinBlocks(Live(Reduced(m, t)), binOf, b)| == |KeysIn(s, binOf, b)|
  {
    hide Live, Reduced, BinBlocks, KeysIn, Adjacent, KeysHaveBins, OnePerKey;
    ReducedOnePerKey(m, t);
    BinIsKeys(Live(Reduced(m, t)), binOf, b);
    ReducedKeys(m, t, binOf, b);
    KeysPermute(s, t, binOf, b);
    KeysPermute(t, s, binOf, b);
    assert KeysIn(s, binOf, b) == KeysIn(t, binOf, b);
  }
}
