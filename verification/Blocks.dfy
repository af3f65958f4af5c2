/**
  The blocks stored in tree nodes and stash slots, the values they carry, and what
  a sequence of blocks amounts to: its real blocks, and the total of each key.
 */
module Blocks {

  type Byte = x: int | 0 <= x < 256
  type Payload = seq<Byte>

  /** A 64-bit routing tag; zero marks a dummy slot. */
  type Tag = x: int | 0 <= x < 0x1_0000_0000_0000_0000

  datatype Block<V> = Block(tag: Tag, epoch: Byte, value: V, payload: Payload) {
    predicate Real() { tag != 0 }
  }

  // ---- Values -----------------------------------------------------------------------

  /** The value type of a histogram: a default and an addition. */
  datatype Values<!V> = Values(zero: V, plus: (V, V) -> V)

  ghost predicate Law<V>(m: Values<V>, a: V, b: V, c: V) {
    && m.plus(m.zero, a) == a
    && m.plus(a, b) == m.plus(b, a)
    && m.plus(m.plus(a, b), c) == m.plus(a, m.plus(b, c))
  }

  /** Addition is commutative and associative, and the default value is its identity. */
  ghost predicate Lawful<V(!new)>(m: Values<V>) {
    forall a, b, c :: Law(m, a, b, c)
  }

  lemma Laws<V(!new)>(m: Values<V>, a: V, b: V, c: V)
    requires Lawful(m)
    ensures m.plus(m.zero, a) == a == m.plus(a, m.zero)
    ensures m.plus(a, b) == m.plus(b, a)
    ensures m.plus(m.plus(a, b), c) == m.plus(a, m.plus(b, c)) == m.plus(m.plus(a, c), b)
  {
    assert Law(m, a, b, c) && Law(m, a, m.zero, m.zero) && Law(m, a, c, b) && Law(m, b, c, a);
  }

  // ---- Sequences of blocks --------------------------------------------------------------

  /** The real blocks, in order. */
  ghost function Live<V>(s: seq<Block<V>>): (r: seq<Block<V>>)
    ensures |r| <= |s|
    ensures forall x :: x in r ==> x.Real() && x in s
  {
    if s == [] then []
    else Live(s[..|s| - 1]) + if s[|s| - 1].Real() then [s[|s| - 1]] else []
  }

  function Contribution<V>(m: Values<V>, x: Block<V>, p: Payload): V {
    if x.Real() && x.payload == p then x.value else m.zero
  }

  predicate Matches<V>(b: Block<V>, p: Payload) { b.payload == p && b.Real() }

  /** The total the real blocks of `s` hold for key `p`. */
  ghost function Total<V>(m: Values<V>, s: seq<Block<V>>, p: Payload): V {
    if s == [] then m.zero
    else m.plus(Total(m, s[..|s| - 1], p), Contribution(m, s[|s| - 1], p))
  }

  lemma {:induction false} LiveConcat<V>(s: seq<Block<V>>, t: seq<Block<V>>)
    ensures Live(s + t) == Live(s) + Live(t)
  {
    if t == [] {
      assert s + t == s;
    } else {
      assert (s + t)[..|s + t| - 1] == s + t[..|t| - 1];
      LiveConcat(s, t[..|t| - 1]);
    }
  }

  lemma {:induction false} LiveCount<V>(s: seq<Block<V>>, x: Block<V>)
    ensures multiset(Live(s))[x] == if x.Real() then multiset(s)[x] else 0
  {
    if s != [] {
      LiveCount(s[..|s| - 1], x);
      assert s == s[..|s| - 1] + [s[|s| - 1]];
    }
  }

  lemma SameCounts<T>(a: multiset<T>, b: multiset<T>)
    requires forall x :: x in a || x in b ==> a[x] == b[x]
    ensures a == b
  {
  }

  lemma Cancel<T>(a: multiset<T>, b: multiset<T>, c: multiset<T>)
    requires a + c == b + c
    ensures a == b
  {
    assert a == (a + c) - c && b == (b + c) - c;
  }

  /** A permutation of the slots permutes the real blocks. */
  lemma LivePermutes<V>(s: seq<Block<V>>, t: seq<Block<V>>)
    requires multiset(s) == multiset(t)
    ensures multiset(Live(s)) == multiset(Live(t)) && |Live(s)| == |Live(t)|
  {
    hide Live;
    var a, b := multiset(Live(s)), multiset(Live(t));
    forall x | x in a || x in b ensures a[x] == b[x] {
      LiveCount(s, x);
      LiveCount(t, x);
    }
    SameCounts(a, b);
    assert |Live(s)| == |a| && |Live(t)| == |b|;
  }

  lemma {:induction false} LiveNone<V>(s: seq<Block<V>>)
    requires forall i :: 0 <= i < |s| ==> !s[i].Real()
    ensures Live(s) == []
  {
    if s != [] { LiveNone(s[..|s| - 1]); }
  }

  lemma {:induction false} LiveAll<V>(s: seq<Block<V>>)
    requires forall i :: 0 <= i < |s| ==> s[i].Real()
    ensures Live(s) == s
  {
    if s != [] {
      LiveAll(s[..|s| - 1]);
      assert s == s[..|s| - 1] + [s[|s| - 1]];
    }
  }

  lemma {:induction false} TotalConcat<V(!new)>(m: Values<V>, s: seq<Block<V>>, t: seq<Block<V>>, p: Payload)
    requires Lawful(m)
    ensures Total(m, s + t, p) == m.plus(Total(m, s, p), Total(m, t, p))
  {
    if t == [] {
      assert s + t == s;
      Laws(m, Total(m, s, p), m.zero, m.zero);
    } else {
      var t', x := t[..|t| - 1], t[|t| - 1];
      assert (s + t)[..|s + t| - 1] == s + t';
      TotalConcat(m, s, t', p);
      Laws(m, Total(m, s, p), Total(m, t', p), Contribution(m, x, p));
    }
  }

  /** Dummies count for nothing. */
  lemma {:induction false} TotalLive<V(!new)>(m: Values<V>, s: seq<Block<V>>, p: Payload)
    requires Lawful(m)
    ensures Total(m, s, p) == Total(m, Live(s), p)
  {
    if s != [] {
      var s', x := s[..|s| - 1], s[|s| - 1];
      TotalLive(m, s', p);
      if x.Real() {
        assert (Live(s') + [x])[..|Live(s') + [x]| - 1] == Live(s');
      } else {
        assert Live(s) == Live(s');
        Laws(m, Total(m, s', p), m.zero, m.zero);
      }
    }
  }

  lemma TotalOne<V(!new)>(m: Values<V>, x: Block<V>, p: Payload)
    requires Lawful(m)
    ensures Total(m, [x], p) == Contribution(m, x, p)
  {
    assert [x][..0] == [];
    assert Total(m, [x], p) == m.plus(Total(m, [], p), Contribution(m, x, p));
    Laws(m, Contribution(m, x, p), m.zero, m.zero);
  }

  lemma TotalRemove<V(!new)>(m: Values<V>, t: seq<Block<V>>, i: nat, p: Payload)
    requires Lawful(m) && i < |t|
    ensures Total(m, t, p) == m.plus(Total(m, t[..i] + t[i + 1..], p), Contribution(m, t[i], p))
  {
    var a, c := t[..i], t[i + 1..];
    assert t == (a + [t[i]]) + c;
    TotalConcat(m, a + [t[i]], c, p);
    TotalConcat(m, a, [t[i]], p);
    TotalConcat(m, a, c, p);
    TotalOne(m, t[i], p);
    Laws(m, Total(m, a, p), Contribution(m, t[i], p), Total(m, c, p));
  }

  lemma WithoutOne<T>(s: seq<T>, x: T, t: seq<T>, i: nat)
    requires i < |t| && t[i] == x && multiset(s + [x]) == multiset(t)
    ensures multiset(t[..i] + t[i + 1..]) == multiset(s)
  {
    var t', c := t[..i] + t[i + 1..], multiset{x};
    assert t == t[..i] + [x] + t[i + 1..];
    assert multiset(t) == multiset(t') + c && multiset(s + [x]) == multiset(s) + c;
    assert multiset(t') == (multiset(t') + c) - c && multiset(s) == (multiset(s) + c) - c;
  }

  /** Totals do not depend on the order of the blocks. */
  lemma {:induction false} TotalPermutes<V(!new)>(m: Values<V>, s: seq<Block<V>>, t: seq<Block<V>>, p: Payload)
    requires Lawful(m) && multiset(s) == multiset(t)
    ensures Total(m, s, p) == Total(m, t, p)
    decreases |s|
  {
    if s == [] {
      assert |multiset(t)| == |t| && |multiset(s)| == |s|;
    } else {
      var s', x := s[..|s| - 1], s[|s| - 1];
      assert s == s' + [x];
      assert x in multiset(t);
      var i :| 0 <= i < |t| && t[i] == x;
      var t' := t[..i] + t[i + 1..];
      WithoutOne(s', x, t, i);
      TotalPermutes(m, s', t', p);
      TotalRemove(m, t, i, p);
    }
  }

  /** Sequences with the same real blocks, in any order and with any dummies, have the same totals. */
  lemma TotalOfLive<V(!new)>(m: Values<V>, s: seq<Block<V>>, t: seq<Block<V>>, p: Payload)
    requires Lawful(m) && multiset(Live(s)) == multiset(Live(t))
    ensures Total(m, s, p) == Total(m, t, p)
  {
    TotalLive(m, s, p);
    TotalLive(m, t, p);
    TotalPermutes(m, Live(s), Live(t), p);
  }

  lemma {:induction false} TotalAbsent<V(!new)>(m: Values<V>, s: seq<Block<V>>, p: Payload)
    requires Lawful(m)
    requires forall i :: 0 <= i < |s| && s[i].Real() ==> s[i].payload != p
    ensures Total(m, s, p) == m.zero
  {
    if s != [] {
      TotalAbsent(m, s[..|s| - 1], p);
      Laws(m, m.zero, m.zero, m.zero);
    }
  }
}
