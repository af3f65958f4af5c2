/**
  The orders in which blocks are read out: by key alone, and by routing bits first.  Both
  put real blocks before dummies.
 */
module Order {
  import opened Networks
  import opened Blocks
  import opened Reduction
  import opened Routing

  /** Lexicographic order of byte strings; for equal lengths, a comparison byte by byte. */
  predicate LexGt(a: Payload, b: Payload) {
    if a == [] then false
    else if b == [] then true
    else if a[0] != b[0] then a[0] > b[0]
    else LexGt(a[1..], b[1..])
  }

  lemma {:induction false} LexDecides(a: Payload, b: Payload)
    ensures LexGt(a, b) ==> !LexGt(b, a)
    ensures !LexGt(a, b) && !LexGt(b, a) <==> a == b
  {
    if a != [] && b != [] && a[0] == b[0] {
      LexDecides(a[1..], b[1..]);
      assert a == [a[0]] + a[1..] && b == [b[0]] + b[1..];
    }
  }

  lemma {:induction false} LexSplits(a: Payload, b: Payload, c: Payload)
    requires LexGt(a, c)
    ensures LexGt(a, b) || LexGt(b, c)
  {
    if b != [] && c != [] && a[0] == b[0] == c[0] { LexSplits(a[1..], b[1..], c[1..]); }
  }

  /** One string is greater at the first byte where they differ, or where the other one ends. */
  lemma {:induction false} LexFirst(a: Payload, b: Payload)
    ensures LexGt(a, b) <==> exists i: nat :: GreaterAt(a, b, i)
  {
    if a != [] && b != [] && a[0] == b[0] {
      LexFirst(a[1..], b[1..]);
      if i: nat :| GreaterAt(a[1..], b[1..], i) {
        assert a[..i + 1] == [a[0]] + a[1..][..i] && b[..i + 1] == [b[0]] + b[1..][..i];
        assert GreaterAt(a, b, i + 1);
      }
      if i: nat :| GreaterAt(a, b, i) {
        assert i > 0;
        assert a[1..][..i - 1] == a[..i][1..] && b[1..][..i - 1] == b[..i][1..];
        assert GreaterAt(a[1..], b[1..], i - 1);
      }
    } else if a != [] {
      assert GreaterAt(a, b, 0) <==> LexGt(a, b);
      forall i: nat | 0 < i <= |a| && i <= |b| ensures a[..i] != b[..i] {
        assert a[0] == a[..i][0] && b[0] == b[..i][0];
      }
    }
  }

  /** The strings agree on `i` bytes, and then the first one goes on while the second one ends or goes on lower. */
  ghost predicate GreaterAt(a: Payload, b: Payload, i: nat) {
    i < |a| && i <= |b| && a[..i] == b[..i] && (i == |b| || a[i] > b[i])
  }

  /** `payload_gt`. */
  predicate PayloadGt<V>(a: Block<V>, b: Block<V>) {
    (!a.Real() && b.Real()) || (a.Real() && b.Real() && LexGt(a.payload, b.payload))
  }

  /** Routing bits, then the high half of the tag. */
  function TagOrder(tag: Tag): nat { RoutingBits(tag) * 0x1_0000_0000 + tag / 0x1_0000_0000 }

  /** The tag's low 31 bits decide, then its high half. */
  lemma TagOrderIs(a: Tag, b: Tag)
    ensures TagOrder(a) < TagOrder(b) <==>
            a % 0x8000_0000 < b % 0x8000_0000
            || (a % 0x8000_0000 == b % 0x8000_0000 && a / 0x1_0000_0000 < b / 0x1_0000_0000)
    ensures TagOrder(a) == TagOrder(b) <==>
            a % 0x8000_0000 == b % 0x8000_0000 && a / 0x1_0000_0000 == b / 0x1_0000_0000
  {
    hide RoutingBits;
    RoutingBitsAre(a);
    RoutingBitsAre(b);
  }

  /** `tree_readout_gt`. */
  predicate TreeGt<V>(a: Block<V>, b: Block<V>) {
    || (!a.Real() && b.Real())
    || (a.Real() && b.Real()
        && (TagOrder(a.tag) > TagOrder(b.tag) || (TagOrder(a.tag) == TagOrder(b.tag) && LexGt(a.payload, b.payload))))
  }

  lemma PayloadOrder<V(!new)>()
    ensures TotalPreorder<Block<V>>(PayloadGt)
  {
    hide LexGt;
    forall a: Block<V>, b: Block<V> | PayloadGt(a, b) ensures !PayloadGt(b, a) { LexDecides(a.payload, b.payload); }
    forall a: Block<V>, b: Block<V>, c: Block<V> | PayloadGt(a, c) ensures PayloadGt(a, b) || PayloadGt(b, c) {
      if LexGt(a.payload, c.payload) { LexSplits(a.payload, b.payload, c.payload); }
    }
  }

  lemma TreeOrder<V(!new)>()
    ensures TotalPreorder<Block<V>>(TreeGt)
  {
    hide LexGt, TagOrder;
    forall a: Block<V>, b: Block<V> | TreeGt(a, b) ensures !TreeGt(b, a) { LexDecides(a.payload, b.payload); }
    forall a: Block<V>, b: Block<V>, c: Block<V> | TreeGt(a, c) ensures TreeGt(a, b) || TreeGt(b, c) {
      if LexGt(a.payload, c.payload) { LexSplits(a.payload, b.payload, c.payload); }
    }
  }

  /** Sorted by key, the blocks of each key are adjacent. */
  lemma PayloadSortedAdjacent<V>(s: seq<Block<V>>, p: Payload)
    requires Sorted(s, PayloadGt)
    ensures Adjacent(s, p)
  {
    hide LexGt;
    forall i, j, k | 0 <= i < j < k < |s| && Matches(s[i], p) && Matches(s[k], p) ensures Matches(s[j], p) {
      assert !PayloadGt(s[i], s[j]) && !PayloadGt(s[j], s[k]);
      LexDecides(p, s[j].payload);
    }
  }

  /** All real blocks of `p` have tags of the same order. */
  ghost predicate Coherent<V>(s: seq<Block<V>>, p: Payload) {
    forall i, j :: 0 <= i < |s| && 0 <= j < |s| && Matches(s[i], p) && Matches(s[j], p) ==>
        TagOrder(s[i].tag) == TagOrder(s[j].tag)
  }

  /** Sorted by routing bits first, the blocks of a key are still adjacent, even among colliding tags. */
  lemma TreeSortedAdjacent<V>(s: seq<Block<V>>, p: Payload)
    requires Sorted(s, TreeGt) && Coherent(s, p)
    ensures Adjacent(s, p)
  {
    hide LexGt, TagOrder;
    forall i, j, k | 0 <= i < j < k < |s| && Matches(s[i], p) && Matches(s[k], p) ensures Matches(s[j], p) {
      assert !TreeGt(s[i], s[j]) && !TreeGt(s[j], s[k]);
      LexDecides(p, s[j].payload);
    }
  }

  /** Blocks with smaller routing bits come first. */
  lemma RoutingFirst<V>(a: Block<V>, b: Block<V>)
    requires a.Real() && b.Real() && RoutingBits(a.tag) < RoutingBits(b.tag)
    ensures !TreeGt(a, b)
  {
    hide RoutingBits, LexGt;
  }
}
