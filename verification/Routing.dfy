/**
  How tags are routed to leaves of a complete binary tree, the key that ranks blocks
  along an eviction path, and the order in which evictions visit the leaves.
 */
module Routing {
  import opened Arithmetic
  import opened Bits
  import opened Blocks

  const MAX_TREE_HEIGHT: nat := 31

  /** The node index of a leaf at this height: `leaf_count(h) .. 2 * leaf_count(h)`. */
  ghost predicate LeafAt(x: nat, height: nat) {
    Pow2(height) <= x < Pow2(height + 1)
  }

  function RoutingBits(tag: Tag): nat { LowBits(tag, MAX_TREE_HEIGHT) }

  /** `address_to_leaf`; the marker is the bit just above the routing bits. */
  function AddressToLeaf(tag: Tag, height: nat): nat
    requires height <= MAX_TREE_HEIGHT
  {
    Shr(RoutingBits(tag) + Pow2(MAX_TREE_HEIGHT), MAX_TREE_HEIGHT - height)
  }

  function NodeOnPath(leaf: nat, depth: nat, height: nat): nat
    requires depth <= height
  {
    Shr(leaf, height - depth)
  }

  /** `ct_depth`: 63 less the leading zeros, not below zero. */
  function Depth(x: nat): nat {
    if x == 0 then 0 else BitLength(x) - 1
  }

  /** `deepest_shared_level`: the height plus the leading zeros of the difference, less 64. */
  function DeepestSharedLevel(target: nat, tag: Tag, height: nat): int
    requires height <= MAX_TREE_HEIGHT
  {
    height - BitLength(Xor(target, AddressToLeaf(tag, height)))
  }

  /** `ranked_routing`: the routing bits relative to the eviction path. */
  function RankedRouting(tag: Tag, position: nat, height: nat): nat
    requires height <= MAX_TREE_HEIGHT
  {
    Xor(RoutingBits(tag), LowBits(position, height) * Pow2(MAX_TREE_HEIGHT - height))
  }

  /** `path_rank_key`: three disjoint bit fields, so that joining them is adding them. */
  function PathRankKey(tag: Tag, position: nat, height: nat): nat
    requires height <= MAX_TREE_HEIGHT
  {
    (if tag == 0 then 0x8000_0000_0000_0000 else 0)
    + RankedRouting(tag, position, height) * 0x1_0000_0000
    + tag / 0x1_0000_0000
  }

  // ---- The same in arithmetic ------------------------------------------------------------

  /** The routing bits are the tag's low 31 bits. */
  lemma RoutingBitsAre(tag: Tag)
    ensures RoutingBits(tag) == tag % 0x8000_0000
  {
    MaxPower();
    ShrLowBits(tag, MAX_TREE_HEIGHT);
  }

  /** A tag goes to the leaf that its highest routing bits number. */
  lemma LeafOfTag(tag: Tag, height: nat)
    requires height <= MAX_TREE_HEIGHT
    ensures AddressToLeaf(tag, height) == Pow2(height) + tag % 0x8000_0000 / Pow2(MAX_TREE_HEIGHT - height)
  {
    hide RoutingBits, Shr, LowBits, Pow2;
    RoutingBitsAre(tag);
    var k := MAX_TREE_HEIGHT - height;
    TopBitShifts(RoutingBits(tag), MAX_TREE_HEIGHT, k);
    ShrLowBits(RoutingBits(tag), k);
  }

  /** A node's ancestors, by division. */
  lemma NodeIs(leaf: nat, depth: nat, height: nat)
    requires depth <= height
    ensures NodeOnPath(leaf, depth, height) == leaf / Pow2(height - depth)
  {
    ShrLowBits(leaf, height - depth);
  }

  /** Evictions take the counter's low bits in reverse: bit `i` of the counter chooses the child at depth `i + 1`. */
  lemma EvictLeafBit(ctr: nat, height: nat, i: nat)
    requires i < height <= MAX_TREE_HEIGHT
    ensures LeafAt(EvictLeaf(ctr, height), height)
    ensures EvictLeaf(ctr, height) / Pow2(height - 1 - i) % 2 == ctr / Pow2(i) % 2
  {
    hide Reverse, Pow2, EvictLeaf;
    EvictLeafIs(ctr, height);
    ReverseBit(ctr, height, i);
    TopKeepsBit(Reverse(ctr, height), height, height - 1 - i, 1);
  }

  // ---- Nodes ----------------------------------------------------------------------------

  lemma RoutingBelow(tag: Tag)
    ensures RoutingBits(tag) < Pow2(MAX_TREE_HEIGHT)
    ensures Pow2(MAX_TREE_HEIGHT) <= RoutingBits(tag) + Pow2(MAX_TREE_HEIGHT) < Pow2(MAX_TREE_HEIGHT + 1)
  {
    ShrLowBits(tag, MAX_TREE_HEIGHT);
    hide LowBits;
    PowStep(MAX_TREE_HEIGHT);
  }

  lemma PowStep(k: nat)
    ensures Pow2(k + 1) == 2 * Pow2(k)
  {
  }

  lemma AddressIsLeaf(tag: Tag, height: nat)
    requires height <= MAX_TREE_HEIGHT
    ensures LeafAt(AddressToLeaf(tag, height), height)
  {
    hide RoutingBits, Shr, Pow2;
    RoutingBelow(tag);
    ShrRange(RoutingBits(tag) + Pow2(MAX_TREE_HEIGHT), MAX_TREE_HEIGHT, MAX_TREE_HEIGHT - height);
  }

  /** The node at depth `d` on a tag's path does not depend on the height of the tree. */
  lemma NodeOfTag(tag: Tag, d: nat, height: nat)
    requires d <= height <= MAX_TREE_HEIGHT
    ensures NodeOnPath(AddressToLeaf(tag, height), d, height) == AddressToLeaf(tag, d)
  {
    hide RoutingBits, Shr, Pow2;
    ShrTwice(RoutingBits(tag) + Pow2(MAX_TREE_HEIGHT), MAX_TREE_HEIGHT - height, height - d);
  }

  lemma NodeIsLeaf(leaf: nat, d: nat, height: nat)
    requires d <= height && LeafAt(leaf, height)
    ensures LeafAt(NodeOnPath(leaf, d, height), d)
  {
    ShrRange(leaf, height, height - d);
  }

  /** Within its range a leaf index determines its depth. */
  lemma DepthOfLeaf(x: nat, height: nat)
    requires LeafAt(x, height)
    ensures Depth(x) == height && x > 0
  {
    BitLengthAtMost(x, height);
    BitLengthAtMost(x, height + 1);
  }

  /** Nodes of different depths differ. */
  lemma DepthsApart(x: nat, y: nat, d: nat, e: nat)
    requires LeafAt(x, d) && LeafAt(y, e) && d < e
    ensures x < y
  {
    Pow2Monotone(d, e);
    PowStep(d);
  }

  // ---- The deepest shared level ------------------------------------------------------------

  /** A tag's path runs through the path to `leaf` exactly down to the deepest shared level. */
  lemma SharedLevel(leaf: nat, tag: Tag, height: nat, d: nat)
    requires height <= MAX_TREE_HEIGHT && LeafAt(leaf, height) && d <= height
    ensures 0 <= DeepestSharedLevel(leaf, tag, height) <= height
    ensures d <= DeepestSharedLevel(leaf, tag, height) <==> AddressToLeaf(tag, d) == NodeOnPath(leaf, d, height)
  {
    hide Xor, Shr, BitLength, Pow2, RoutingBits;
    var own := AddressToLeaf(tag, height);
    AddressIsLeaf(tag, height);
    NodeOfTag(tag, d, height);
    XorSuffix(leaf, own, height);
    BitLengthAtMost(Xor(leaf, own), height);
    BitLengthAtMost(Xor(leaf, own), height - d);
    ShrZero(Xor(leaf, own), height - d);
    XorShr(leaf, own, height - d);
    XorZero(Shr(leaf, height - d), Shr(own, height - d));
  }

  /** Two leaves of one height differ only below their common top bit. */
  lemma XorSuffix(x: nat, y: nat, height: nat)
    requires LeafAt(x, height) && LeafAt(y, height)
    ensures Xor(x, y) < Pow2(height)
    ensures Xor(x, y) == Xor(x - Pow2(height), y - Pow2(height))
    ensures LowBits(x, height) == x - Pow2(height)
  {
    hide Xor, LowBits;
    PowStep(height);
    XorTopBit(x - Pow2(height), y - Pow2(height), height);
    XorBelow(x - Pow2(height), y - Pow2(height), height);
    ShrLowBits(x, height);
    DivModUnique(x, Pow2(height), 1, x - Pow2(height));
  }

  /** The rank, without the bits below the height, is the difference from the eviction leaf. */
  lemma RankIsDifference(tag: Tag, leaf: nat, height: nat)
    requires height <= MAX_TREE_HEIGHT && LeafAt(leaf, height)
    ensures RankedRouting(tag, leaf, height) < Pow2(MAX_TREE_HEIGHT)
    ensures Shr(RankedRouting(tag, leaf, height), MAX_TREE_HEIGHT - height) == Xor(leaf, AddressToLeaf(tag, height))
  {
    hide Xor, Shr, LowBits, Pow2, RoutingBits;
    var k, own, suffix := MAX_TREE_HEIGHT - height, AddressToLeaf(tag, height), LowBits(leaf, height);
    var shifted := suffix * Pow2(k);
    RoutingBelow(tag);
    AddressIsLeaf(tag, height);
    XorSuffix(leaf, own, height);
    XorSuffix(own, leaf, height);
    TopBitShifts(RoutingBits(tag), MAX_TREE_HEIGHT, k);
    PowStep(height);
    SuffixBelow(suffix, height, k);
    ShrShl(suffix, k, 0);
    XorShr(RoutingBits(tag), shifted, k);
    XorSymmetric(Shr(RoutingBits(tag), k), suffix);
    XorBelow(RoutingBits(tag), shifted, MAX_TREE_HEIGHT);
  }

  lemma SuffixBelow(suffix: nat, height: nat, k: nat)
    requires suffix < Pow2(height)
    ensures suffix * Pow2(k) < Pow2(height + k)
  {
    Pow2Split(height, k);
    assert suffix * Pow2(k) < Pow2(height) * Pow2(k);
  }

  lemma {:induction false} TopBitShifts(y: nat, n: nat, k: nat)
    requires k <= n
    ensures Shr(y + Pow2(n), k) == Shr(y, k) + Pow2(n - k)
  {
    if k > 0 {
      assert (y + Pow2(n)) / 2 == y / 2 + Pow2(n - 1);
      TopBitShifts(y / 2, n - 1, k - 1);
    }
  }

  lemma {:induction false} BitLengthMonotone(x: nat, y: nat)
    requires x <= y
    ensures BitLength(x) <= BitLength(y)
  {
    if x > 0 { BitLengthMonotone(x / 2, y / 2); }
  }

  /**
    Sorting by rank key puts real blocks before dummies, and real blocks in order of
    non-increasing deepest level shared with the eviction path.
   */
  lemma RankOrder(a: Tag, b: Tag, leaf: nat, height: nat)
    requires height <= MAX_TREE_HEIGHT && LeafAt(leaf, height)
    requires PathRankKey(a, leaf, height) <= PathRankKey(b, leaf, height)
    ensures b != 0 ==> a != 0
    ensures a != 0 && b != 0 ==> DeepestSharedLevel(leaf, a, height) >= DeepestSharedLevel(leaf, b, height)
  {
    hide Xor, Shr, LowBits, Pow2, RoutingBits, BitLength, RankedRouting, AddressToLeaf;
    RankIsDifference(a, leaf, height);
    RankIsDifference(b, leaf, height);
    MaxPower();
    var x, y := RankedRouting(a, leaf, height), RankedRouting(b, leaf, height);
    if a != 0 && b != 0 {
      assert x <= y;
      ShrMonotone(x, y, MAX_TREE_HEIGHT - height);
      BitLengthMonotone(Xor(leaf, AddressToLeaf(a, height)), Xor(leaf, AddressToLeaf(b, height)));
    }
  }

  lemma MaxPower()
    ensures Pow2(MAX_TREE_HEIGHT) == 0x8000_0000
  {
    WordPowers();
    PowStep(31);
  }

  /**
    Equal keys on one path: the same low 31 bits and the same high half of the tag.  Only bit
    31 may tell such tags apart.
   */
  lemma RankKeyInjective(a: Tag, b: Tag, leaf: nat, height: nat)
    requires height <= MAX_TREE_HEIGHT && LeafAt(leaf, height)
    requires PathRankKey(a, leaf, height) == PathRankKey(b, leaf, height)
    ensures (a == 0) == (b == 0)
    ensures a % 0x8000_0000 == b % 0x8000_0000 && a / 0x1_0000_0000 == b / 0x1_0000_0000
  {
    RoutingBitsAre(a);
    RoutingBitsAre(b);
    hide Xor, Shr, LowBits, Pow2, RoutingBits, BitLength, AddressToLeaf;
    RankIsDifference(a, leaf, height);
    RankIsDifference(b, leaf, height);
    MaxPower();
    var mask := LowBits(leaf, height) * Pow2(MAX_TREE_HEIGHT - height);
    assert RankedRouting(a, leaf, height) == RankedRouting(b, leaf, height);
    XorCancels(RoutingBits(a), RoutingBits(b), mask);
  }

  lemma {:induction false} XorCancels(a: nat, b: nat, c: nat)
    requires Xor(a, c) == Xor(b, c)
    ensures a == b
    decreases a + b + c
  {
    hide Xor;
    if a != 0 || b != 0 || c != 0 {
      XorParity(a, c);
      XorParity(b, c);
      XorCancels(a / 2, b / 2, c / 2);
    }
  }

  lemma XorParity(a: nat, c: nat)
    ensures Xor(a, c) % 2 == (a + c) % 2 && Xor(a, c) / 2 == Xor(a / 2, c / 2)
  {
    hide Xor;
    XorUnfolds(a, c);
    DivModUnique(Xor(a, c), 2, Xor(a / 2, c / 2), (a + c) % 2);
  }

  lemma XorUnfolds(a: nat, c: nat)
    ensures Xor(a, c) == 2 * Xor(a / 2, c / 2) + (a + c) % 2
  {
  }

  // ---- Eviction order -------------------------------------------------------------------------

  /** `next_evict_leaf` for a counter value: the low bits of the counter, reversed. */
  function EvictLeaf(ctr: nat, height: nat): nat
    requires height <= MAX_TREE_HEIGHT
  {
    Pow2(height) + Shr(Reverse(ctr % Pow2(height), 64), 64 - height)
  }

  lemma EvictLeafIs(ctr: nat, height: nat)
    requires height <= MAX_TREE_HEIGHT
    ensures EvictLeaf(ctr, height) == Pow2(height) + Reverse(ctr, height)
    ensures LeafAt(EvictLeaf(ctr, height), height)
  {
    hide Reverse, Shr, Pow2, LowBits;
    ShrLowBits(ctr, height);
    ReverseShr(LowBits(ctr, height), 64, 64 - height);
    ReverseLowBits(ctr, height, height);
    ReverseBelow(ctr, height);
    PowStep(height);
  }

  /** The depth-`d` node an eviction rewrites: the low `d` bits of the counter, reversed. */
  lemma EvictNode(ctr: nat, d: nat, height: nat)
    requires d <= height <= MAX_TREE_HEIGHT
    ensures NodeOnPath(EvictLeaf(ctr, height), d, height) == Pow2(d) + Reverse(ctr, d)
  {
    hide Reverse, Shr, Pow2, EvictLeaf;
    EvictLeafIs(ctr, height);
    TopBitShifts(Reverse(ctr, height), height, height - d);
    ReverseShr(ctr, height, height - d);
  }

  /** The only counter value in `start .. start + 2^d` whose low `d` bits are `r`. */
  lemma InWindow(start: nat, d: nat, r: nat) returns (t: nat)
    requires r < Pow2(d)
    ensures start <= t < start + Pow2(d) && t % Pow2(d) == r
  {
    var p := Pow2(d);
    var k, low := start / p, start % p;
    t := if r >= low then start + (r - low) else start + (r - low) + p;
    if r >= low {
      DivModUnique(t, p, k, r);
    } else {
      assert (k + 1) * p == k * p + p;
      DivModUnique(t, p, k + 1, r);
    }
  }

  lemma SameResidue(x: nat, y: nat, p: nat)
    requires p > 0 && x % p == y % p && x < y + p && y < x + p
    ensures x == y
  {
    var k: int, l: int := x / p, y / p;
    var d: int := k - l;
    assert x - y == d * p;
    MultipleBelow(d, p);
  }

  /** `2^d` consecutive evictions at one height visit every node of depth `d`... */
  lemma EvictionVisits(start: nat, d: nat, height: nat, node: nat) returns (t: nat)
    requires d <= height <= MAX_TREE_HEIGHT && LeafAt(node, d)
    ensures start <= t < start + Pow2(d) && NodeOnPath(EvictLeaf(t, height), d, height) == node
  {
    hide Reverse, LowBits, Pow2, NodeOnPath, EvictLeaf;
    PowStep(d);
    var v := node - Pow2(d);
    ReverseBelow(v, d);
    t := InWindow(start, d, Reverse(v, d));
    ShrLowBits(t, d);
    ReverseLowBits(t, d, d);
    ReverseTwice(v, d);
    LowBitsSmall(v, d);
    EvictNode(t, d, height);
  }

  /** ... and each of them only once. */
  lemma EvictionVisitsOnce(start: nat, d: nat, height: nat, t: nat, u: nat)
    requires d <= height <= MAX_TREE_HEIGHT
    requires start <= t < start + Pow2(d) && start <= u < start + Pow2(d)
    requires NodeOnPath(EvictLeaf(t, height), d, height) == NodeOnPath(EvictLeaf(u, height), d, height)
    ensures t == u
  {
    hide Reverse, LowBits, Pow2, NodeOnPath, EvictLeaf;
    EvictNode(t, d, height);
    EvictNode(u, d, height);
    ReverseTwice(t, d);
    ReverseTwice(u, d);
    ShrLowBits(t, d);
    ShrLowBits(u, d);
    SameResidue(t, u, Pow2(d));
  }
}
