/**
  Cutting a tree into its lower subtrees: which slots belong to a subtree, that the
  subtrees partition the lower levels, and where a key's blocks can be.
 */
module Subtrees {
  import opened Arithmetic
  import opened Bits
  import opened Networks
  import opened Blocks
  import opened Reduction
  import opened Routing
  import opened SortReduce
  import opened Tree
  import opened Order
  import opened Router

  // ---- Nodes below a subtree's root -------------------------------------------------------------------

  /** The leftmost node `k` levels below `root`. */
  ghost function First(root: nat, k: nat): nat {
    if k == 0 then root else 2 * First(root, k - 1)
  }

  lemma {:induction false} FirstIs(root: nat, k: nat)
    ensures First(root, k) == root * Pow2(k) && First(root + 1, k) == First(root, k) + Pow2(k)
  {
    if k > 0 { FirstIs(root, k - 1); }
  }

  lemma {:induction false} FirstOfPower(c: nat, k: nat)
    ensures First(Pow2(c), k) == Pow2(c + k)
  {
    if k > 0 { FirstOfPower(c, k - 1); }
  }

  lemma {:induction false} FirstMonotone(a: nat, b: nat, k: nat)
    requires a <= b
    ensures First(a, k) <= First(b, k)
  {
    if k > 0 { FirstMonotone(a, b, k - 1); }
  }

  /** The nodes `k` levels below a depth-`c` root are those whose path runs through the root. */
  lemma BelowRoot(root: nat, c: nat, k: nat, node: nat)
    requires LeafAt(root, c) && First(root, k) <= node < First(root + 1, k)
    ensures LeafAt(node, c + k) && NodeOnPath(node, c, c + k) == root
  {
    hide Shr, Pow2;
    FirstIs(root, k);
    ShrShl(root, k, node - First(root, k));
    PowStep(c);
    PowStep(c + k);
    FirstOfPower(c, k);
    FirstOfPower(c + 1, k);
    FirstMonotone(Pow2(c), root, k);
    FirstMonotone(root + 1, Pow2(c + 1), k);
  }

  /** The part of a level that lies below `root`. */
  ghost function Stretch<V>(mem: seq<Block<V>>, z: nat, root: nat, k: nat): seq<Block<V>>
    requires Slots(First(root, k), z) <= Slots(First(root + 1, k), z) <= |mem|
  {
    mem[Slots(First(root, k), z)..Slots(First(root + 1, k), z)]
  }

  lemma SlotsAdd(a: nat, b: nat, z: nat)
    ensures Slots(a + b, z) == Slots(a, z) + Slots(b, z)
  {
  }

  lemma StretchFits(z: nat, height: nat, c: nat, k: nat, root: nat)
    requires c + k <= height && Pow2(c) <= root < Pow2(c + 1)
    ensures Slots(First(root, k), z) <= Slots(First(root + 1, k), z) <= Slots(Pow2(height + 1), z)
    ensures Slots(First(root + 1, k), z) == Slots(First(root, k), z) + Slots(Pow2(k), z)
  {
    hide Slots, Pow2, First;
    FirstIs(root, k);
    SlotsAdd(First(root, k), Pow2(k), z);
    FirstMonotone(root + 1, Pow2(c + 1), k);
    FirstOfPower(c + 1, k);
    if c + k < height { Pow2Monotone(c + k + 1, height + 1); }
    SlotsMonotone(First(root, k), First(root + 1, k), z);
    SlotsMonotone(First(root + 1, k), Pow2(height + 1), z);
  }

  /** The first `k` levels of the subtree at `root`, in its own order. */
  ghost function LocalLevels<V>(mem: seq<Block<V>>, z: nat, height: nat, c: nat, root: nat, k: nat): (r: seq<Block<V>>)
    requires Shape(mem, z, height) && c + k <= height + 1 && Pow2(c) <= root < Pow2(c + 1)
    ensures Slots(Pow2(k), z) == z + |r|
  {
    SlotsNext(0, z);
    if k == 0 then
      assert Pow2(0) == 1 && Slots(1, z) == z;
      []
    else
      StretchFits(z, height, c, k - 1, root);
      DoubleSlots(k - 1, z);
      LocalLevels(mem, z, height, c, root, k - 1) + Stretch(mem, z, root, k - 1)
  }

  /** The first `n` subtrees, one after the other. */
  ghost function Locals<V>(mem: seq<Block<V>>, z: nat, height: nat, c: nat, n: nat, k: nat): (r: seq<Block<V>>)
    requires Shape(mem, z, height) && c + k <= height + 1 && n <= Pow2(c)
  {
    if n == 0 then [] else Locals(mem, z, height, c, n - 1, k) + LocalLevels(mem, z, height, c, Pow2(c) + n - 1, k)
  }

  // ---- The subtrees partition the lower levels -------------------------------------------------------------

  lemma LevelFitsBelow(z: nat, height: nat, c: nat, n: nat, k: nat)
    requires c + k <= height && n <= Pow2(c)
    ensures Slots(First(Pow2(c), k), z) <= Slots(First(Pow2(c) + n, k), z) <= Slots(Pow2(height + 1), z)
  {
    hide Slots;
    PowStep(c);
    FirstMonotone(Pow2(c), Pow2(c) + n, k);
    FirstMonotone(Pow2(c) + n, Pow2(c + 1), k);
    FirstOfPower(c + 1, k);
    if c + k < height { Pow2Monotone(c + k + 1, height + 1); }
    SlotsMonotone(First(Pow2(c), k), First(Pow2(c) + n, k), z);
    SlotsMonotone(First(Pow2(c) + n, k), Pow2(height + 1), z);
  }

  /** One level more in each of the first `n` subtrees is the first part of that level. */
  lemma {:induction false} OneLevelMore<V>(mem: seq<Block<V>>, z: nat, height: nat, c: nat, n: nat, k: nat)
    requires Shape(mem, z, height) && c + k <= height && n <= Pow2(c)
    ensures Slots(First(Pow2(c), k), z) <= Slots(First(Pow2(c) + n, k), z) <= |mem|
    ensures multiset(Locals(mem, z, height, c, n, k + 1))
         == multiset(Locals(mem, z, height, c, n, k))
           + multiset(mem[Slots(First(Pow2(c), k), z)..Slots(First(Pow2(c) + n, k), z)])
  {
    hide *;
    LevelFitsBelow(z, height, c, n, k);
    ShapeIs(mem, z, height);
    if n == 0 {
      NoSubtrees(mem, z, height, c, k);
      assert mem[Slots(First(Pow2(c), k), z)..Slots(First(Pow2(c) + n, k), z)] == [];
    } else {
      OneLevelMore(mem, z, height, c, n - 1, k);
      var root := Pow2(c) + n - 1;
      PowStep(c);
      StretchFits(z, height, c, k, root);
      LocalLevelsUnfolds(mem, z, height, c, root, k);
      LocalsUnfolds(mem, z, height, c, n, k);
      LocalsUnfolds(mem, z, height, c, n, k + 1);
      var lo, mid, hi := Slots(First(Pow2(c), k), z), Slots(First(root, k), z), Slots(First(root + 1, k), z);
      assert root + 1 == Pow2(c) + n && Pow2(c) + (n - 1) == root;
      Glued(Locals(mem, z, height, c, n - 1, k), Locals(mem, z, height, c, n - 1, k + 1),
            LocalLevels(mem, z, height, c, root, k), mem, lo, mid, hi);
    }
  }

  lemma Glued<T>(a: seq<T>, a': seq<T>, b: seq<T>, mem: seq<T>, lo: nat, mid: nat, hi: nat)
    requires lo <= mid <= hi <= |mem| && multiset(a') == multiset(a) + multiset(mem[lo..mid])
    ensures multiset(a' + (b + mem[mid..hi])) == multiset(a + b) + multiset(mem[lo..hi])
  {
    assert mem[lo..hi] == mem[lo..mid] + mem[mid..hi];
  }

  lemma ShapeIs<V>(mem: seq<Block<V>>, z: nat, height: nat)
    requires Shape(mem, z, height)
    ensures |mem| == Slots(Pow2(height + 1), z)
  {
  }

  lemma NoSubtrees<V>(mem: seq<Block<V>>, z: nat, height: nat, c: nat, k: nat)
    requires Shape(mem, z, height) && c + k <= height
    ensures Locals(mem, z, height, c, 0, k) == [] && Locals(mem, z, height, c, 0, k + 1) == []
  {
  }

  lemma LocalsUnfolds<V>(mem: seq<Block<V>>, z: nat, height: nat, c: nat, n: nat, k: nat)
    requires Shape(mem, z, height) && c + k <= height + 1 && 0 < n <= Pow2(c)
    ensures Pow2(c) + n - 1 < Pow2(c + 1)
    ensures Locals(mem, z, height, c, n, k)
              == Locals(mem, z, height, c, n - 1, k) + LocalLevels(mem, z, height, c, Pow2(c) + n - 1, k)
  {
    hide LocalLevels, Slots, Shape;
  }

  lemma LocalLevelsUnfolds<V>(mem: seq<Block<V>>, z: nat, height: nat, c: nat, root: nat, k: nat)
    requires Shape(mem, z, height) && c + k <= height && Pow2(c) <= root < Pow2(c + 1)
    ensures Slots(First(root, k), z) <= Slots(First(root + 1, k), z) <= |mem|
    ensures LocalLevels(mem, z, height, c, root, k + 1)
         == LocalLevels(mem, z, height, c, root, k) + mem[Slots(First(root, k), z)..Slots(First(root + 1, k), z)]
  {
    hide Slots, First, Pow2;
    StretchFits(z, height, c, k, root);
  }

  lemma {:induction false} LocalsPartition<V>(mem: seq<Block<V>>, z: nat, height: nat, c: nat, k: nat)
    requires Shape(mem, z, height) && c + k <= height + 1
    ensures Slots(Pow2(c), z) <= Slots(Pow2(c + k), z) <= |mem|
    ensures multiset(Locals(mem, z, height, c, Pow2(c), k)) == multiset(mem[Slots(Pow2(c), z)..Slots(Pow2(c + k), z)])
  {
    hide *;
    LowerRange(z, height, c, k);
    ShapeIs(mem, z, height);
    if k == 0 {
      NoLocals(mem, z, height, c, Pow2(c));
      assert mem[Slots(Pow2(c), z)..Slots(Pow2(c + k), z)] == [];
    } else {
      LowerRange(z, height, c, k - 1);
      LocalsPartition(mem, z, height, c, k - 1);
      OneLevelMore(mem, z, height, c, Pow2(c), k - 1);
      FirstOfPower(c, k - 1);
      PowStep(c);
      FirstOfPower(c + 1, k - 1);
      assert Pow2(c) + Pow2(c) == Pow2(c + 1) && c + 1 + (k - 1) == c + k;
      var lo, mid, hi := Slots(Pow2(c), z), Slots(Pow2(c + (k - 1)), z), Slots(Pow2(c + k), z);
      PowStep(c + (k - 1));
      SlotsMonotone(Pow2(c + (k - 1)), Pow2(c + k), z);
      SplitStretch(mem, lo, mid, hi);
    }
  }

  lemma SplitStretch<T>(s: seq<T>, lo: nat, mid: nat, hi: nat)
    requires lo <= mid <= hi <= |s|
    ensures multiset(s[lo..hi]) == multiset(s[lo..mid]) + multiset(s[mid..hi])
  {
    assert s[lo..hi] == s[lo..mid] + s[mid..hi];
  }

  lemma LowerRange(z: nat, height: nat, c: nat, k: nat)
    requires c + k <= height + 1
    ensures Slots(Pow2(c), z) <= Slots(Pow2(c + k), z) <= Slots(Pow2(height + 1), z)
  {
    hide Slots, Pow2;
    if k > 0 { Pow2Monotone(c, c + k); }
    if c + k < height + 1 { Pow2Monotone(c + k, height + 1); }
    SlotsMonotone(Pow2(c), Pow2(c + k), z);
    SlotsMonotone(Pow2(c + k), Pow2(height + 1), z);
  }

  lemma {:induction false} NoLocals<V>(mem: seq<Block<V>>, z: nat, height: nat, c: nat, n: nat)
    requires Shape(mem, z, height) && c <= height + 1 && n <= Pow2(c)
    ensures Locals(mem, z, height, c, n, 0) == []
  {
    hide Slots, Shape;
    if n > 0 { NoLocals(mem, z, height, c, n - 1); }
  }

  // ---- Destinations ------------------------------------------------------------------------------------------

  /** The subtree a tag is routed to: its first `c` routing bits. */
  function Destination(tag: Tag, c: nat): nat
    requires c <= MAX_TREE_HEIGHT
  {
    Shr(RoutingBits(tag), MAX_TREE_HEIGHT - c)
  }

  function SubtreeOf<V>(c: nat): Block<V> -> nat
    requires c <= MAX_TREE_HEIGHT
  {
    (b: Block<V>) => Destination(b.tag, c)
  }

  lemma DestinationIs(tag: Tag, c: nat)
    requires c <= MAX_TREE_HEIGHT
    ensures AddressToLeaf(tag, c) == Pow2(c) + Destination(tag, c) && Destination(tag, c) < Pow2(c)
  {
    hide Shr, Pow2, RoutingBits;
    TopBitShifts(RoutingBits(tag), MAX_TREE_HEIGHT, MAX_TREE_HEIGHT - c);
    AddressIsLeaf(tag, c);
    PowStep(c);
  }

  lemma SameOrderSameDestination(a: Tag, b: Tag, c: nat)
    requires c <= MAX_TREE_HEIGHT && TagOrder(a) == TagOrder(b)
    ensures Destination(a, c) == Destination(b, c)
  {
    hide Shr, RoutingBits;
  }

  lemma DestinationMonotone(a: Tag, b: Tag, c: nat)
    requires c <= MAX_TREE_HEIGHT && TagOrder(a) <= TagOrder(b)
    ensures Destination(a, c) <= Destination(b, c)
  {
    hide Shr, RoutingBits;
    ShrMonotone(RoutingBits(a), RoutingBits(b), MAX_TREE_HEIGHT - c);
  }

  /** Sorted for the tree readout and reduced, the blocks come in order of their subtrees. */
  lemma UpperInOrder<V(!new)>(m: Values<V>, t: seq<Block<V>>, c: nat)
    requires c <= MAX_TREE_HEIGHT && Sorted(t, TreeGt)
    ensures InBinOrder(Live(Reduced(m, t)), SubtreeOf(c), Pow2(c))
  {
    hide Destination, TagOrder, LexGt, Reduced, Live, Pow2;
    var r := Reduced(m, t);
    var l := Live(r);
    forall i | 0 <= i < |l| ensures l[i].Real() && SubtreeOf(c)(l[i]) < Pow2(c) {
      assert l[i] in l;
      DestinationIs(l[i].tag, c);
    }
    forall i, j | 0 <= i < j < |l| ensures SubtreeOf(c)(l[i]) <= SubtreeOf(c)(l[j]) {
      var a := LiveOrigin(r, i);
      var b := LiveOrigin(r, j);
      if a > b { LivePrefixes(r, b, a); }
      Survives(m, t, a);
      Survives(m, t, b);
      assert !TreeGt(t[a], t[b]);
      DestinationMonotone(t[a].tag, t[b].tag, c);
    }
  }

  lemma {:induction false} LivePrefixes<V>(s: seq<Block<V>>, a: nat, b: nat)
    requires a <= b <= |s|
    ensures |Live(s[..a])| <= |Live(s[..b])|
    decreases b
  {
    if a < b {
      LivePrefixes(s, a, b - 1);
      assert s[..b][..b - 1] == s[..b - 1];
    }
  }
}
