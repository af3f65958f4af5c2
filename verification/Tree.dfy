/**
  The tree as the flat sequence of slots it is stored in: buckets, the path invariant,
  and what reading and rewriting one path does to the contents as a whole.
 */
module Tree {
  import opened Arithmetic
  import opened Blocks
  import opened Routing

  /** The slots of `k` buckets of `z` slots each. */
  function Slots(k: nat, z: nat): nat { k * z }

  lemma SlotsNext(k: nat, z: nat)
    ensures Slots(0, z) == 0 && Slots(k + 1, z) == Slots(k, z) + z
  {
  }

  lemma {:induction false} SlotsMonotone(k: nat, l: nat, z: nat)
    requires k <= l
    ensures Slots(k, z) <= Slots(l, z)
    ensures k < l ==> Slots(k, z) + z <= Slots(l, z)
    decreases l
  {
    hide Slots;
    if k < l {
      SlotsMonotone(k, l - 1, z);
      SlotsNext(l - 1, z);
    }
  }

  /** The bucket a slot belongs to. */
  lemma {:induction false} BucketOfSlot(i: nat, z: nat, n: nat) returns (k: nat)
    requires i < Slots(n, z)
    ensures k < n && Slots(k, z) <= i < Slots(k, z) + z
    decreases n
  {
    hide Slots;
    SlotsNext(0, z);
    if n > 0 {
      SlotsNext(n - 1, z);
      if i < Slots(n - 1, z) { k := BucketOfSlot(i, z, n - 1); } else { k := n - 1; }
    }
  }

  // ---- Buckets ------------------------------------------------------------------------------

  /** A tree of this height: `2^(height + 1)` buckets, node zero being unused. */
  ghost predicate Shape<V>(mem: seq<Block<V>>, z: nat, height: nat) {
    |mem| == Slots(Pow2(height + 1), z)
  }

  ghost predicate HasBucket<V>(mem: seq<Block<V>>, z: nat, node: nat) {
    Slots(node, z) + z <= |mem|
  }

  ghost function Bucket<V>(mem: seq<Block<V>>, z: nat, node: nat): (b: seq<Block<V>>)
    requires HasBucket(mem, z, node)
    ensures |b| == z
  {
    mem[Slots(node, z)..Slots(node, z) + z]
  }

  ghost function SetBucket<V>(mem: seq<Block<V>>, z: nat, node: nat, b: seq<Block<V>>): (r: seq<Block<V>>)
    requires HasBucket(mem, z, node) && |b| == z
    ensures |r| == |mem|
  {
    mem[..Slots(node, z)] + b + mem[Slots(node, z) + z..]
  }

  lemma NodeHasBucket<V>(mem: seq<Block<V>>, z: nat, height: nat, node: nat)
    requires Shape(mem, z, height) && node < Pow2(height + 1)
    ensures HasBucket(mem, z, node)
  {
    hide Slots;
    SlotsMonotone(node, Pow2(height + 1), z);
  }

  lemma LevelHasBucket<V>(mem: seq<Block<V>>, z: nat, height: nat, node: nat, d: nat)
    requires Shape(mem, z, height) && LeafAt(node, d) && d <= height
    ensures HasBucket(mem, z, node) && node < Pow2(height + 1) && node > 0
  {
    hide Slots;
    if d < height { Pow2Monotone(d + 1, height + 1); }
    NodeHasBucket(mem, z, height, node);
  }

  lemma SetBucketAt<V>(mem: seq<Block<V>>, z: nat, node: nat, b: seq<Block<V>>, other: nat)
    requires HasBucket(mem, z, node) && HasBucket(mem, z, other) && |b| == z
    ensures HasBucket(SetBucket(mem, z, node, b), z, other)
    ensures Bucket(SetBucket(mem, z, node, b), z, other) == if other == node then b else Bucket(mem, z, other)
  {
    hide Slots;
    var r, i, j := SetBucket(mem, z, node, b), Slots(node, z), Slots(other, z);
    if other < node {
      SlotsMonotone(other, node, z);
      assert r[j..j + z] == mem[j..j + z];
    } else if node < other {
      SlotsMonotone(node, other, z);
      assert r[j..j + z] == mem[j..j + z];
    } else {
      assert r[i..i + z] == b;
    }
  }

  /** A sequence of buckets is determined by its buckets. */
  lemma BucketsDetermine<V>(a: seq<Block<V>>, b: seq<Block<V>>, z: nat, height: nat)
    requires Shape(a, z, height) && Shape(b, z, height)
    requires forall node: nat :: node < Pow2(height + 1) && HasBucket(a, z, node) && HasBucket(b, z, node) ==>
               Bucket(a, z, node) == Bucket(b, z, node)
    ensures a == b
  {
    hide Slots;
    forall i | 0 <= i < |a| ensures a[i] == b[i] {
      var node := BucketOfSlot(i, z, Pow2(height + 1));
      NodeHasBucket(a, z, height, node);
      NodeHasBucket(b, z, height, node);
      assert a[i] == Bucket(a, z, node)[i - Slots(node, z)] && b[i] == Bucket(b, z, node)[i - Slots(node, z)];
    }
  }

  /** Taking a bucket out of the contents and putting another in. */
  lemma SetBucketLive<V>(mem: seq<Block<V>>, z: nat, node: nat, b: seq<Block<V>>)
    requires HasBucket(mem, z, node) && |b| == z
    ensures multiset(Live(SetBucket(mem, z, node, b))) + multiset(Live(Bucket(mem, z, node)))
         == multiset(Live(mem)) + multiset(Live(b))
  {
    hide Slots, Live;
    var i := Slots(node, z);
    var l, c, r := mem[..i], mem[i..i + z], mem[i + z..];
    assert mem == l + c + r;
    LiveConcat(l + c, r);
    LiveConcat(l, c);
    LiveConcat(l + b, r);
    LiveConcat(l, b);
  }

  // ---- The path invariant -----------------------------------------------------------------------

  /** Every real block of the bucket has this node on its path. */
  ghost predicate OnOwnPath<V>(b: seq<Block<V>>, node: nat, d: nat)
    requires d <= MAX_TREE_HEIGHT
  {
    forall i :: 0 <= i < |b| && b[i].Real() ==> AddressToLeaf(b[i].tag, d) == node
  }

  ghost predicate AllDummies<V>(b: seq<Block<V>>) {
    forall i :: 0 <= i < |b| ==> !b[i].Real()
  }

  /** The bucket of a depth-`d` node, if there is one, holds only blocks routed through it. */
  ghost predicate NodeOk<V>(mem: seq<Block<V>>, z: nat, node: nat, d: nat)
    requires d <= MAX_TREE_HEIGHT
  {
    HasBucket(mem, z, node) && OnOwnPath(Bucket(mem, z, node), node, d)
  }

  /** Every real block sits in a bucket on its own tag's path, and node zero is unused. */
  ghost predicate PathInvariant<V>(mem: seq<Block<V>>, z: nat, height: nat)
    requires height <= MAX_TREE_HEIGHT
  {
    && Shape(mem, z, height)
    && HasBucket(mem, z, 0) && AllDummies(Bucket(mem, z, 0))
    && forall d: nat, node: nat {:trigger LeafAt(node, d)} :: d <= height && LeafAt(node, d) ==> NodeOk(mem, z, node, d)
  }

  // ---- One path -----------------------------------------------------------------------------------

  /** The first `n` buckets of the path to `leaf`, from the root down. */
  ghost function RootFirst<V>(mem: seq<Block<V>>, z: nat, height: nat, leaf: nat, n: nat): (r: seq<Block<V>>)
    requires Shape(mem, z, height) && LeafAt(leaf, height) && n <= height + 1
    ensures |r| == Slots(n, z)
  {
    SlotsNext(if n == 0 then 0 else n - 1, z);
    if n == 0 then []
    else
      NodeIsLeaf(leaf, n - 1, height);
      LevelHasBucket(mem, z, height, NodeOnPath(leaf, n - 1, height), n - 1);
      RootFirst(mem, z, height, leaf, n - 1) + Bucket(mem, z, NodeOnPath(leaf, n - 1, height))
  }

  /** The same buckets, deepest first. */
  ghost function LeafFirst<V>(mem: seq<Block<V>>, z: nat, height: nat, leaf: nat, n: nat): (r: seq<Block<V>>)
    requires Shape(mem, z, height) && LeafAt(leaf, height) && n <= height + 1
    ensures |r| == Slots(n, z)
  {
    SlotsNext(if n == 0 then 0 else n - 1, z);
    if n == 0 then []
    else
      NodeIsLeaf(leaf, n - 1, height);
      LevelHasBucket(mem, z, height, NodeOnPath(leaf, n - 1, height), n - 1);
      Bucket(mem, z, NodeOnPath(leaf, n - 1, height)) + LeafFirst(mem, z, height, leaf, n - 1)
  }

  lemma {:induction false} SamePathContents<V>(mem: seq<Block<V>>, z: nat, height: nat, leaf: nat, n: nat)
    requires Shape(mem, z, height) && LeafAt(leaf, height) && n <= height + 1
    ensures multiset(Live(RootFirst(mem, z, height, leaf, n))) == multiset(Live(LeafFirst(mem, z, height, leaf, n)))
  {
    hide Slots, Live, Shape, LeafAt;
    if n > 0 {
      SamePathContents(mem, z, height, leaf, n - 1);
      NodeIsLeaf(leaf, n - 1, height);
      LevelHasBucket(mem, z, height, NodeOnPath(leaf, n - 1, height), n - 1);
      var b := Bucket(mem, z, NodeOnPath(leaf, n - 1, height));
      LiveConcat(RootFirst(mem, z, height, leaf, n - 1), b);
      LiveConcat(b, LeafFirst(mem, z, height, leaf, n - 1));
    }
  }

  ghost function Dummies<V>(z: nat, dummy: Block<V>): (r: seq<Block<V>>)
    ensures |r| == z && forall i :: 0 <= i < z ==> r[i] == dummy
  {
    seq(z, _ => dummy)
  }

  /** `mem` with the first `n` buckets of the path blanked. */
  ghost function Blanked<V>(mem: seq<Block<V>>, z: nat, height: nat, leaf: nat, n: nat,
                            dummy: Block<V>): (r: seq<Block<V>>)
    requires Shape(mem, z, height) && LeafAt(leaf, height) && n <= height + 1
    ensures Shape(r, z, height)
  {
    if n == 0 then mem
    else
      NodeIsLeaf(leaf, n - 1, height);
      var rest := Blanked(mem, z, height, leaf, n - 1, dummy);
      LevelHasBucket(rest, z, height, NodeOnPath(leaf, n - 1, height), n - 1);
      SetBucket(rest, z, NodeOnPath(leaf, n - 1, height), Dummies(z, dummy))
  }

  /** Is `node` among the first `n` nodes of the path? */
  ghost predicate OnPath(node: nat, leaf: nat, height: nat, n: nat)
    requires n <= height + 1
  {
    exists d: nat :: d < n && node == NodeOnPath(leaf, d, height)
  }

  lemma PathNodesDiffer(leaf: nat, height: nat, d: nat, e: nat)
    requires LeafAt(leaf, height) && d < e <= height
    ensures NodeOnPath(leaf, d, height) < NodeOnPath(leaf, e, height)
  {
    hide NodeOnPath, LeafAt;
    NodeIsLeaf(leaf, d, height);
    NodeIsLeaf(leaf, e, height);
    DepthsApart(NodeOnPath(leaf, d, height), NodeOnPath(leaf, e, height), d, e);
  }

  lemma {:induction false} BlankedAt<V>(mem: seq<Block<V>>, z: nat, height: nat, leaf: nat, n: nat, dummy: Block<V>,
                                        node: nat)
    requires Shape(mem, z, height) && LeafAt(leaf, height) && n <= height + 1 && node < Pow2(height + 1)
    ensures HasBucket(mem, z, node) && HasBucket(Blanked(mem, z, height, leaf, n, dummy), z, node)
    ensures Bucket(Blanked(mem, z, height, leaf, n, dummy), z, node)
         == if OnPath(node, leaf, height, n) then Dummies(z, dummy) else Bucket(mem, z, node)
  {
    hide Slots, NodeOnPath, LeafAt, Shape, HasBucket, Bucket, SetBucket, Pow2;
    NodeHasBucket(mem, z, height, node);
    NodeHasBucket(Blanked(mem, z, height, leaf, n, dummy), z, height, node);
    if n > 0 {
      BlankedAt(mem, z, height, leaf, n - 1, dummy, node);
      NodeIsLeaf(leaf, n - 1, height);
      var rest, here := Blanked(mem, z, height, leaf, n - 1, dummy), NodeOnPath(leaf, n - 1, height);
      LevelHasBucket(rest, z, height, here, n - 1);
      SetBucketAt(rest, z, here, Dummies(z, dummy), node);
      assert OnPath(node, leaf, height, n) <==> OnPath(node, leaf, height, n - 1) || node == here;
    }
  }

  lemma EmptyPath<V>(mem: seq<Block<V>>, z: nat, height: nat, leaf: nat, dummy: Block<V>)
    requires Shape(mem, z, height) && LeafAt(leaf, height)
    ensures multiset(Live(LeafFirst(mem, z, height, leaf, 0))) == multiset{}
    ensures Blanked(mem, z, height, leaf, 0, dummy) == mem
  {
    assert LeafFirst(mem, z, height, leaf, 0) == [];
    assert Live<V>([]) == [];
  }

  /** The contents are what is off the path together with what is on it. */
  lemma {:induction false} SplitPath<V>(mem: seq<Block<V>>, z: nat, height: nat, leaf: nat, n: nat, dummy: Block<V>)
    requires Shape(mem, z, height) && LeafAt(leaf, height) && n <= height + 1 && !dummy.Real()
    ensures multiset(Live(mem)) == multiset(Live(Blanked(mem, z, height, leaf, n, dummy)))
                                   + multiset(Live(LeafFirst(mem, z, height, leaf, n)))
  {
    hide Slots, NodeOnPath, LeafAt, Shape, HasBucket, Bucket, SetBucket, Live, Pow2;
    if n > 0 {
      SplitPath(mem, z, height, leaf, n - 1, dummy);
      NodeIsLeaf(leaf, n - 1, height);
      var rest, here := Blanked(mem, z, height, leaf, n - 1, dummy), NodeOnPath(leaf, n - 1, height);
      LevelHasBucket(rest, z, height, here, n - 1);
      LevelHasBucket(mem, z, height, here, n - 1);
      BlankedAt(mem, z, height, leaf, n - 1, dummy, here);
      HereIsNew(leaf, height, n);
      SetBucketLive(rest, z, here, Dummies(z, dummy));
      LiveNone(Dummies(z, dummy));
      var below := LeafFirst(mem, z, height, leaf, n - 1);
      LiveConcat(Bucket(mem, z, here), below);
      assert LeafFirst(mem, z, height, leaf, n) == Bucket(mem, z, here) + below;
      var blanked := Blanked(mem, z, height, leaf, n, dummy);
      assert blanked == SetBucket(rest, z, here, Dummies(z, dummy));
      var bk, lf := multiset(Live(Bucket(mem, z, here))), multiset(Live(below));
      assert multiset(Live(Dummies(z, dummy))) == multiset{};
      assert multiset(Live(blanked)) + bk == multiset(Live(rest));
      assert multiset(Live(LeafFirst(mem, z, height, leaf, n))) == bk + lf;
    } else {
      EmptyPath(mem, z, height, leaf, dummy);
    }
  }

  lemma HereIsNew(leaf: nat, height: nat, n: nat)
    requires LeafAt(leaf, height) && 0 < n <= height + 1
    ensures !OnPath(NodeOnPath(leaf, n - 1, height), leaf, height, n - 1)
  {
    hide NodeOnPath, LeafAt;
    forall d: nat | d < n - 1 ensures NodeOnPath(leaf, d, height) != NodeOnPath(leaf, n - 1, height) {
      PathNodesDiffer(leaf, height, d, n - 1);
    }
  }

  ghost predicate SameBucket<V>(mem: seq<Block<V>>, mem': seq<Block<V>>, z: nat, node: nat) {
    HasBucket(mem, z, node) && HasBucket(mem', z, node) && Bucket(mem, z, node) == Bucket(mem', z, node)
  }

  /** Only buckets on the path to `leaf` may differ. */
  ghost predicate AgreeOffPath<V>(mem: seq<Block<V>>, mem': seq<Block<V>>, z: nat, height: nat, leaf: nat) {
    && Shape(mem, z, height) && Shape(mem', z, height)
    && forall node: nat {:trigger OnPath(node, leaf, height, height + 1)} ::
         (node < Pow2(height + 1) && !OnPath(node, leaf, height, height + 1) ==> SameBucket(mem, mem', z, node))
  }

  lemma AgreeOffPathBlanked<V>(mem: seq<Block<V>>, mem': seq<Block<V>>, z: nat, height: nat, leaf: nat, dummy: Block<V>)
    requires LeafAt(leaf, height) && AgreeOffPath(mem, mem', z, height, leaf)
    ensures Blanked(mem, z, height, leaf, height + 1, dummy) == Blanked(mem', z, height, leaf, height + 1, dummy)
  {
    hide Slots, NodeOnPath, LeafAt, Shape, HasBucket, Bucket, SetBucket, Pow2, OnPath, Blanked;
    var a, b := Blanked(mem, z, height, leaf, height + 1, dummy), Blanked(mem', z, height, leaf, height + 1, dummy);
    forall node: nat | node < Pow2(height + 1) && HasBucket(a, z, node) && HasBucket(b, z, node)
      ensures Bucket(a, z, node) == Bucket(b, z, node)
    {
      BlankedAt(mem, z, height, leaf, height + 1, dummy, node);
      BlankedAt(mem', z, height, leaf, height + 1, dummy, node);
    }
    BucketsDetermine(a, b, z, height);
  }

  /**
    Rewriting one path: the contents change by exactly the path's old blocks going out
    and its new blocks coming in.
   */
  lemma RewritePath<V>(mem: seq<Block<V>>, mem': seq<Block<V>>, z: nat, height: nat, leaf: nat, dummy: Block<V>)
    requires LeafAt(leaf, height) && AgreeOffPath(mem, mem', z, height, leaf) && !dummy.Real()
    ensures multiset(Live(mem')) + multiset(Live(LeafFirst(mem, z, height, leaf, height + 1)))
         == multiset(Live(mem)) + multiset(Live(LeafFirst(mem', z, height, leaf, height + 1)))
  {
    hide *;
    AgreeShape(mem, mem', z, height, leaf);
    AgreeOffPathBlanked(mem, mem', z, height, leaf, dummy);
    SplitPath(mem, z, height, leaf, height + 1, dummy);
    SplitPath(mem', z, height, leaf, height + 1, dummy);
  }

  lemma AgreeShape<V>(mem: seq<Block<V>>, mem': seq<Block<V>>, z: nat, height: nat, leaf: nat)
    requires AgreeOffPath(mem, mem', z, height, leaf)
    ensures Shape(mem, z, height) && Shape(mem', z, height)
  {
  }

  ghost predicate PathNodeOk<V>(mem: seq<Block<V>>, z: nat, leaf: nat, height: nat, d: nat)
    requires d <= height <= MAX_TREE_HEIGHT
  {
    NodeOk(mem, z, NodeOnPath(leaf, d, height), d)
  }

  /** The path invariant survives when the new buckets of the path obey it. */
  lemma RewriteKeepsInvariant<V>(mem: seq<Block<V>>, mem': seq<Block<V>>, z: nat, height: nat, leaf: nat)
    requires height <= MAX_TREE_HEIGHT && LeafAt(leaf, height) && PathInvariant(mem, z, height)
    requires AgreeOffPath(mem, mem', z, height, leaf)
    requires forall d: nat :: d <= height ==> PathNodeOk(mem', z, leaf, height, d)
    ensures PathInvariant(mem', z, height)
  {
    hide Slots, NodeOnPath, Pow2, OnOwnPath, AddressToLeaf, Bucket, HasBucket, Shape, AllDummies, LeafAt;
    forall d: nat, node: nat | d <= height && LeafAt(node, d) ensures NodeOk(mem', z, node, d) {
      assert NodeOk(mem, z, node, d);
      LevelHasBucket(mem', z, height, node, d);
      if e: nat :| e <= height && node == NodeOnPath(leaf, e, height) {
        NodeIsLeaf(leaf, e, height);
        assert PathNodeOk(mem', z, leaf, height, e);
        if d < e { DepthsApart(node, node, d, e); }
        if e < d { DepthsApart(node, node, e, d); }
      } else {
        assert !OnPath(node, leaf, height, height + 1);
        assert SameBucket(mem, mem', z, node);
      }
    }
    NodeHasBucket(mem', z, height, 0);
    forall e: nat | e <= height ensures NodeOnPath(leaf, e, height) != 0 {
      NodeIsLeaf(leaf, e, height);
      DepthOfLeaf(NodeOnPath(leaf, e, height), e);
    }
    assert !OnPath(0, leaf, height, height + 1);
    assert SameBucket(mem, mem', z, 0);
  }

  // ---- Growth ----------------------------------------------------------------------------------------

  /** Doubling the storage with dummies adds an empty level and disturbs nothing else. */
  lemma GrowKeepsInvariant<V>(mem: seq<Block<V>>, extra: seq<Block<V>>, z: nat, height: nat)
    requires height < MAX_TREE_HEIGHT && PathInvariant(mem, z, height)
    requires |extra| == |mem| && AllDummies(extra)
    ensures PathInvariant(mem + extra, z, height + 1) && Live(mem + extra) == Live(mem)
  {
    hide Slots, OnOwnPath, Live, LeafAt, Pow2, Bucket, HasBucket, NodeOk, Shape;
    var mem' := mem + extra;
    LiveConcat(mem, extra);
    LiveNone(extra);
    GrownShape(mem, extra, z, height);
    forall d: nat, node: nat | d <= height + 1 && LeafAt(node, d) ensures NodeOk(mem', z, node, d) {
      if d <= height {
        assert NodeOk(mem, z, node, d);
        OldNode(mem, extra, z, node, d);
      } else {
        NewLeaf(mem, extra, z, height, node);
      }
    }
    OldBucket(mem, extra, z, 0);
  }

  lemma GrownShape<V>(mem: seq<Block<V>>, extra: seq<Block<V>>, z: nat, height: nat)
    requires Shape(mem, z, height) && |extra| == |mem|
    ensures Shape(mem + extra, z, height + 1)
  {
    DoubleSlots(height + 1, z);
  }

  lemma OldBucket<V>(mem: seq<Block<V>>, extra: seq<Block<V>>, z: nat, node: nat)
    requires HasBucket(mem, z, node)
    ensures HasBucket(mem + extra, z, node) && Bucket(mem + extra, z, node) == Bucket(mem, z, node)
  {
    hide Slots;
  }

  lemma OldNode<V>(mem: seq<Block<V>>, extra: seq<Block<V>>, z: nat, node: nat, d: nat)
    requires d <= MAX_TREE_HEIGHT && NodeOk(mem, z, node, d)
    ensures NodeOk(mem + extra, z, node, d)
  {
    OldBucket(mem, extra, z, node);
  }

  lemma NewLeaf<V>(mem: seq<Block<V>>, extra: seq<Block<V>>, z: nat, height: nat, node: nat)
    requires height < MAX_TREE_HEIGHT && Shape(mem, z, height) && |extra| == |mem| && AllDummies(extra)
    requires LeafAt(node, height + 1)
    ensures NodeOk(mem + extra, z, node, height + 1)
  {
    hide Slots, LeafAt, Pow2;
    var mem' := mem + extra;
    GrownShape(mem, extra, z, height);
    LevelHasBucket(mem', z, height + 1, node, height + 1);
    LeafBeyond(node, height + 1, z);
    var b := Bucket(mem', z, node);
    forall i | 0 <= i < |b| ensures !b[i].Real() { assert b[i] == extra[Slots(node, z) + i - |mem|]; }
    DummiesOnPath(b, node, height + 1);
  }

  lemma DummiesOnPath<V>(b: seq<Block<V>>, node: nat, d: nat)
    requires d <= MAX_TREE_HEIGHT && AllDummies(b)
    ensures OnOwnPath(b, node, d)
  {
  }

  lemma DoubleSlots(k: nat, z: nat)
    ensures Slots(Pow2(k + 1), z) == 2 * Slots(Pow2(k), z)
  {
    var p := Pow2(k);
    assert Pow2(k + 1) == 2 * p;
    assert (2 * p) * z == 2 * (p * z);
  }

  lemma LeafBeyond(node: nat, d: nat, z: nat)
    requires LeafAt(node, d)
    ensures Slots(Pow2(d), z) <= Slots(node, z)
  {
    hide Slots;
    SlotsMonotone(Pow2(d), node, z);
  }
}
