/**
  The counters of a histogram and how appending moves them: when evictions happen, which
  leaf they go to, and the window of faster evictions after the tree has grown.
 */
module Clock {
  import opened Arithmetic
  import opened Blocks
  import opened Routing

  /** One eviction: the append counter at the time, the leaf, and whether the tree grew right after it. */
  datatype Eviction = Eviction(at: nat, leaf: nat, grew: bool)

  datatype Counters = Counters(height: nat, epoch: Byte, appendCtr: nat, evictCtr: nat, sweepEnd: nat,
                               evictions: seq<Eviction>)

  ghost predicate Ticking(c: Counters) {
    1 <= c.height <= MAX_TREE_HEIGHT && |c.evictions| == c.evictCtr
  }

  /** `current_evict_interval`: appends between evictions, halved while a sweep is under way. */
  function EvictInterval(evictCtr: nat, sweepEnd: nat, a: nat): (r: nat)
    requires a >= 1
    ensures r >= 1
  {
    if evictCtr < sweepEnd then (if a / 2 < 1 then 1 else a / 2) else a
  }

  /** `saturating_add(1)` on a byte. */
  function NextEpoch(epoch: Byte): Byte { if epoch == 255 then 255 else epoch + 1 }

  /** The counters after the tree has grown by a level. */
  ghost function Grown(c: Counters): Counters {
    c.(height := c.height + 1, epoch := NextEpoch(c.epoch), sweepEnd := c.evictCtr + Pow2(c.height))
  }

  ghost function Evicted(c: Counters, grew: bool): Counters
    requires c.height <= MAX_TREE_HEIGHT
  {
    var next := c.(evictCtr := c.evictCtr + 1,
                   evictions := c.evictions + [Eviction(c.appendCtr, EvictLeaf(c.evictCtr, c.height), grew)]);
    if grew && c.height < MAX_TREE_HEIGHT then Grown(next) else next
  }

  /** The grow decisions are read off a record of evictions. */
  ghost predicate Grew(record: seq<Eviction>, i: nat) { i < |record| && record[i].grew }

  /** One append, given the grow decisions. */
  ghost function Appended(c: Counters, a: nat, record: seq<Eviction>): (r: Counters)
    requires a >= 1 && Ticking(c)
    ensures Ticking(r)
  {
    var next := c.(appendCtr := c.appendCtr + 1);
    if next.appendCtr % EvictInterval(next.evictCtr, next.sweepEnd, a) != 0 then next
    else Evicted(next, Grew(record, next.evictCtr))
  }

  /** `n` appends, one at a time. */
  ghost function AppendedMany(c: Counters, n: nat, a: nat, record: seq<Eviction>): (r: Counters)
    requires a >= 1 && Ticking(c)
    ensures Ticking(r)
  {
    if n == 0 then c else Appended(AppendedMany(c, n - 1, a, record), a, record)
  }

  /** The tree grows by at most one level an append. */
  lemma {:induction false} AppendedHeight(c: Counters, n: nat, a: nat, record: seq<Eviction>)
    requires a >= 1 && Ticking(c)
    ensures AppendedMany(c, n, a, record).height <= c.height + n
  {
    if n > 0 { AppendedHeight(c, n - 1, a, record); }
  }

  lemma {:induction false} AppendedSplit(c: Counters, n: nat, k: nat, a: nat, record: seq<Eviction>)
    requires a >= 1 && Ticking(c)
    ensures AppendedMany(c, n + k, a, record) == AppendedMany(AppendedMany(c, n, a, record), k, a, record)
  {
    hide Appended;
    if k > 0 { AppendedSplit(c, n, k - 1, a, record); }
  }

  /** Evictions are only ever added to the record. */
  lemma {:induction false} RecordGrows(c: Counters, n: nat, a: nat, record: seq<Eviction>)
    requires a >= 1 && Ticking(c)
    ensures c.evictions <= AppendedMany(c, n, a, record).evictions
  {
    if n > 0 { RecordGrows(c, n - 1, a, record); }
  }

  /** Only the decisions for the evictions that happen matter. */
  lemma {:induction false} SameDecisions(c: Counters, n: nat, a: nat, one: seq<Eviction>, two: seq<Eviction>)
    requires a >= 1 && Ticking(c)
    requires forall i: nat :: i < AppendedMany(c, n, a, one).evictCtr ==> (Grew(one, i) <==> Grew(two, i))
    ensures AppendedMany(c, n, a, one) == AppendedMany(c, n, a, two)
  {
    if n > 0 { SameDecisions(c, n - 1, a, one, two); }
  }

  // ---- A batch in chunks --------------------------------------------------------------------------------

  /** The appends left until the next eviction, as the batch loop computes them. */
  function UntilEvict(appendCtr: nat, interval: nat): (r: nat)
    requires interval >= 1
    ensures 1 <= r <= interval
  {
    if appendCtr % interval == 0 then interval else interval - appendCtr % interval
  }

  lemma NextMultiple(x: nat, p: nat, j: nat)
    requires p >= 1 && 1 <= j <= UntilEvict(x, p)
    ensures (x + j) % p == 0 <==> j == UntilEvict(x, p)
  {
    var q, r := x / p, x % p;
    if j < UntilEvict(x, p) {
      DivModUnique(x + j, p, q, r + j);
    } else {
      assert x + j == q * p + p == (q + 1) * p;
      DivModUnique(x + j, p, q + 1, 0);
    }
  }

  lemma {:induction false} QuietAppends(c: Counters, n: nat, a: nat, record: seq<Eviction>)
    requires a >= 1 && Ticking(c) && n < UntilEvict(c.appendCtr, EvictInterval(c.evictCtr, c.sweepEnd, a))
    ensures AppendedMany(c, n, a, record) == c.(appendCtr := c.appendCtr + n)
  {
    hide EvictLeaf, EvictInterval, UntilEvict, Grown, Evicted;
    if n > 0 {
      QuietAppends(c, n - 1, a, record);
      NextMultiple(c.appendCtr, EvictInterval(c.evictCtr, c.sweepEnd, a), n);
    }
  }

  /** A chunk never passes an eviction: appending it at once moves the counters as appending one at a time. */
  lemma ChunkAdvances(c: Counters, n: nat, a: nat, record: seq<Eviction>)
    requires a >= 1 && Ticking(c) && 1 <= n <= UntilEvict(c.appendCtr, EvictInterval(c.evictCtr, c.sweepEnd, a))
    ensures var next := c.(appendCtr := c.appendCtr + n);
      AppendedMany(c, n, a, record)
        == if next.appendCtr % EvictInterval(c.evictCtr, c.sweepEnd, a) != 0 then next
           else Evicted(next, Grew(record, c.evictCtr))
  {
    hide EvictLeaf, EvictInterval, UntilEvict, Grown, Evicted;
    QuietAppends(c, n - 1, a, record);
  }

  /** A chunk joined to what came before it, `one` being the record before the chunk and `two` the one after. */
  lemma ChunkJoins(c: Counters, n: nat, k: nat, a: nat, one: seq<Eviction>, two: seq<Eviction>)
    requires a >= 1 && Ticking(c) && AppendedMany(c, n, a, one).evictions == one
    requires AppendedMany(AppendedMany(c, n, a, one), k, a, two).evictions == two
    ensures AppendedMany(c, n + k, a, two) == AppendedMany(AppendedMany(c, n, a, one), k, a, two)
  {
    hide Appended, AppendedMany;
    RecordGrows(AppendedMany(c, n, a, one), k, a, two);
    SameDecisions(c, n, a, one, two);
    AppendedSplit(c, n, k, a, two);
  }

  // ---- The sweep after a growth ----------------------------------------------------------------------------

  /** While the tree does not grow, eviction number `i` goes to the `i`-th leaf of the bit-reversed order. */
  lemma {:induction false} QuietEvictions(c: Counters, n: nat, a: nat, record: seq<Eviction>)
    requires a >= 1 && Ticking(c)
    requires forall i: nat :: c.evictCtr <= i < AppendedMany(c, n, a, record).evictCtr ==> !Grew(record, i)
    ensures var r := AppendedMany(c, n, a, record);
      && r.height == c.height && r.sweepEnd == c.sweepEnd && r.evictCtr >= c.evictCtr
      && forall i :: c.evictCtr <= i < r.evictCtr ==> r.evictions[i].leaf == EvictLeaf(i, c.height)
  {
    hide EvictLeaf;
    if n > 0 { QuietEvictions(c, n - 1, a, record); }
  }

  /**
    The sweep: from a growth until the end of its window, if the tree does not grow again,
    exactly one eviction goes through each leaf of the tree before the growth.
   */
  lemma SweepVisitsEachLeafOnce(c: Counters, n: nat, a: nat, record: seq<Eviction>, leaf: nat) returns (t: nat)
    requires a >= 1 && Ticking(c) && c.height < MAX_TREE_HEIGHT && LeafAt(leaf, c.height)
    requires var r := AppendedMany(Grown(c), n, a, record);
      && r.evictCtr >= Grown(c).sweepEnd
      && (forall i: nat :: c.evictCtr <= i < r.evictCtr ==> !Grew(record, i))
    ensures var r, h := AppendedMany(Grown(c), n, a, record), c.height;
      && c.evictCtr <= t < Grown(c).sweepEnd <= |r.evictions|
      && (forall u :: c.evictCtr <= u < Grown(c).sweepEnd ==> LeafAt(r.evictions[u].leaf, h + 1))
      && NodeOnPath(r.evictions[t].leaf, h, h + 1) == leaf
      && (forall u :: c.evictCtr <= u < Grown(c).sweepEnd && NodeOnPath(r.evictions[u].leaf, h, h + 1) == leaf ==>
            u == t)
  {
    hide EvictLeaf, Appended, NodeOnPath;
    var g, h := Grown(c), c.height;
    var r := AppendedMany(g, n, a, record);
    QuietEvictions(g, n, a, record);
    t := EvictionVisits(c.evictCtr, h, h + 1, leaf);
    forall u | c.evictCtr <= u < g.sweepEnd
      ensures LeafAt(r.evictions[u].leaf, h + 1)
      ensures NodeOnPath(r.evictions[u].leaf, h, h + 1) == leaf ==> u == t
    {
      EvictLeafIs(u, h + 1);
      if NodeOnPath(r.evictions[u].leaf, h, h + 1) == leaf { EvictionVisitsOnce(c.evictCtr, h, h + 1, t, u); }
    }
  }

  // ---- How often evictions happen -----------------------------------------------------------------------

  /** The multiples of `p` among `x + 1 .. x + n`. */
  function MultiplesIn(x: nat, n: nat, p: nat): int
    requires p >= 1
  {
    (x + n) / p - x / p
  }

  /** One more number is one more multiple when it is one. */
  lemma MultiplesNext(x: nat, n: nat, p: nat)
    requires p >= 1
    ensures MultiplesIn(x, n + 1, p) == MultiplesIn(x, n, p) + if (x + n + 1) % p == 0 then 1 else 0
    ensures (x + n + 1) % p == 0 ==> x + n + 1 == (x / p + MultiplesIn(x, n, p) + 1) * p
  {
    var q, r := (x + n) / p, (x + n) % p;
    if r + 1 < p {
      DivModUnique(x + n + 1, p, q, r + 1);
    } else {
      assert x + n + 1 == (q + 1) * p;
      DivModUnique(x + n + 1, p, q + 1, 0);
    }
  }

  lemma {:induction false} MultiplesGrow(x: nat, k: nat, n: nat, p: nat)
    requires p >= 1 && k <= n
    ensures 0 <= MultiplesIn(x, k, p) <= MultiplesIn(x, n, p)
    decreases n
  {
    hide MultiplesIn;
    if n == 0 {
      NoMultiples(x, p);
    } else {
      MultiplesNext(x, n - 1, p);
      if k < n { MultiplesGrow(x, k, n - 1, p); } else { MultiplesGrow(x, n - 1, n - 1, p); }
    }
  }

  lemma NoMultiples(x: nat, p: nat)
    requires p >= 1
    ensures MultiplesIn(x, 0, p) == 0
  {
  }

  /** Eviction `e + j` happened at the `j`-th multiple of `p` above `x`. */
  ghost predicate EvictedAt(r: Counters, e: nat, x: nat, p: nat, j: nat)
    requires p >= 1
  {
    e + j < |r.evictions| && r.evictions[e + j].at == (x / p + j + 1) * p
  }

  /** The counters after `n` appends with an eviction at each multiple of `p`, and only there. */
  ghost predicate Paced(c: Counters, r: Counters, n: nat, p: nat)
    requires p >= 1
  {
    && r.appendCtr == c.appendCtr + n && r.evictCtr == c.evictCtr + MultiplesIn(c.appendCtr, n, p)
    && forall j: nat :: j < MultiplesIn(c.appendCtr, n, p) ==> EvictedAt(r, c.evictCtr, c.appendCtr, p, j)
  }

  /** Before append `k + 1` the interval is `p`, if evictions have been paced by `p` so far. */
  ghost predicate IntervalAt(c: Counters, a: nat, p: nat, k: nat)
    requires a >= 1 && p >= 1
  {
    c.evictCtr + MultiplesIn(c.appendCtr, k, p) >= 0
    && EvictInterval(c.evictCtr + MultiplesIn(c.appendCtr, k, p), c.sweepEnd, a) == p
  }

  lemma {:induction false} PacedEvictions(c: Counters, n: nat, a: nat, p: nat, record: seq<Eviction>)
    requires a >= 1 && Ticking(c) && p >= 1 && forall k: nat :: k < n ==> IntervalAt(c, a, p, k)
    requires forall i: nat :: c.evictCtr <= i < AppendedMany(c, n, a, record).evictCtr ==> !Grew(record, i)
    ensures Paced(c, AppendedMany(c, n, a, record), n, p)
  {
    hide EvictLeaf, EvictInterval, MultiplesIn, EvictedAt;
    if n == 0 {
      NoMultiples(c.appendCtr, p);
    } else {
      NextCounts(c, n - 1, a, record);
      PacedEvictions(c, n - 1, a, p, record);
      QuietEvictions(c, n - 1, a, record);
      assert IntervalAt(c, a, p, n - 1);
      PacedNext(c, AppendedMany(c, n - 1, a, record), n - 1, a, p, record);
    }
  }

  lemma NextCounts(c: Counters, n: nat, a: nat, record: seq<Eviction>)
    requires a >= 1 && Ticking(c)
    ensures AppendedMany(c, n + 1, a, record) == Appended(AppendedMany(c, n, a, record), a, record)
    ensures AppendedMany(c, n, a, record).evictCtr <= AppendedMany(c, n + 1, a, record).evictCtr
  {
  }

  lemma PacedNext(c: Counters, r: Counters, n: nat, a: nat, p: nat, record: seq<Eviction>)
    requires a >= 1 && p >= 1 && Ticking(r) && Paced(c, r, n, p) && r.sweepEnd == c.sweepEnd && IntervalAt(c, a, p, n)
    ensures Paced(c, Appended(r, a, record), n + 1, p)
  {
    hide EvictLeaf, EvictInterval, MultiplesIn, EvictedAt;
    MultiplesNext(c.appendCtr, n, p);
    MultiplesGrow(c.appendCtr, n, n, p);
    var next := Appended(r, a, record);
    forall j: nat | j < MultiplesIn(c.appendCtr, n + 1, p) ensures EvictedAt(next, c.evictCtr, c.appendCtr, p, j) {
      if j < MultiplesIn(c.appendCtr, n, p) {
        assert EvictedAt(r, c.evictCtr, c.appendCtr, p, j);
        StaysEvicted(r, next, c.evictCtr, c.appendCtr, p, j);
      } else {
        LastEvicted(r, next, c.evictCtr, c.appendCtr, p, j);
      }
    }
  }

  lemma StaysEvicted(r: Counters, next: Counters, e: nat, x: nat, p: nat, j: nat)
    requires p >= 1 && EvictedAt(r, e, x, p, j) && r.evictions <= next.evictions
    ensures EvictedAt(next, e, x, p, j)
  {
  }

  lemma LastEvicted(r: Counters, next: Counters, e: nat, x: nat, p: nat, j: nat)
    requires p >= 1 && e + j == |r.evictions| < |next.evictions|
    requires next.evictions[e + j].at == (x / p + j + 1) * p
    ensures EvictedAt(next, e, x, p, j)
  {
  }

  /** Outside a sweep: appends without growth evict at each multiple of `a` they reach. */
  lemma SteadyEvictions(c: Counters, n: nat, a: nat, record: seq<Eviction>)
    requires a >= 1 && Ticking(c) && c.evictCtr >= c.sweepEnd
    requires forall i: nat :: c.evictCtr <= i < AppendedMany(c, n, a, record).evictCtr ==> !Grew(record, i)
    ensures Paced(c, AppendedMany(c, n, a, record), n, a)
  {
    hide AppendedMany, MultiplesIn, Paced;
    forall k: nat | k < n ensures IntervalAt(c, a, a, k) { MultiplesGrow(c.appendCtr, k, k, a); }
    PacedEvictions(c, n, a, a, record);
  }

  /** During a sweep, as long as its window is open before the last append: at each multiple of half of `a`. */
  lemma SweepEvictions(c: Counters, n: nat, a: nat, record: seq<Eviction>)
    requires a >= 1 && Ticking(c)
    requires forall i: nat :: c.evictCtr <= i < AppendedMany(c, n, a, record).evictCtr ==> !Grew(record, i)
    requires var p := if a <= 3 then 1 else a / 2;
      n > 0 ==> c.evictCtr + MultiplesIn(c.appendCtr, n - 1, p) < c.sweepEnd
    ensures Paced(c, AppendedMany(c, n, a, record), n, if a <= 3 then 1 else a / 2)
  {
    hide AppendedMany, MultiplesIn, Paced;
    var p := if a <= 3 then 1 else a / 2;
    forall k: nat | k < n ensures IntervalAt(c, a, p, k) { MultiplesGrow(c.appendCtr, k, n - 1, p); }
    PacedEvictions(c, n, a, p, record);
  }

  /** The epoch counts the levels the tree has grown, up to 255. */
  lemma {:induction false} EpochCountsLevels(c: Counters, n: nat, a: nat, record: seq<Eviction>)
    requires a >= 1 && Ticking(c)
    ensures var r := AppendedMany(c, n, a, record);
      && r.height >= c.height
      && r.epoch == if c.epoch + (r.height - c.height) > 255 then 255 else c.epoch + (r.height - c.height)
  {
    hide EvictLeaf, EvictInterval;
    if n > 0 { EpochCountsLevels(c, n - 1, a, record); }
  }
}
