/** Whole runs of a sharded histogram against the plain map. */
module ShardedRuns {
  import opened OddEvenMerge
  import opened Blocks
  import opened Routing
  import opened Access
  import opened Arithmetic
  import opened Tree
  import opened Stash
  import opened Resize
  import opened Histogram
  import opened Frontend
  import opened Partition
  import opened Readout
  import opened Holdings
  import opened Crypto
  import opened Shards
  import opened Moves
  import opened Sharded
  import Runs

  datatype Op<V> = Append(key: Runs.Key, value: V) | Read(key: Runs.Key) | Flush | Grow

  /** Flushing and growing are invisible to the plain map. */
  function AsPlain<V>(op: Op<V>): Runs.Op<V> {
    match op
    case Append(key, value) => Runs.Append(key, value)
    case Read(key) => Runs.Read(key)
    case Flush => Runs.Grow
    case Grow => Runs.Grow
  }

  ghost function AllPlain<V>(ops: seq<Op<V>>): (r: seq<Runs.Op<V>>)
    ensures |r| == |ops|
  {
    seq(|ops|, i requires 0 <= i < |ops| => AsPlain(ops[i]))
  }

  /** How many levels an operation may add. */
  function Levels<V>(op: Op<V>, autoResize: bool): nat { if op.Grow? || autoResize then 1 else 0 }

  function AllLevels<V>(ops: seq<Op<V>>, autoResize: bool): nat {
    if ops == [] then 0 else AllLevels(ops[..|ops| - 1], autoResize) + Levels(ops[|ops| - 1], autoResize)
  }

  lemma {:induction false} PrefixLevels<V>(ops: seq<Op<V>>, i: nat, autoResize: bool)
    requires i <= |ops|
    ensures AllLevels(ops[..i], autoResize) <= AllLevels(ops, autoResize)
  {
    if i == |ops| {
      assert ops[..i] == ops;
    } else {
      PrefixLevels(ops[..|ops| - 1], i, autoResize);
      assert ops[..|ops| - 1][..i] == ops[..i];
    }
  }

  /** Bounds on blocks and levels along a run. */
  lemma NextBounds<V>(ops: seq<Op<V>>, i: nat, autoResize: bool)
    requires i < |ops|
    ensures AllLevels(ops[..i + 1], autoResize) == AllLevels(ops[..i], autoResize) + Levels(ops[i], autoResize)
    ensures AllLevels(ops[..i + 1], autoResize) <= AllLevels(ops, autoResize)
    ensures Runs.AllAdds(AllPlain(ops[..i + 1])) == Runs.AllAdds(AllPlain(ops[..i])) + Runs.Adds(AsPlain(ops[i]))
    ensures Runs.AllAdds(AllPlain(ops[..i + 1])) <= Runs.AllAdds(AllPlain(ops))
    ensures AllLevels(ops[..0], autoResize) == 0 && Runs.AllAdds(AllPlain(ops[..0])) == 0
  {
    PrefixLevels(ops, i + 1, autoResize);
    assert ops[..i + 1][..i] == ops[..i];
    hide AllLevels, Levels, Runs.Adds;
    assert AllPlain(ops[..i + 1]) == AllPlain(ops)[..i + 1] && AllPlain(ops[..i]) == AllPlain(ops)[..i];
    Runs.PrefixAdds(AllPlain(ops), i + 1, false);
    Runs.NextAdds(AllPlain(ops), i, false);
  }

  lemma NoBounds<V>(ops: seq<Op<V>>, autoResize: bool)
    ensures AllLevels(ops[..0], autoResize) == 0 && Runs.AllAdds(AllPlain(ops[..0])) == 0
  {
  }

  /** Shards and pending updates together hold the keys the map holds, with the same totals. */
  ghost predicate Agrees<V(!new)>(h: ShardedObliviousHistogram<V>, totals: map<Payload, V>)
    reads h.router, Owned(h.router.shards)
    reads set i | 0 <= i < |h.router.shards| :: h.router.shards[i]
    reads set i | 0 <= i < |h.router.shards| :: h.router.shards[i].stash
  {
    forall p :: h.SumOf(p) == Runs.Get(h.router.cfg.values, totals, p) && (h.Stores(p) <==> p in totals)
  }

  ghost function Ids<V(!new)>(h: ShardedObliviousHistogram<V>, keys: set<Runs.Key>): Access.Ids {
    Runs.IdsOf(h.router.prf, h.router.cfg.k, keys)
  }

  method RunOne<V(!new)>(h: ShardedObliviousHistogram<V>, op: Op<V>, leaves: nat -> nat, ghost s: Runs.Plain<V>,
                         ghost keys: set<Runs.Key>, ghost height: nat)
      returns (ok: bool, results: seq<V>, ghost now: nat)
    requires h.Valid(height, Ids(h, keys)) && h.router.Covers() && Runs.OneTagEach(h.router.prf, h.router.cfg.k, keys)
    requires Runs.Within(AsPlain(op), keys) && Agrees(h, s.totals)
    modifies h, h.router, h.router.repr
    ensures ok ==> h.Valid(now, Ids(h, keys)) && fresh(h.router.repr - old(h.router.repr))
    ensures ok ==> Agrees(h, Runs.PlainStep(h.router.cfg.values, h.router.prf, h.router.cfg.k, s, AsPlain(op)).totals)
    ensures ok ==> Runs.AnswersAgree(h.router.prf, h.router.cfg.k, keys, results,
                                     Runs.PlainAnswers(h.router.cfg.values, h.router.cfg.k, s, AsPlain(op)))
    ensures var fits := old(h.Held()) + Runs.Adds(AsPlain(op)) < h.router.cfg.s;
      h.router.AlwaysRoutes() && fits && height + Levels(op, old(h.autoResize)) <= MAX_TREE_HEIGHT ==> ok
    ensures ok ==> h.Held() <= old(h.Held()) + Runs.Adds(AsPlain(op)) && h.autoResize == old(h.autoResize)
    ensures ok ==> now <= height + Levels(op, old(h.autoResize))
  {
    hide Sound, Known, TagOf, Chained, Padded, SameRank, Unambiguous, OneTag, Runs.OneTagEach, Runs.IdsOf, Runs.Alone,
         Lawful, Total, AllSum, AllStored, AllLoad, Live, MatchCount, IsPowerOfTwo, AfterFlush,
         h.router.AlwaysRoutes, h.router.CanRoute, h.router.SumOf, h.router.Held, h.router.Stores, h.router.ShardSum,
         h.router.Valid, h.router.Flushed, h.router.FlushedAndRead, AllMoved, States;
    results := [];
    ghost var m := h.router.cfg.values;
    h.router.Outline(height, Ids(h, keys));
    if h.router.AlwaysRoutes() { h.router.RoutesAlways(); }
    match op
    case Append(key, value) =>
      Runs.KeysAreIds(h.router.prf, h.router.cfg.k, keys, key);
      ok, now := h.Append(key, value, height, Ids(h, keys));
      if ok {
        AppendedToMap(m, s.totals, Runs.TagFor(h.router.prf, key), Padded(key, h.router.cfg.k), value);
      }
    case Read(key) =>
      Runs.KeysAreIds(h.router.prf, h.router.cfg.k, keys, key);
      var result;
      ok, result, now := h.ReadTotal(key, leaves, height, Ids(h, keys));
      results := [result];
    case Flush =>
      ok, now := h.Flush(height, Ids(h, keys));
    case Grow =>
      ok := h.Grow(height, Ids(h, keys));
      now := height + 1;
  }

  lemma AppendedToMap<V(!new)>(m: Values<V>, totals: map<Payload, V>, tag: Tag, payload: Payload, value: V)
    requires Lawful(m)
    ensures var totals' := if tag == 0 then totals else totals[payload := m.plus(Runs.Get(m, totals, payload), value)];
      forall p :: Runs.Get(m, totals', p) == m.plus(Runs.Get(m, totals, p), AppendShare(m, tag, payload, value, p))
  {
    hide Lawful;
    forall p ensures m.plus(Runs.Get(m, totals, p), m.zero) == Runs.Get(m, totals, p) {
      Laws(m, Runs.Get(m, totals, p), m.zero, m.zero);
    }
  }

  /**
    Any sequence of appends, reads, flushes and growths, with any coordinated growths in
    between: if nothing overflows, all shards with the pending updates hold what the plain map
    holds, whatever the tags.  Every read of a key that is alone in its rank returns what the
    map returns.
   */
  method RunAll<V(!new)>(h: ShardedObliviousHistogram<V>, ops: seq<Op<V>>, leaves: nat -> nat,
                         ghost start: map<Payload, V>, ghost keys: set<Runs.Key>, ghost height: nat)
      returns (ok: bool, results: seq<V>, ghost now: nat)
    requires h.Valid(height, Ids(h, keys)) && h.router.Covers() && Runs.OneTagEach(h.router.prf, h.router.cfg.k, keys)
    requires Agrees(h, start)
    requires forall i :: 0 <= i < |ops| ==> Runs.Within(AsPlain(ops[i]), keys)
    modifies h, h.router, h.router.repr
    ensures ok ==> h.Valid(now, Ids(h, keys)) && fresh(h.router.repr - old(h.router.repr))
    ensures ok ==> h.Held() <= old(h.Held()) + Runs.AllAdds(AllPlain(ops)) && h.autoResize == old(h.autoResize)
    ensures ok ==> var end := Runs.PlainRun(h.router.cfg.values, h.router.prf, h.router.cfg.k, start, AllPlain(ops));
                   Runs.AnswersAgree(h.router.prf, h.router.cfg.k, keys, results, end.answers) && Agrees(h, end.totals)
    ensures var fits := old(h.Held()) + Runs.AllAdds(AllPlain(ops)) < h.router.cfg.s;
      h.router.AlwaysRoutes() && fits && height + AllLevels(ops, old(h.autoResize)) <= MAX_TREE_HEIGHT ==> ok
  {
    hide Sound, Known, Runs.PlainStep, Runs.PlainRun, Runs.OneTagEach, Runs.IdsOf, Agrees, Runs.Within, Lawful,
         Padded, Runs.TagFor, Runs.PlainAnswers, Runs.Alone, AllLevels, Levels, Runs.AllAdds, Runs.Adds,
         h.router.AlwaysRoutes, h.Held, h.router.Covers;
    results := [];
    now := height;
    ghost var auto := h.autoResize;
    NoBounds(ops, auto);
    Runs.NothingRun(h.router.cfg.values, h.router.prf, h.router.cfg.k, start, AllPlain(ops), false);
    for i := 0 to |ops|
      invariant h.Valid(now, Ids(h, keys)) && fresh(h.router.repr - old(h.router.repr))
      invariant Runs.AnswersAgree(h.router.prf, h.router.cfg.k, keys, results,
                                  Runs.PlainRun(h.router.cfg.values, h.router.prf, h.router.cfg.k, start,
                                                AllPlain(ops[..i])).answers)
      invariant Agrees(h, Runs.PlainRun(h.router.cfg.values, h.router.prf, h.router.cfg.k, start,
                                        AllPlain(ops[..i])).totals)
      invariant h.Held() <= old(h.Held()) + Runs.AllAdds(AllPlain(ops[..i])) && h.autoResize == auto
      invariant now <= height + AllLevels(ops[..i], auto)
    {
      NextBounds(ops, i, auto);
      ghost var s := Runs.PlainRun(h.router.cfg.values, h.router.prf, h.router.cfg.k, start, AllPlain(ops[..i]));
      Runs.PlainNext(h.router.cfg.values, h.router.prf, h.router.cfg.k, start, AllPlain(ops), i);
      assert AllPlain(ops[..i + 1]) == AllPlain(ops)[..i + 1] && AllPlain(ops[..i]) == AllPlain(ops)[..i];
      var more;
      ok, more, now := RunOne(h, ops[i], leaves, s, keys, now);
      if !ok {
        return;
      }
      results := results + more;
    }
    assert ops[..|ops|] == ops;
    ok := true;
  }

  // ---- Reading out ----------------------------------------------------------------------------------------

  /** With nothing pending, a readout of shards that agree with a map is the map. */
  lemma AgreesReadout<V(!new)>(h: ShardedObliviousHistogram<V>, totals: map<Payload, V>, out: seq<Block<V>>,
                               height: nat, ids: Access.Ids)
    requires h.Valid(height, ids) && h.router.pending == [] && Agrees(h, totals)
    requires IsReadout(h.router.cfg.values, h.router.Stored(), out)
    ensures HoldsMap(out, totals)
  {
    hide Sound, Known, Lawful, Total, MatchCount, IsReadout, HoldsMap, Flat;
    var m := h.router.cfg.values;
    NonePending(m);
    forall p ensures MatchCount(h.router.Stored(), p) > 0 <==> p in totals { assert h.Stores(p) <==> p in totals; }
    forall p | p in totals ensures Total(m, h.router.Stored(), p) == totals[p] {
      assert h.SumOf(p) == Runs.Get(m, totals, p);
      EmptyPending(m, h.router.ShardSum(p), p);
    }
    ReadoutIsMap(m, h.router.Stored(), out, totals);
  }

  /** Both readouts of a sharded histogram that agrees with a map are the map. */
  method ReadOutAll<V(!new)>(h: ShardedObliviousHistogram<V>, ghost totals: map<Payload, V>, ghost keys: set<Runs.Key>,
                             ghost height: nat)
      returns (ok: bool, plain: array<Block<V>>, aware: seq<Block<V>>, ghost now: nat)
    requires h.Valid(height, Ids(h, keys)) && h.router.Covers() && Runs.OneTagEach(h.router.prf, h.router.cfg.k, keys)
    requires Agrees(h, totals)
    modifies h, h.router, h.router.repr
    ensures ok ==> HoldsMap(plain[..], totals) && RealFirst(plain[..])
    ensures ok ==> HoldsMap(aware, totals)
    ensures h.router.AlwaysRoutes() && old(h.Held()) < h.router.cfg.s && !old(h.autoResize) ==> ok
  {
    hide Sound, Known, Lawful, Total, MatchCount, IsReadout, HoldsMap, Flat, RealFirst, Runs.OneTagEach, Runs.IdsOf,
         Live, IdsCoherent, AllStored, AllLoad, AllSum, IsPowerOfTwo, Slots, Pow2, AfterFlush, h.router.AlwaysRoutes,
         h.router.CanRoute, h.router.SumOf, h.router.Held, h.router.Stores, h.router.ShardSum, h.router.Stored,
         h.router.Valid, h.router.Flushed, States;
    Runs.KeysCoherent(h.router.prf, h.router.cfg.k, keys);
    aware := [];
    h.router.Outline(height, Ids(h, keys));
    if h.router.AlwaysRoutes() { h.router.RoutesAlways(); }
    ok, plain, now := h.Readout(height, Ids(h, keys));
    if ok {
      AgreesReadout(h, totals, plain[..], now, Ids(h, keys));
      ok, aware, now := h.ReadoutTreeAware(now, Ids(h, keys));
      if ok { AgreesReadout(h, totals, aware, now, Ids(h, keys)); }
    }
  }

  /**
    From a new sharded histogram through any run to its readouts: with room for the run's blocks
    and levels, and frontends that can route any batch, nothing fails, and both readouts are
    what the plain map ends up with.
   */
  method RunFromEmpty<V(!new)>(shardCount: nat, totalCapacity: nat, batchSize: nat, perShardQuota: nat,
                               frontendCount: nat, cfg: Config<V>, prf: Cipher, oracles: nat -> Oracle,
                               sizeInBytes: nat, ops: seq<Op<V>>, leaves: nat -> nat, ghost keys: set<Runs.Key>)
      returns (h: ShardedObliviousHistogram<V>, ok: bool, results: seq<V>, plain: array<Block<V>>, aware: seq<Block<V>>)
    requires IsPowerOfTwo(shardCount) && shardCount <= MAX_SHARDS && Lawful(cfg.values) && cfg.a >= 1
    requires IsPowerOfTwo(cfg.z) && totalCapacity / shardCount >= 1
    requires TreeHeightForCapacity(totalCapacity / shardCount, cfg.z) <= MAX_TREE_HEIGHT
    requires frontendCount >= 1 && batchSize % frontendCount == 0
    requires Runs.OneTagEach(prf, cfg.k, keys) && forall i :: 0 <= i < |ops| ==> Runs.Within(AsPlain(ops[i]), keys)
    ensures var height := TreeHeightForCapacity(totalCapacity / shardCount, cfg.z);
      var routes := frontendCount <= batchSize && batchSize / frontendCount <= perShardQuota / frontendCount;
      routes && Runs.AllAdds(AllPlain(ops)) < cfg.s && height + AllLevels(ops, false) <= MAX_TREE_HEIGHT ==> ok
    ensures ok ==> var end := Runs.PlainRun(cfg.values, prf, cfg.k, map[], AllPlain(ops));
      && Runs.AnswersAgree(prf, cfg.k, keys, results, end.answers)
      && HoldsMap(plain[..], end.totals) && HoldsMap(aware, end.totals)
  {
    hide Sound, Known, Lawful, Total, MatchCount, HoldsMap, RealFirst, Runs.OneTagEach, Runs.IdsOf, Live, AllStored,
         AllLoad, AllSum, Runs.Within, Runs.PlainRun, Runs.AnswersAgree, AllLevels, Runs.AllAdds,
         TreeHeightForCapacity;
    ghost var ids := Runs.IdsOf(prf, cfg.k, keys);
    ghost var height := TreeHeightForCapacity(totalCapacity / shardCount, cfg.z);
    h := NewSharded(shardCount, totalCapacity, batchSize, perShardQuota, frontendCount, cfg, prf, oracles, sizeInBytes,
                    ids);
    ghost var now;
    ok, results, now := RunAll(h, ops, leaves, map[], keys, height);
    if ok {
      ghost var end := Runs.PlainRun(cfg.values, prf, cfg.k, map[], AllPlain(ops));
      ok, plain, aware, now := ReadOutAll(h, end.totals, keys, now);
    } else {
      plain, aware := new Block<V>[0], [];
    }
  }
}
