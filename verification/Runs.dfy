/**
  Whole runs of one histogram against a plain map from keys to running totals, and a
  batch against the same updates appended one at a time.
 */
module Runs {
  import opened Arithmetic
  import opened Blocks
  import opened Routing
  import opened Stash
  import opened Access
  import opened Presence
  import opened Contents
  import opened Capacity
  import opened Clock
  import opened Steps
  import opened Crypto
  import opened Resize
  import opened Histogram
  import opened Wrappers
  import opened Tree
  import opened OddEvenMerge
  import opened Order
  import opened Readout
  import opened Partition

  // ---- The plain map ---------------------------------------------------------------------------------

  type Key = seq<Byte>

  datatype Op<V> = Append(key: Key, value: V) | Read(key: Key) | Dummy(index: nat) | Grow

  ghost function TagFor(c: Cipher, key: Key): Tag { TagOf(Chained(c, key)) }

  /** The map's contents, and the keys read so far with what they held. */
  datatype Plain<V> = Plain(totals: map<Payload, V>, answers: seq<(Key, V)>)

  function Get<V>(m: Values<V>, totals: map<Payload, V>, p: Payload): V { if p in totals then totals[p] else m.zero }

  /** Appending adds, reading returns and removes.  An update whose tag is that of dummies is lost. */
  ghost function PlainStep<V>(m: Values<V>, c: Cipher, k: nat, s: Plain<V>, op: Op<V>): Plain<V> {
    match op
    case Append(key, value) =>
      var p := Padded(key, k);
      if TagFor(c, key) == 0 then s else s.(totals := s.totals[p := m.plus(Get(m, s.totals, p), value)])
    case Read(key) => Plain(s.totals - {Padded(key, k)}, s.answers + PlainAnswers(m, k, s, op))
    case Dummy(_) => s
    case Grow => s
  }

  /** What the map returns for an operation. */
  ghost function PlainAnswers<V>(m: Values<V>, k: nat, s: Plain<V>, op: Op<V>): seq<(Key, V)> {
    match op
    case Append(_, _) => []
    case Read(key) => [(key, Get(m, s.totals, Padded(key, k)))]
    case Dummy(_) => []
    case Grow => []
  }

  ghost function PlainRun<V>(m: Values<V>, c: Cipher, k: nat, start: map<Payload, V>, ops: seq<Op<V>>): Plain<V> {
    if ops == [] then Plain(start, [])
    else PlainStep(m, c, k, PlainRun(m, c, k, start, ops[..|ops| - 1]), ops[|ops| - 1])
  }

  // ---- Keys a run may use ------------------------------------------------------------------------------

  ghost function IdsOf(c: Cipher, k: nat, keys: set<Key>): Ids {
    iset key | key in keys :: (TagFor(c, key), Padded(key, k))
  }

  /** Keys stored alike have one tag. */
  ghost predicate OneTagEach(c: Cipher, k: nat, keys: set<Key>) {
    forall x, y :: x in keys && y in keys && Padded(x, k) == Padded(y, k) ==> TagFor(c, x) == TagFor(c, y)
  }

  /** No key that is stored differently has a tag ranked like this one's. */
  ghost predicate Alone(c: Cipher, k: nat, keys: set<Key>, key: Key) {
    forall y :: y in keys && SameRank(TagFor(c, y), TagFor(c, key)) ==> Padded(y, k) == Padded(key, k)
  }

  lemma KeysAreIds(c: Cipher, k: nat, keys: set<Key>, key: Key)
    requires OneTagEach(c, k, keys) && key in keys
    ensures OneTag(IdsOf(c, k, keys), TagFor(c, key), Padded(key, k))
    ensures (TagFor(c, key), Padded(key, k)) in IdsOf(c, k, keys)
    ensures Alone(c, k, keys, key) ==> Unambiguous(IdsOf(c, k, keys), TagFor(c, key), Padded(key, k))
  {
    hide SameRank, TagFor, Padded;
  }

  /** The values returned are those of the map, for every read of a key that is alone in its rank. */
  ghost predicate AnswersAgree<V>(c: Cipher, k: nat, keys: set<Key>, results: seq<V>, answers: seq<(Key, V)>) {
    && |results| == |answers|
    && forall j :: 0 <= j < |answers| && Alone(c, k, keys, answers[j].0) ==> results[j] == answers[j].1
  }

  ghost predicate Within<V>(op: Op<V>, keys: set<Key>) {
    match op
    case Append(key, _) => key in keys
    case Read(key) => key in keys
    case Dummy(_) => true
    case Grow => true
  }

  /** How many blocks an operation may add, and how many levels. */
  function Adds<V>(op: Op<V>): nat { if op.Append? then 1 else 0 }

  function Grows<V>(op: Op<V>, alone: bool): nat { if op.Grow? || (op.Append? && alone) then 1 else 0 }

  function AllAdds<V>(ops: seq<Op<V>>): nat {
    if ops == [] then 0 else AllAdds(ops[..|ops| - 1]) + Adds(ops[|ops| - 1])
  }

  function AllGrows<V>(ops: seq<Op<V>>, alone: bool): nat {
    if ops == [] then 0 else AllGrows(ops[..|ops| - 1], alone) + Grows(ops[|ops| - 1], alone)
  }

  lemma {:induction false} PrefixAdds<V>(ops: seq<Op<V>>, i: nat, alone: bool)
    requires i <= |ops|
    ensures AllAdds(ops[..i]) <= AllAdds(ops) && AllGrows(ops[..i], alone) <= AllGrows(ops, alone)
  {
    if i == |ops| {
      assert ops[..i] == ops;
    } else {
      PrefixAdds(ops[..|ops| - 1], i, alone);
      assert ops[..|ops| - 1][..i] == ops[..i];
    }
  }

  lemma NextAdds<V>(ops: seq<Op<V>>, i: nat, alone: bool)
    requires i < |ops|
    ensures AllAdds(ops[..i + 1]) == AllAdds(ops[..i]) + Adds(ops[i])
    ensures AllGrows(ops[..i + 1], alone) == AllGrows(ops[..i], alone) + Grows(ops[i], alone)
  {
    assert ops[..i + 1][..i] == ops[..i];
  }

  /** The histogram holds the keys the map holds, with the same totals. */
  ghost predicate Agrees<V(!new)>(h: ObliviousHistogram<V>, totals: map<Payload, V>)
    reads h.Footprint(), h, h.stash
  {
    forall p :: h.SumOf(p) == Get(h.cfg.values, totals, p) && (h.Stores(p) <==> p in totals)
  }

  // ---- One operation ---------------------------------------------------------------------------------------

  method RunOne<V(!new)>(h: ObliviousHistogram<V>, op: Op<V>, ghost s: Plain<V>, ghost keys: set<Key>)
      returns (ok: bool, results: seq<V>)
    requires h.Valid() && OneTagEach(h.prf, h.cfg.k, keys) && h.Knows(IdsOf(h.prf, h.cfg.k, keys)) && Within(op, keys)
    requires Agrees(h, s.totals)
    modifies h, h.physicalMemory, h.stash, h.stash.blocks
    ensures ok ==> h.Valid() && fresh(h.Footprint() - old(h.Footprint())) && h.Knows(IdsOf(h.prf, h.cfg.k, keys))
    ensures ok ==> Agrees(h, PlainStep(h.cfg.values, h.prf, h.cfg.k, s, op).totals)
    ensures ok ==> AnswersAgree(h.prf, h.cfg.k, keys, results, PlainAnswers(h.cfg.values, h.cfg.k, s, op))
    ensures var levels := Grows(op, GrowsAlone(old(h.autoResize)));
      old(h.Held()) + Adds(op) < h.cfg.s && old(h.height) + levels <= MAX_TREE_HEIGHT ==> ok
    ensures ok ==> h.Held() <= old(h.Held()) + Adds(op) && GrowsAlone(h.autoResize) == GrowsAlone(old(h.autoResize))
    ensures ok ==> h.height <= old(h.height) + Grows(op, GrowsAlone(old(h.autoResize)))
  {
    hide Stored, Load, Lawful, WellFormed, Known, StateTotal, TagOf, Chained, Padded, SameRank, Ticking, Unambiguous,
         OneTag, OneTagEach, IdsOf, Alone, CanAppend, CanAccess, WrittenBack, LeafAt, AddressToLeaf, AppendStep,
         PathStep, BatchStep, BatchStuck, GrowStep, GrowStuck;
    results := [];
    ghost var m, ids := h.cfg.values, IdsOf(h.prf, h.cfg.k, keys);
    ghost var mem, stash := h.physicalMemory[..], h.stash.blocks[..];
    match op
    case Append(key, value) =>
      KeysAreIds(h.prf, h.cfg.k, keys, key);
      ghost var c := h.Now();
      ok := h.Append(key, value);
      if ok {
        ghost var u := Update(TagFor(h.prf, key), value, Padded(key, h.cfg.k), true);
        AppendedMany1(c, h.cfg.a, h.evictions);
        AppendedHeight(c, 1, h.cfg.a, h.evictions);
        AppendAgrees(m, mem, stash, h.physicalMemory[..], h.stash.blocks[..], u, s.totals, ids);
      }
    case Read(key) =>
      KeysAreIds(h.prf, h.cfg.k, keys, key);
      var result;
      ok, result := h.ReadTotal(key);
      results := [result];
    case Dummy(index) =>
      ok := h.ReadDummy(index % Pow2(h.height));
      if ok { QuietAgrees(m, mem, stash, h.physicalMemory[..], h.stash.blocks[..], ids); }
    case Grow =>
      ok := h.Grow();
      if ok { QuietAgrees(m, mem, stash, h.physicalMemory[..], h.stash.blocks[..], ids); }
  }

  lemma AppendAgrees<V(!new)>(m: Values<V>, mem: seq<Block<V>>, stash: seq<Block<V>>, mem': seq<Block<V>>,
                              stash': seq<Block<V>>, u: Update<V>, totals: map<Payload, V>, ids: Ids)
    requires Lawful(m) && u.isReal && Absorbed(m, mem, stash, mem', stash', [u])
    requires Known(mem, ids) && Known(stash, ids) && (u.tag, u.payload) in ids
    requires forall p :: StateTotal(m, mem, stash, p) == Get(m, totals, p) && (Stored(mem, stash, p) <==> p in totals)
    ensures var totals' := if u.tag == 0 then totals
                           else totals[u.payload := m.plus(Get(m, totals, u.payload), u.value)];
      forall p :: StateTotal(m, mem', stash', p) == Get(m, totals', p) && (Stored(mem', stash', p) <==> p in totals')
    ensures Known(mem', ids) && Known(stash', ids)
  {
    hide Lawful, StateTotal, Known, Stored;
    forall p ensures Brings([u], p) <==> u.tag != 0 && u.payload == p { assert [u][0] == u; }
    hide Brings;
    forall p ensures StateTotal(m, mem', stash', p) == m.plus(StateTotal(m, mem, stash, p), Share(m, u, p)) {
      assert [u][..0] == [];
      assert UpdatesTotal(m, [u], p) == m.plus(m.zero, Share(m, u, p));
      Laws(m, Share(m, u, p), m.zero, m.zero);
    }
    forall p ensures m.plus(StateTotal(m, mem, stash, p), m.zero) == StateTotal(m, mem, stash, p) {
      Laws(m, StateTotal(m, mem, stash, p), m.zero, m.zero);
    }
  }

  lemma QuietAgrees<V(!new)>(m: Values<V>, mem: seq<Block<V>>, stash: seq<Block<V>>, mem': seq<Block<V>>,
                             stash': seq<Block<V>>, ids: Ids)
    requires Lawful(m) && Absorbed(m, mem, stash, mem', stash', []) && Known(mem, ids) && Known(stash, ids)
    ensures forall p :: StateTotal(m, mem', stash', p) == StateTotal(m, mem, stash, p)
    ensures forall p :: Stored(mem', stash', p) <==> Stored(mem, stash, p)
    ensures Known(mem', ids) && Known(stash', ids)
  {
    hide Lawful, StateTotal, Known, UpdatesTotal, Stored;
    forall p ensures StateTotal(m, mem', stash', p) == StateTotal(m, mem, stash, p) {
      NoUpdates(m, StateTotal(m, mem, stash, p), p);
    }
    forall p ensures Stored(mem', stash', p) <==> Stored(mem, stash, p) { assert !Brings<V>([], p); }
    assert UpdatesKnown<V>([], ids);
  }

  lemma PlainNext<V>(m: Values<V>, c: Cipher, k: nat, start: map<Payload, V>, ops: seq<Op<V>>, i: nat)
    requires i < |ops|
    ensures var s, s' := PlainRun(m, c, k, start, ops[..i]), PlainRun(m, c, k, start, ops[..i + 1]);
      s' == PlainStep(m, c, k, s, ops[i]) && s'.answers == s.answers + PlainAnswers(m, k, s, ops[i])
  {
    assert ops[..i + 1][..i] == ops[..i];
  }

  lemma NothingRun<V>(m: Values<V>, c: Cipher, k: nat, start: map<Payload, V>, ops: seq<Op<V>>, alone: bool)
    ensures ops[..0] == [] && ops[..|ops|] == ops && PlainRun(m, c, k, start, ops[..0]) == Plain(start, [])
    ensures AllAdds(ops[..0]) == 0 && AllGrows(ops[..0], alone) == 0
  {
  }

  // ---- Whole runs ----------------------------------------------------------------------------------------------

  /**
    Any sequence of appends, reads, dummy reads and growths, with any automatic growths in
    between: if nothing overflows, the histogram holds what the plain map holds, whatever the
    tags.  Every read of a key that is alone in its rank returns what the map returns.
   */
  method RunAll<V(!new)>(h: ObliviousHistogram<V>, ops: seq<Op<V>>, ghost start: map<Payload, V>, ghost keys: set<Key>)
    returns (ok: bool, results: seq<V>)
    requires h.Valid() && OneTagEach(h.prf, h.cfg.k, keys) && h.Knows(IdsOf(h.prf, h.cfg.k, keys)) && Agrees(h, start)
    requires forall i :: 0 <= i < |ops| ==> Within(ops[i], keys)
    modifies h, h.physicalMemory, h.stash, h.stash.blocks
    ensures ok ==> h.Valid() && h.Knows(IdsOf(h.prf, h.cfg.k, keys))
    ensures ok ==>
              AnswersAgree(h.prf, h.cfg.k, keys, results, PlainRun(h.cfg.values, h.prf, h.cfg.k, start, ops).answers)
    ensures ok ==> Agrees(h, PlainRun(h.cfg.values, h.prf, h.cfg.k, start, ops).totals)
    ensures var levels := AllGrows(ops, GrowsAlone(old(h.autoResize)));
      old(h.Held()) + AllAdds(ops) < h.cfg.s && old(h.height) + levels <= MAX_TREE_HEIGHT ==> ok
  {
    hide Load, GrowsAlone, Adds, Grows, AllAdds, AllGrows, Lawful, WellFormed, Known, StateTotal, OneTagEach, IdsOf,
         Agrees, Ticking, Within, Padded, TagFor, PlainAnswers, PlainStep, PlainRun, Alone;
    results := [];
    ghost var alone := GrowsAlone(h.autoResize);
    NothingRun(h.cfg.values, h.prf, h.cfg.k, start, ops, alone);
    for i := 0 to |ops|
      invariant h.Valid() && fresh(h.Footprint() - old(h.Footprint())) && h.Knows(IdsOf(h.prf, h.cfg.k, keys))
      invariant AnswersAgree(h.prf, h.cfg.k, keys, results,
                             PlainRun(h.cfg.values, h.prf, h.cfg.k, start, ops[..i]).answers)
      invariant Agrees(h, PlainRun(h.cfg.values, h.prf, h.cfg.k, start, ops[..i]).totals)
      invariant h.Held() <= old(h.Held()) + AllAdds(ops[..i]) && GrowsAlone(h.autoResize) == alone
      invariant h.height <= old(h.height) + AllGrows(ops[..i], alone)
    {
      PrefixAdds(ops, i + 1, alone);
      NextAdds(ops, i, alone);
      PlainNext(h.cfg.values, h.prf, h.cfg.k, start, ops, i);
      ghost var s := PlainRun(h.cfg.values, h.prf, h.cfg.k, start, ops[..i]);
      var more;
      ok, more := RunOne(h, ops[i], s, keys);
      if !ok {
        return;
      }
      results := results + more;
    }
    ok := true;
  }

  // ---- Reading out -----------------------------------------------------------------------------------------------

  /** Keys that have one tag each have tags of one order. */
  lemma KeysCoherent(c: Cipher, k: nat, keys: set<Key>)
    requires OneTagEach(c, k, keys)
    ensures IdsCoherent(IdsOf(c, k, keys))
  {
    hide TagFor, Padded, TagOrder;
  }

  /** A readout of a histogram that agrees with a map is the map. */
  lemma AgreesReadout<V(!new)>(h: ObliviousHistogram<V>, totals: map<Payload, V>, out: seq<Block<V>>)
    requires h.Valid() && Agrees(h, totals) && IsReadout(h.cfg.values, h.Contents(), out)
    ensures HoldsMap(out, totals)
  {
    hide Lawful, WellFormed, StateTotal, Total, MatchCount, IsReadout, HoldsMap;
    forall p ensures MatchCount(h.Contents(), p) > 0 <==> p in totals {
      CountConcat(h.TreeSlots(), h.StashSlots(), p);
      assert h.Stores(p) <==> p in totals;
    }
    forall p | p in totals ensures Total(h.cfg.values, h.Contents(), p) == totals[p] {
      h.SumIsTotal(p);
      assert h.SumOf(p) == Get(h.cfg.values, totals, p);
    }
    ReadoutIsMap(h.cfg.values, h.Contents(), out, totals);
  }

  lemma AgreesReadsOut<V(!new)>(h: ObliviousHistogram<V>, totals: map<Payload, V>, keys: set<Key>, out: seq<Block<V>>)
    requires h.Valid() && Agrees(h, totals) && ReadsOut(h.cfg.values, h.Contents(), out)
    requires OneTagEach(h.prf, h.cfg.k, keys) && h.Knows(IdsOf(h.prf, h.cfg.k, keys))
    ensures HoldsMap(out, totals)
  {
    hide Lawful, WellFormed, StateTotal, Total, Known, Agrees, IsReadout, HoldsMap, OneTagEach, IdsOf, IdsCoherent;
    KeysCoherent(h.prf, h.cfg.k, keys);
    KnownBoth(h.TreeSlots(), h.StashSlots(), IdsOf(h.prf, h.cfg.k, keys));
    AgreesReadout(h, totals, out);
  }

  /** The three readouts of a histogram that agrees with a map: each of them is the map. */
  method ReadOutAll<V(!new)>(h: ObliviousHistogram<V>, localHeight: nat, suggestedQuota: nat,
                             ghost totals: map<Payload, V>, ghost keys: set<Key>)
      returns (plain: array<Block<V>>, aware: array<Block<V>>, parts: Result<array<Block<V>>, SubtreeReadoutOverflow>)
    requires h.Valid() && OneTagEach(h.prf, h.cfg.k, keys) && h.Knows(IdsOf(h.prf, h.cfg.k, keys)) && Agrees(h, totals)
    ensures HoldsMap(plain[..], totals) && RealFirst(plain[..]) && HoldsMap(aware[..], totals)
    ensures parts.Ok? ==> HoldsMap(parts.value[..], totals)
    ensures localHeight >= h.height ==> parts.Ok?
  {
    hide Lawful, WellFormed, Known, IsReadout, ReadsOut, RealFirst, HoldsMap, OneTagEach, IdsOf, Agrees, Ticking,
         InboxOverflows, UpperRun, NextPowerOfTwo, Slots, Pow2, StateTotal;
    assert allocated(h.Footprint());
    plain := h.Readout();
    AgreesReadout(h, totals, plain[..]);
    aware := h.ReadoutTreeAware();
    AgreesReadsOut(h, totals, keys, aware[..]);
    parts := h.ReadoutSubtreePartitioned(localHeight, suggestedQuota);
    if parts.Ok? { AgreesReadsOut(h, totals, keys, parts.value[..]); }
  }

  /**
    From a new histogram through any run to its readouts: with room for the run's blocks and
    levels nothing fails, and every readout is what the plain map ends up with.
   */
  method RunFromEmpty<V(!new)>(blockCapacity: nat, cfg: Config<V>, prf: Cipher, oracle: Oracle, ops: seq<Op<V>>,
                               localHeight: nat, suggestedQuota: nat, ghost keys: set<Key>)
      returns (h: ObliviousHistogram<V>, ok: bool, results: seq<V>, plain: array<Block<V>>, aware: array<Block<V>>,
               parts: Result<array<Block<V>>, SubtreeReadoutOverflow>)
    requires Lawful(cfg.values) && cfg.a >= 1 && IsPowerOfTwo(cfg.z) && blockCapacity >= 1
    requires TreeHeightForCapacity(blockCapacity, cfg.z) <= MAX_TREE_HEIGHT
    requires OneTagEach(prf, cfg.k, keys) && forall i :: 0 <= i < |ops| ==> Within(ops[i], keys)
    ensures h.cfg == cfg && h.prf == prf
    ensures var height := TreeHeightForCapacity(blockCapacity, cfg.z);
      AllAdds(ops) < cfg.s && height + AllGrows(ops, false) <= MAX_TREE_HEIGHT ==> ok
    ensures ok ==> var end := PlainRun(cfg.values, prf, cfg.k, map[], ops);
      && AnswersAgree(prf, cfg.k, keys, results, end.answers)
      && HoldsMap(plain[..], end.totals) && HoldsMap(aware[..], end.totals)
      && (parts.Ok? ==> HoldsMap(parts.value[..], end.totals))
  {
    hide Lawful, WellFormed, Known, HoldsMap, RealFirst, OneTagEach, IdsOf, Ticking, PlainRun, AnswersAgree, Within,
         AllAdds, AllGrows, Slots, Pow2, StateTotal, Stored, Load, IsPowerOfTwo, TreeHeightForCapacity;
    h := new ObliviousHistogram<V>(blockCapacity, cfg, prf, oracle);
    NothingHeld(h.TreeSlots(), h.StashSlots(), cfg.Dummy());
    ok, results := RunAll(h, ops, map[], keys);
    if ok {
      ghost var end := PlainRun(cfg.values, prf, cfg.k, map[], ops);
      plain, aware, parts := ReadOutAll(h, localHeight, suggestedQuota, end.totals, keys);
    } else {
      plain, aware, parts := new Block<V>[0], new Block<V>[0], Err(SubtreeReadoutOverflow(0, 0, 0));
    }
  }


  // ---- Batches ---------------------------------------------------------------------------------------------------

  /** The updates one at a time, all of them real. */
  method AppendEach<V(!new)>(h: ObliviousHistogram<V>, updates: seq<Update<V>>) returns (ok: bool)
    requires h.Valid() && forall i :: 0 <= i < |updates| ==> updates[i].isReal
    modifies h, h.physicalMemory, h.stash, h.stash.blocks
    ensures ok ==> h.Valid() && fresh(h.Footprint() - old(h.Footprint()))
    ensures ok ==>
              Absorbed(h.cfg.values, old(h.physicalMemory[..]), old(h.stash.blocks[..]), h.physicalMemory[..],
                       h.stash.blocks[..], updates)
    ensures ok ==> h.Now() == AppendedMany(old(h.Now()), |updates|, h.cfg.a, h.evictions)
    ensures old(h.RoomFor(|updates|)) ==> ok
  {
    hide Lawful, WellFormed, Absorbed, Appended, AppendedMany, CanAppend, EvictDue, Inserted, Ticking, GrowsAlone, Load,
         AppendStep;
    ghost var mem, stash, c := h.physicalMemory[..], h.stash.blocks[..], h.Now();
    NothingAbsorbed(h.cfg.values, mem, stash);
    NoneAppended(c, h.cfg.a, h.evictions);
    assert updates[..0] == [];
    for i := 0 to |updates|
      invariant h.Valid() && fresh(h.Footprint() - old(h.Footprint()))
      invariant Absorbed(h.cfg.values, mem, stash, h.physicalMemory[..], h.stash.blocks[..], updates[..i])
      invariant h.Now() == AppendedMany(c, i, h.cfg.a, h.evictions)
      invariant h.Held() <= old(h.Held()) + i
      invariant GrowsAlone(h.autoResize) == old(GrowsAlone(h.autoResize))
      invariant !GrowsAlone(h.autoResize) ==> h.height == old(h.height)
    {
      AppendedHeight(c, i, h.cfg.a, h.evictions);
      ghost var mem1, stash1, c1 := h.physicalMemory[..], h.stash.blocks[..], h.Now();
      var u := updates[i];
      ok := h.AppendPrepared(u.tag, u.value, u.payload);
      if !ok {
        return;
      }
      assert u == Update(u.tag, u.value, u.payload, true);
      AbsorbedThen(h.cfg.values, mem, stash, mem1, stash1, h.physicalMemory[..], h.stash.blocks[..], updates[..i], [u]);
      assert updates[..i] + [u] == updates[..i + 1];
      AppendedMany1(c1, h.cfg.a, h.evictions);
      ChunkJoins(c, i, 1, h.cfg.a, c1.evictions, h.evictions);
    }
    assert updates[..|updates|] == updates;
    ok := true;
  }

  /** The two records of evictions agree on when the tree grew. */
  ghost predicate SameGrowth(one: seq<Eviction>, two: seq<Eviction>) {
    forall i: nat :: Grew(one, i) <==> Grew(two, i)
  }

  lemma NoneAppended(c: Counters, a: nat, record: seq<Eviction>)
    requires a >= 1 && Ticking(c)
    ensures AppendedMany(c, 0, a, record) == c
  {
  }

  lemma AppendedMany1(c: Counters, a: nat, record: seq<Eviction>)
    requires a >= 1 && Ticking(c)
    ensures AppendedMany(c, 1, a, record) == Appended(c, a, record)
  {
    hide Appended;
    assert AppendedMany(c, 0, a, record) == c;
  }

  /**
    A batch of real updates against the same updates one at a time, on histograms with equal
    counters and totals: with the same grow decisions the counters and the record of
    evictions end up equal, and so does every total.
   */
  method BatchAgainstEach<V(!new)>(h: ObliviousHistogram<V>, g: ObliviousHistogram<V>, updates: seq<Update<V>>)
      returns (ok: bool)
    requires h.Valid() && g.Valid() && h.Footprint() !! g.Footprint() && h.cfg == g.cfg && h.Now() == g.Now()
    requires forall i :: 0 <= i < |updates| ==> updates[i].isReal
    requires forall p :: h.SumOf(p) == g.SumOf(p)
    modifies h, h.physicalMemory, h.stash, h.stash.blocks, g, g.physicalMemory, g.stash, g.stash.blocks
    ensures ok ==> h.Valid() && g.Valid()
    ensures ok && SameGrowth(h.evictions, g.evictions) ==> h.Now() == g.Now()
    ensures ok ==> forall p :: h.SumOf(p) == g.SumOf(p)
    ensures old(h.RoomFor(|updates|)) && old(g.RoomFor(|updates|)) ==> ok
  {
    hide Lawful, WellFormed, StateTotal, Known, AppendedMany, SameGrowth, Absorbed, Ticking, Load, GrowsAlone,
         BatchStep, BatchStuck;
    ghost var c := h.Now();
    ghost var mh, sh, mg, sg := h.TreeSlots(), h.StashSlots(), g.TreeSlots(), g.StashSlots();
    forall p ensures StateTotal(h.cfg.values, mh, sh, p) == StateTotal(h.cfg.values, mg, sg, p) {
      assert h.SumOf(p) == g.SumOf(p);
    }
    ok := h.AppendPreparedMaskedBatch(updates);
    if !ok {
      return;
    }
    assert g.TreeSlots() == mg && g.StashSlots() == sg && g.Now() == c;
    ok := AppendEach(g, updates);
    if ok {
      SameSums(h.cfg.values, mh, sh, h.TreeSlots(), h.StashSlots(), mg, sg, g.TreeSlots(), g.StashSlots(), updates);
      if SameGrowth(h.evictions, g.evictions) {
        SameGrowthDecides(c, |updates|, h.cfg.a, h.evictions, g.evictions);
      }
    }
  }

  lemma SameGrowthDecides(c: Counters, n: nat, a: nat, one: seq<Eviction>, two: seq<Eviction>)
    requires a >= 1 && Ticking(c) && SameGrowth(one, two)
    ensures AppendedMany(c, n, a, one) == AppendedMany(c, n, a, two)
  {
    hide Ticking, Grew, AppendedMany;
    SameDecisions(c, n, a, one, two);
  }

  lemma SameSums<V(!new)>(m: Values<V>, mh: seq<Block<V>>, sh: seq<Block<V>>, mh': seq<Block<V>>, sh': seq<Block<V>>,
                          mg: seq<Block<V>>, sg: seq<Block<V>>, mg': seq<Block<V>>, sg': seq<Block<V>>,
                          us: seq<Update<V>>)
    requires Absorbed(m, mh, sh, mh', sh', us) && Absorbed(m, mg, sg, mg', sg', us)
    requires forall p :: StateTotal(m, mh, sh, p) == StateTotal(m, mg, sg, p)
    ensures forall p :: StateTotal(m, mh', sh', p) == StateTotal(m, mg', sg', p)
  {
    hide StateTotal, Known, UpdatesTotal;
  }
}
