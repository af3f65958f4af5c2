/**
  From frontends to shards, as sequences: what each shard receives from all frontends, and
  that together the shards receive what the frontends have routed.
 */
module Dispatch {
  import opened OddEvenMerge
  import opened Blocks
  import opened Tree
  import opened Stash
  import opened Access
  import opened Contents
  import opened Router
  import opened Readout
  import opened Partition
  import opened Frontend

  // ---- Columns ----------------------------------------------------------------------------------------

  /** What shard `s` receives from the first `n` frontends. */
  ghost function Column<V>(rs: seq<seq<Block<V>>>, q: nat, s: nat, n: nat): seq<Block<V>>
    requires n <= |rs|
  {
    if n == 0 then [] else Column(rs, q, s, n - 1) + InboxOf(rs[n - 1], q, s)
  }

  ghost function Columns<V>(rs: seq<seq<Block<V>>>, q: nat, shards: nat, n: nat): (cs: seq<seq<Block<V>>>)
    requires n <= |rs|
    ensures |cs| == shards
  {
    seq(shards, s requires 0 <= s < shards => Column(rs, q, s, n))
  }

  ghost function Cells<V>(r: seq<Block<V>>, q: nat, shards: nat): (cs: seq<seq<Block<V>>>)
    ensures |cs| == shards
  {
    seq(shards, s requires 0 <= s < shards => InboxOf(r, q, s))
  }

  lemma {:induction false} CellsFlat<V>(r: seq<Block<V>>, q: nat, shards: nat)
    requires Slots(shards, q) <= |r|
    ensures Flat(Cells(r, q, shards)) == r[..Slots(shards, q)]
  {
    hide Slots, Flat, InboxOf;
    SlotsNext(0, q);
    if shards == 0 {
      NothingFlat<Block<V>>();
      assert Cells(r, q, 0) == [];
    } else {
      SlotsNext(shards - 1, q);
      CellsFlat(r, q, shards - 1);
      InboxNext(r, q, shards);
      assert Cells(r, q, shards) == Cells(r, q, shards - 1) + [InboxOf(r, q, shards - 1)];
      FlatAppend(Cells(r, q, shards - 1), InboxOf(r, q, shards - 1));
    }
  }

  /** Joining two tables row by row. */
  lemma {:induction false} FlatJoin<T>(a: seq<seq<T>>, b: seq<seq<T>>, c: seq<seq<T>>)
    requires |a| == |b| == |c| && forall i :: 0 <= i < |a| ==> c[i] == a[i] + b[i]
    ensures multiset(Flat(c)) == multiset(Flat(a)) + multiset(Flat(b))
  {
    hide Flat;
    if a == [] {
      NothingFlat<T>();
    } else {
      var n := |a| - 1;
      FlatJoin(a[..n], b[..n], c[..n]);
      assert a == a[..n] + [a[n]] && b == b[..n] + [b[n]] && c == c[..n] + [c[n]];
      FlatAppend(a[..n], a[n]);
      FlatAppend(b[..n], b[n]);
      FlatAppend(c[..n], c[n]);
      Interleaved(Flat(c[..n]), Flat(a[..n]), Flat(b[..n]), a[n], b[n]);
    }
  }

  /** The shards together receive exactly what the frontends have routed. */
  lemma {:induction false} ColumnsPartition<V>(rs: seq<seq<Block<V>>>, q: nat, shards: nat, n: nat)
    requires n <= |rs| && forall f :: 0 <= f < |rs| ==> |rs[f]| == Slots(shards, q)
    ensures multiset(Flat(Columns(rs, q, shards, n))) == multiset(Flat(rs[..n]))
  {
    hide Slots, Flat, InboxOf;
    if n == 0 {
      NothingFlat<Block<V>>();
      EmptyFlat(Columns(rs, q, shards, 0));
      assert rs[..0] == [];
    } else {
      ColumnsPartition(rs, q, shards, n - 1);
      CellsFlat(rs[n - 1], q, shards);
      assert rs[n - 1][..Slots(shards, q)] == rs[n - 1];
      FlatJoin(Columns(rs, q, shards, n - 1), Cells(rs[n - 1], q, shards), Columns(rs, q, shards, n));
      assert rs[..n] == rs[..n - 1] + [rs[n - 1]];
      FlatAppend(rs[..n - 1], rs[n - 1]);
    }
  }

  lemma {:induction false} EmptyFlat<T>(ss: seq<seq<T>>)
    requires forall i :: 0 <= i < |ss| ==> ss[i] == []
    ensures Flat(ss) == []
  {
    if ss != [] { EmptyFlat(ss[..|ss| - 1]); }
  }

  /** Totals that go up shard by shard go up by the sum. */
  lemma {:induction false} FlatPlus<V(!new)>(m: Values<V>, a: seq<seq<Block<V>>>, b: seq<seq<Block<V>>>,
                                             c: seq<seq<Block<V>>>, p: Payload)
    requires Lawful(m) && |a| == |b| == |c|
    requires forall i :: 0 <= i < |a| ==> Total(m, c[i], p) == m.plus(Total(m, a[i], p), Total(m, b[i], p))
    ensures Total(m, Flat(c), p) == m.plus(Total(m, Flat(a), p), Total(m, Flat(b), p))
  {
    hide Lawful;
    if a == [] {
      Laws(m, m.zero, m.zero, m.zero);
    } else {
      hide Total;
      var n := |a| - 1;
      FlatPlus(m, a[..n], b[..n], c[..n], p);
      TotalConcat(m, Flat(a[..n]), a[n], p);
      TotalConcat(m, Flat(b[..n]), b[n], p);
      TotalConcat(m, Flat(c[..n]), c[n], p);
      FourWay(m, Total(m, Flat(a[..n]), p), Total(m, Flat(b[..n]), p), Total(m, a[n], p), Total(m, b[n], p));
    }
  }

  lemma FourWay<V(!new)>(m: Values<V>, a: V, b: V, c: V, d: V)
    requires Lawful(m)
    ensures m.plus(m.plus(a, b), m.plus(c, d)) == m.plus(m.plus(a, c), m.plus(b, d))
  {
    hide Lawful;
    Laws(m, m.plus(a, b), c, d);
    Laws(m, a, b, c);
    Laws(m, m.plus(a, c), b, d);
  }

  // ---- Blocks as updates ---------------------------------------------------------------------------------

  /** The updates a shard makes of a chunk. */
  function AsUpdates<V>(s: seq<Block<V>>): (us: seq<Update<V>>)
    ensures |us| == |s|
  {
    seq(|s|, i requires 0 <= i < |s| => Update(s[i].tag, s[i].value, s[i].payload, s[i].Real()))
  }

  lemma {:induction false} AsUpdatesTotal<V>(m: Values<V>, s: seq<Block<V>>, p: Payload)
    ensures UpdatesTotal(m, AsUpdates(s), p) == Total(m, s, p)
  {
    if s != [] {
      var n := |s| - 1;
      AsUpdatesTotal(m, s[..n], p);
      assert AsUpdates(s)[..n] == AsUpdates(s[..n]);
    }
  }

  lemma AsUpdatesKnown<V>(s: seq<Block<V>>, ids: Ids)
    ensures UpdatesKnown(AsUpdates(s), ids) <==> Known(s, ids)
  {
    var us := AsUpdates(s);
    assert forall i :: 0 <= i < |s| ==>
        (Effective(us[i]) <==> s[i].Real()) && us[i].tag == s[i].tag && us[i].payload == s[i].payload;
    if UpdatesKnown(us, ids) {
      forall i | 0 <= i < |s| && s[i].Real() ensures (s[i].tag, s[i].payload) in ids { assert Effective(us[i]); }
    }
  }

  // ---- Shards of keys -------------------------------------------------------------------------------------

  /** The tags that belong to shard `s`. */
  ghost function ShardIds(s: nat, shardCount: nat): Ids
    requires IsPowerOfTwo(shardCount)
  {
    iset id: (Tag, Payload) | ShardIndexForTag(id.0, shardCount) == s
  }

  /** A shard receives only blocks of its own, and only keys the batches had. */
  lemma {:induction false} ColumnKnown<V(!new)>(m: Values<V>, batches: seq<seq<Block<V>>>, rs: seq<seq<Block<V>>>,
                                                shardCount: nat, q: nat, s: nat, n: nat)
    requires IsPowerOfTwo(shardCount) && n <= |rs| == |batches| && s < shardCount
    requires forall f :: 0 <= f < |rs| ==>
              Routed(SubBatch(m, batches[f], shardCount), rs[f], ShardOf(shardCount), shardCount, q)
    ensures Known(Column(rs, q, s, n), ShardIds(s, shardCount))
    ensures forall ids :: (forall f :: 0 <= f < |rs| ==> Known(batches[f], ids)) ==> Known(Column(rs, q, s, n), ids)
  {
    hide IsPowerOfTwo, Routed, Known, SubBatch, InboxOf, ShardIds;
    if n == 0 {
      NothingKnown<V>();
    } else {
      ColumnKnown(m, batches, rs, shardCount, q, s, n - 1);
      var r, cell := rs[n - 1], InboxOf(rs[n - 1], q, s);
      CellOfShard(SubBatch(m, batches[n - 1], shardCount), r, shardCount, q, s);
      KnownBoth(Column(rs, q, s, n - 1), cell, ShardIds(s, shardCount));
      forall ids | forall f :: 0 <= f < |rs| ==> Known(batches[f], ids) ensures Known(Column(rs, q, s, n), ids) {
        SubBatchKnown(m, batches[n - 1], shardCount, ids);
        CellKnown(SubBatch(m, batches[n - 1], shardCount), r, shardCount, q, s, ids);
        KnownBoth(Column(rs, q, s, n - 1), cell, ids);
      }
    }
  }

  lemma NothingKnown<V>()
    ensures forall ids :: Known<V>([], ids)
  {
  }

  lemma CellOfShard<V>(l: seq<Block<V>>, r: seq<Block<V>>, shardCount: nat, q: nat, s: nat)
    requires IsPowerOfTwo(shardCount) && s < shardCount && Routed(l, r, ShardOf(shardCount), shardCount, q)
    ensures Known(InboxOf(r, q, s), ShardIds(s, shardCount))
  {
    hide IsPowerOfTwo, InboxOf, Live, BinBlocks, ShardIndexForTag, Slots;
    assert RoutedBin(l, r, ShardOf(shardCount), q, s);
    InboxBlocks(l, r, ShardOf(shardCount), q, s);
    var cell := InboxOf(r, q, s);
    forall i | 0 <= i < |cell| && cell[i].Real() ensures (cell[i].tag, cell[i].payload) in ShardIds(s, shardCount) {
      assert cell[i] in cell;
      assert ShardOf(shardCount)(cell[i]) == s;
    }
  }

  lemma CellKnown<V>(l: seq<Block<V>>, r: seq<Block<V>>, shardCount: nat, q: nat, s: nat, ids: Ids)
    requires IsPowerOfTwo(shardCount) && s < shardCount && Routed(l, r, ShardOf(shardCount), shardCount, q)
    requires Known(l, ids)
    ensures Known(InboxOf(r, q, s), ids)
  {
    hide IsPowerOfTwo, BinBlocks, ShardIndexForTag, Slots, Live;
    assert RoutedBin(l, r, ShardOf(shardCount), q, s);
    RoutedIs(l, r, ShardOf(shardCount), shardCount, q);
    KnownLive(r, ids);
    var cell := InboxOf(r, q, s);
    forall i | 0 <= i < |cell| ensures cell[i] == r[Slots(s, q) + i] {}
  }

  // ---- A flush as a whole ----------------------------------------------------------------------------------

  /** The slices of a batch that the frontends take. */
  ghost function Slices<V>(batch: seq<Block<V>>, subN: nat, f: nat): (bs: seq<seq<Block<V>>>)
    ensures |bs| == f
  {
    Cells(batch, subN, f)
  }

  /** What the frontends route adds up to their slices of the batch. */
  lemma RoutedTotals<V(!new)>(m: Values<V>, batch: seq<Block<V>>, subN: nat, rs: seq<seq<Block<V>>>, shardCount: nat,
                              q: nat, p: Payload)
    requires Lawful(m) && IsPowerOfTwo(shardCount) && Slots(|rs|, subN) <= |batch|
    requires forall f :: 0 <= f < |rs| ==>
               Routed(SubBatch(m, Slices(batch, subN, |rs|)[f], shardCount), rs[f], ShardOf(shardCount), shardCount, q)
    ensures Total(m, Flat(Columns(rs, q, shardCount, |rs|)), p) == Total(m, batch[..Slots(|rs|, subN)], p)
  {
    hide Lawful, IsPowerOfTwo, Slots, Routed, SubBatch, Total, Columns, Flat;
    var bs := Slices(batch, subN, |rs|);
    forall f | 0 <= f < |rs| ensures Total(m, rs[f], p) == Total(m, bs[f], p) && |rs[f]| == Slots(shardCount, q) {
      RoutedIs(SubBatch(m, bs[f], shardCount), rs[f], ShardOf(shardCount), shardCount, q);
      SubBatchKeeps(m, bs[f], shardCount, p);
      TotalLive(m, rs[f], p);
    }
    FlatTotal(m, rs, bs, p);
    CellsFlat(batch, subN, |rs|);
    ColumnsPartition(rs, q, shardCount, |rs|);
    assert rs[..|rs|] == rs;
    TotalPermutes(m, Flat(Columns(rs, q, shardCount, |rs|)), Flat(rs), p);
  }
}
