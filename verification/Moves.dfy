/**
  What the operations of a sharded histogram do to its shards, as relations between the
  states of each shard: taking the slots of a flush, growing, and being read.
 */
module Moves {
  import opened Arithmetic
  import opened Wrappers
  import opened Blocks
  import opened Routing
  import opened Tree
  import opened Stash
  import opened Capacity
  import opened Resize
  import opened Steps
  import opened Partition
  import opened Dispatch

  /**
    `Feed` is a flush of what the frontends have routed, `Rise` a growth, on request or on the
    coordinator's signal, and `Visit` a read for a key, the random draws being parameters.
   */
  datatype Move<V> =
    | Feed(rs: seq<seq<Block<V>>>, q: nat)
    | Rise(onSignal: bool)
    | Visit(target: nat, tag: Tag, payload: Payload, indices: nat -> nat)

  /** What the move makes of shard `s`. */
  ghost predicate Moved<V(!new)>(cfg: Config<V>, oracle: Oracle, move: Move<V>, s: nat, before: State<V>,
                                 after: State<V>)
  {
    match move
    case Feed(rs, q) => FeedRun(cfg, oracle, rs, q, s, |rs|, before, after)
    case Rise(onSignal) =>
      if onSignal then SignalStep(cfg, oracle, before, after) else GrowStep(cfg, oracle, before, after)
    case Visit(target, tag, payload, indices) =>
      var h := before.c.height;
      && Sane(cfg, before)
      && if s == target then PathStep(cfg, before, AddressToLeaf(tag, h), Some(payload), after)
         else PathStep(cfg, before, Pow2(h) + indices(s) % Pow2(h), None, after)
  }

  /** The frontends' slots for shard `s`, one frontend after the other. */
  ghost predicate FeedRun<V(!new)>(cfg: Config<V>, oracle: Oracle, rs: seq<seq<Block<V>>>, q: nat, s: nat, n: nat,
                                   before: State<V>, after: State<V>)
    requires n <= |rs|
    decreases n
  {
    if n == 0 then after == before
    else
      exists o: nat, s1: State<V> ::
        o + 1 == n && FeedRun(cfg, oracle, rs, q, s, o, before, s1) && NextFeed(cfg, oracle, rs, q, s, o, s1, after)
  }

  ghost predicate NextFeed<V(!new)>(cfg: Config<V>, oracle: Oracle, rs: seq<seq<Block<V>>>, q: nat, s: nat, f: nat,
                                    before: State<V>, after: State<V>)
    requires f < |rs|
  {
    BatchStep(cfg, oracle, before, AsUpdates(InboxOf(rs[f], q, s)), after)
  }

  lemma FeedStarts<V(!new)>(cfg: Config<V>, oracle: Oracle, rs: seq<seq<Block<V>>>, q: nat, s: nat, state: State<V>)
    ensures FeedRun(cfg, oracle, rs, q, s, 0, state, state)
  {
  }

  lemma FeedOn<V(!new)>(cfg: Config<V>, oracle: Oracle, rs: seq<seq<Block<V>>>, q: nat, s: nat, f: nat,
                        before: State<V>, s1: State<V>, after: State<V>)
    requires f < |rs| && FeedRun(cfg, oracle, rs, q, s, f, before, s1) && NextFeed(cfg, oracle, rs, q, s, f, s1, after)
    ensures FeedRun(cfg, oracle, rs, q, s, f + 1, before, after)
  {
    hide NextFeed;
  }

  /** A growth on the coordinator's signal: a new period, and one level more, without rewriting any path. */
  ghost predicate SignalStep<V>(cfg: Config<V>, oracle: Oracle, before: State<V>, after: State<V>) {
    && Sane(cfg, before) && before.c.height < MAX_TREE_HEIGHT
    && IsTaller(cfg, before, after,
                if before.auto.None? then None
                else Some(before.auto.value.ResetCounters().OnTreeGrown(oracle, cfg.z, before.c.height + 1)))
  }

  /** The move is made by every shard. */
  ghost predicate AllMoved<V(!new)>(cfg: Config<V>, oracles: seq<Oracle>, move: Move<V>, before: seq<State<V>>,
                                    after: seq<State<V>>)
  {
    && |oracles| == |before| == |after|
    && forall s :: 0 <= s < |before| ==> Moved(cfg, oracles[s], move, s, before[s], after[s])
  }

  /** The first shard has a signal for the coordinator. */
  ghost predicate SignalGiven<V>(states: seq<State<V>>) {
    states != [] && states[0].auto.Some? && states[0].auto.value.pendingGrow.Some?
  }

  ghost function SignalTaken<V>(states: seq<State<V>>): (r: seq<State<V>>)
    ensures |r| == |states| && (!SignalGiven(states) ==> r == states)
  {
    if SignalGiven(states) then states[0 := states[0].(auto := Some(states[0].auto.value.(pendingGrow := None)))]
    else states
  }

  /** The resize that may follow a flush: all shards grow exactly when there is a signal and resizing is on. */
  ghost predicate ResizeStep<V(!new)>(cfg: Config<V>, oracles: seq<Oracle>, resizing: bool, before: seq<State<V>>,
                                      grew: bool, after: seq<State<V>>)
  {
    && (grew <==> resizing && SignalGiven(before))
    && if grew then AllMoved(cfg, oracles, Rise(true), SignalTaken(before), after) else after == before
  }

  /** Each of several states has room for an access. */
  ghost predicate EachFits<V>(states: seq<State<V>>, room: nat) {
    forall s :: 0 <= s < |states| ==> Fits(states[s].mem, states[s].stash, [], room)
  }

  /** A flush advances every shard's append counter by its whole quota, however many updates are real. */
  lemma FeedCounts<V(!new)>(cfg: Config<V>, oracle: Oracle, rs: seq<seq<Block<V>>>, q: nat, s: nat, before: State<V>,
                            after: State<V>)
    requires Moved(cfg, oracle, Feed(rs, q), s, before, after)
    requires forall f :: 0 <= f < |rs| ==> Slots(s, q) + q <= |rs[f]|
    ensures after.c.appendCtr == before.c.appendCtr + Slots(|rs|, q)
  {
    FeedCounted(cfg, oracle, rs, q, s, |rs|, before, after);
  }

  lemma {:induction false} FeedCounted<V(!new)>(cfg: Config<V>, oracle: Oracle, rs: seq<seq<Block<V>>>, q: nat, s: nat,
                                                n: nat, before: State<V>, after: State<V>)
    requires n <= |rs| && FeedRun(cfg, oracle, rs, q, s, n, before, after)
    requires forall f :: 0 <= f < |rs| ==> Slots(s, q) + q <= |rs[f]|
    ensures after.c.appendCtr == before.c.appendCtr + Slots(n, q)
    decreases n
  {
    hide Slots, NextFeed, FeedRun;
    SlotsNext(0, q);
    if n == 0 {
      NoneFed(cfg, oracle, rs, q, s, before, after);
    } else {
      var s1 := LastFed(cfg, oracle, rs, q, s, n - 1, before, after);
      FeedCounted(cfg, oracle, rs, q, s, n - 1, before, s1);
      OneCounts(cfg, oracle, rs, q, s, n - 1, s1, after);
      SlotsNext(n - 1, q);
    }
  }

  lemma NoneFed<V(!new)>(cfg: Config<V>, oracle: Oracle, rs: seq<seq<Block<V>>>, q: nat, s: nat, before: State<V>,
                         after: State<V>)
    requires FeedRun(cfg, oracle, rs, q, s, 0, before, after)
    ensures after == before
  {
  }

  lemma LastFed<V(!new)>(cfg: Config<V>, oracle: Oracle, rs: seq<seq<Block<V>>>, q: nat, s: nat, f: nat,
                         before: State<V>, after: State<V>)
      returns (s1: State<V>)
    requires f < |rs| && FeedRun(cfg, oracle, rs, q, s, f + 1, before, after)
    ensures FeedRun(cfg, oracle, rs, q, s, f, before, s1) && NextFeed(cfg, oracle, rs, q, s, f, s1, after)
  {
    hide NextFeed;
    var o: nat;
    o, s1 :| o + 1 == f + 1 && FeedRun(cfg, oracle, rs, q, s, o, before, s1)
             && NextFeed(cfg, oracle, rs, q, s, o, s1, after);
  }

  lemma OneCounts<V(!new)>(cfg: Config<V>, oracle: Oracle, rs: seq<seq<Block<V>>>, q: nat, s: nat, f: nat,
                           before: State<V>, after: State<V>)
    requires f < |rs| && NextFeed(cfg, oracle, rs, q, s, f, before, after) && Slots(s, q) + q <= |rs[f]|
    ensures after.c.appendCtr == before.c.appendCtr + q
  {
    hide Slots, BatchTo;
    BatchCounts(cfg, oracle, before, AsUpdates(InboxOf(rs[f], q, s)), q, after);
  }
}
