/**
  The state behind automatic growth: the collision counts of the current period, the
  check against a noisy threshold, and the signals a deferred histogram leaves for its
  owner.  Noise, thresholds and period lengths come from functions that may be any.
 */
module Resize {
  import opened Arithmetic
  import opened Wrappers

  /** The random draws and the numerical parts of the decision. */
  datatype Oracle = Oracle(noise: nat -> int, initialK: (nat, nat) -> nat, epochUnits: (nat, nat, nat, nat) -> int)

  const MAX_WORD: nat := 0xFFFF_FFFF_FFFF_FFFF

  function SaturatingMul(a: nat, b: nat): nat { if a * b > MAX_WORD then MAX_WORD else a * b }

  /** `effective_t_capacity`. */
  function EffectiveCapacity(tCapacity: nat, z: nat): nat {
    SaturatingMul(tCapacity, if z / 4 < 1 then 1 else z / 4)
  }

  datatype AutoResize = AutoResize(tCapacity: nat, k: nat, tHatUnits: int, evictionsSinceCheck: nat, cSum: nat,
                                   totalResizes: nat, deferred: bool, emitsGrowSignal: bool, pendingGrow: Option<nat>,
                                   draws: nat)
  {
    function RecordEviction(matchingBlocks: nat): AutoResize {
      this.(cSum := cSum + matchingBlocks, evictionsSinceCheck := evictionsSinceCheck + 1)
    }

    predicate ShouldCheckEpoch() {
      (!emitsGrowSignal || pendingGrow.None?) && evictionsSinceCheck >= k
    }

    /** Starts a new period; the signal is given when the noisy count is over the threshold. */
    function EvaluateSignal(o: Oracle, z: nat): (AutoResize, Option<nat>) {
      var grow := cSum + o.noise(draws) > tHatUnits;
      (this.(cSum := 0, evictionsSinceCheck := 0, draws := draws + 1),
       if grow then Some(EffectiveCapacity(tCapacity, z)) else None)
    }

    function ResetCounters(): AutoResize {
      this.(cSum := 0, evictionsSinceCheck := 0, pendingGrow := None)
    }

    function OnTreeGrown(o: Oracle, z: nat, newHeight: nat): AutoResize {
      var t, l := SaturatingMul(tCapacity, 2), Pow2(newHeight);
      var k' := o.initialK(EffectiveCapacity(t, z), l);
      this.(totalResizes := totalResizes + 1, tCapacity := t, k := k',
            tHatUnits := o.epochUnits(EffectiveCapacity(t, z), l, k', draws), draws := draws + 1)
    }
  }

  /** `configure_auto_resize`, as far as the state goes. */
  function Configured(o: Oracle, tCapacity: nat, z: nat, height: nat, deferred: bool,
                      emitsGrowSignal: bool): AutoResize {
    var l := Pow2(height);
    var k := o.initialK(EffectiveCapacity(tCapacity, z), l);
    AutoResize(tCapacity, k, o.epochUnits(EffectiveCapacity(tCapacity, z), l, k, 0), 0, 0, 0, deferred, emitsGrowSignal,
               None, 1)
  }

  /** `check_and_maybe_resize_post_eviction` on the state, and whether the tree grows. */
  function Checked(auto: Option<AutoResize>, o: Oracle, z: nat, height: nat): (Option<AutoResize>, bool) {
    if auto.None? || !auto.value.ShouldCheckEpoch() then (auto, false)
    else
      var (next, signal) := auto.value.EvaluateSignal(o, z);
      if next.deferred then (Some(if next.emitsGrowSignal then next.(pendingGrow := signal) else next), false)
      else if signal.None? then (Some(next), false)
      else (Some(next.OnTreeGrown(o, z, height + 1)), true)
  }

  /** What an eviction does to the state, `matching` being its count, and whether the tree grows. */
  function AfterEviction(auto: Option<AutoResize>, matching: nat, o: Oracle, z: nat,
                         height: nat): (Option<AutoResize>, bool) {
    Checked(if auto.None? then None else Some(auto.value.RecordEviction(matching)), o, z, height)
  }

  ghost predicate GrowsAlone(auto: Option<AutoResize>) { auto.Some? && !auto.value.deferred }

  /** Whether a histogram grows by itself never changes, and only one that does ever grows on an eviction. */
  lemma AloneKept(auto: Option<AutoResize>, matching: nat, o: Oracle, z: nat, height: nat)
    ensures var (next, grew) := AfterEviction(auto, matching, o, z, height);
      GrowsAlone(next) == GrowsAlone(auto) && (grew ==> GrowsAlone(auto))
  {
  }

  // ---- Periods --------------------------------------------------------------------------------------------

  ghost function Sum(ms: seq<nat>): nat {
    if ms == [] then 0 else Sum(ms[..|ms| - 1]) + ms[|ms| - 1]
  }

  /** Some evictions later, `ms` being their counts, none of them having let the tree grow. */
  ghost function AfterAll(auto: AutoResize, ms: seq<nat>, o: Oracle, z: nat, height: nat): Option<AutoResize> {
    if ms == [] then Some(auto)
    else AfterEviction(AfterAll(auto, ms[..|ms| - 1], o, z, height), ms[|ms| - 1], o, z, height).0
  }

  /** Whether any of them would. */
  ghost predicate AnyGrew(auto: AutoResize, ms: seq<nat>, o: Oracle, z: nat, height: nat) {
    ms != []
    && (AnyGrew(auto, ms[..|ms| - 1], o, z, height)
        || AfterEviction(AfterAll(auto, ms[..|ms| - 1], o, z, height), ms[|ms| - 1], o, z, height).1)
  }

  /** A signal that has not been fetched yet. */
  predicate Waiting(auto: AutoResize) { auto.emitsGrowSignal && auto.pendingGrow.Some? }

  /** Up to the last eviction of a period, and as long as a signal waits, evictions are only counted. */
  lemma {:induction false} OnlyCounted(auto: AutoResize, ms: seq<nat>, o: Oracle, z: nat, height: nat)
    requires Waiting(auto) || auto.evictionsSinceCheck + |ms| < auto.k
    ensures !AnyGrew(auto, ms, o, z, height)
    ensures AfterAll(auto, ms, o, z, height)
         == Some(auto.(cSum := auto.cSum + Sum(ms), evictionsSinceCheck := auto.evictionsSinceCheck + |ms|))
  {
    if ms != [] { OnlyCounted(auto, ms[..|ms| - 1], o, z, height); }
  }

  /**
    The last eviction of a period decides by the matching blocks of the whole period, plus
    noise.  A deferred histogram then leaves a signal, if it is to give any, and one that grows
    by itself grows; either way a new period starts.
   */
  lemma PeriodEnds(auto: AutoResize, ms: seq<nat>, o: Oracle, z: nat, height: nat)
    requires !Waiting(auto) && ms != []
    requires auto.evictionsSinceCheck + |ms| == auto.k || (auto.evictionsSinceCheck >= auto.k && |ms| == 1)
    ensures var grow := auto.cSum + Sum(ms) + o.noise(auto.draws) > auto.tHatUnits;
      var capacity := auto.tCapacity * if z >= 8 then z / 4 else 1;
      var after := AfterAll(auto, ms, o, z, height);
      && after.Some? && after.value.cSum == 0 && after.value.evictionsSinceCheck == 0
      && (AnyGrew(auto, ms, o, z, height) <==> grow && !auto.deferred)
      && (auto.deferred && auto.emitsGrowSignal ==>
            (after.value.pendingGrow.Some? <==> grow)
            && (grow ==> after.value.pendingGrow.value == if capacity < 0x1_0000_0000_0000_0000 then capacity
                                                          else 0xFFFF_FFFF_FFFF_FFFF))
      && (!auto.deferred || !auto.emitsGrowSignal ==> after.value.pendingGrow == auto.pendingGrow)
  {
    var n := |ms| - 1;
    if n > 0 { OnlyCounted(auto, ms[..n], o, z, height); }
  }

  /** A growth leaves the period and threshold that configuring for the doubled target at the new height would. */
  lemma GrownAsConfigured(auto: AutoResize, o: Oracle, z: nat, height: nat)
    ensures var t := if auto.tCapacity <= MAX_WORD / 2 then 2 * auto.tCapacity else MAX_WORD;
      var anew := Configured(o, t, z, height, auto.deferred, auto.emitsGrowSignal);
      && auto.OnTreeGrown(o, z, height).k == anew.k
      && (auto.draws == 0 ==> auto.OnTreeGrown(o, z, height).tHatUnits == anew.tHatUnits)
  {
  }

  /** The target after some growths. */
  ghost function TargetAfter(auto: AutoResize, o: Oracle, z: nat, height: nat, n: nat): AutoResize {
    if n == 0 then auto else TargetAfter(auto, o, z, height, n - 1).OnTreeGrown(o, z, height + n)
  }

  /** Every growth doubles the target capacity, up to the largest word. */
  lemma {:induction false} TargetDoubles(auto: AutoResize, o: Oracle, z: nat, height: nat, n: nat)
    requires auto.tCapacity <= MAX_WORD
    ensures var r := TargetAfter(auto, o, z, height, n);
      && r.tCapacity == (if auto.tCapacity * Pow2(n) <= MAX_WORD then auto.tCapacity * Pow2(n) else MAX_WORD)
      && r.totalResizes == auto.totalResizes + n && r.draws == auto.draws + n
  {
    if n > 0 {
      TargetDoubles(auto, o, z, height, n - 1);
      Twice(auto.tCapacity, Pow2(n - 1));
    }
  }

  lemma Twice(t: nat, p: nat)
    ensures t * (2 * p) == 2 * (t * p)
  {
  }
}
