/**
  Comparator networks: the fixed sequences of compare-exchange steps that the
  sorting and merging routines perform.  A network is a value, so that "the same
  comparisons in another order" and "restricted to some wires" can be stated.
 */
module Networks {

  /** `One(i, j)` leaves the smaller of the two wires on `i` and the larger on `j`. */
  datatype Network =
    | Empty
    | One(i: nat, j: nat)
    | Then(first: Network, second: Network)

  ghost predicate Fits(net: Network, n: nat) {
    match net
    case Empty => true
    case One(i, j) => i < n && j < n && i != j
    case Then(a, b) => Fits(a, n) && Fits(b, n)
  }

  ghost predicate Touches(net: Network, w: nat) {
    match net
    case Empty => false
    case One(i, j) => w == i || w == j
    case Then(a, b) => Touches(a, w) || Touches(b, w)
  }

  function Exchange<T>(s: seq<T>, i: nat, j: nat, gt: (T, T) -> bool): (r: seq<T>)
    requires i < |s| && j < |s|
    ensures |r| == |s|
  {
    if gt(s[i], s[j]) then s[i := s[j]][j := s[i]] else s
  }

  ghost function Run<T>(net: Network, s: seq<T>, gt: (T, T) -> bool): (r: seq<T>)
    requires Fits(net, |s|)
    ensures |r| == |s|
  {
    match net
    case Empty => s
    case One(i, j) => Exchange(s, i, j, gt)
    case Then(a, b) => Run(b, Run(a, s, gt), gt)
  }

  lemma RunStep<T>(step: Network, s: seq<T>, gt: (T, T) -> bool)
    requires Fits(step, |s|) && !step.Then?
    ensures step.Empty? ==> Run(step, s, gt) == s
    ensures step.One? ==> Run(step, s, gt) == Exchange(s, step.i, step.j, gt)
  {
  }

  // ---- What every network preserves ------------------------------------------

  /** A network only moves elements: nothing is lost, duplicated or invented. */
  lemma {:induction false} RunPermutes<T>(net: Network, s: seq<T>, gt: (T, T) -> bool)
    requires Fits(net, |s|)
    ensures multiset(Run(net, s, gt)) == multiset(s)
  {
    match net
    case Empty =>
    case One(i, j) =>
    case Then(a, b) =>
      RunPermutes(a, s, gt);
      RunPermutes(b, Run(a, s, gt), gt);
  }

  /** A wire that no comparator of the network touches keeps its element. */
  lemma {:induction false} RunFrame<T>(net: Network, s: seq<T>, gt: (T, T) -> bool, w: nat)
    requires Fits(net, |s|) && w < |s| && !Touches(net, w)
    ensures Run(net, s, gt)[w] == s[w]
  {
    match net
    case Empty =>
    case One(i, j) =>
    case Then(a, b) =>
      RunFrame(a, s, gt, w);
      RunFrame(b, Run(a, s, gt), gt, w);
  }

  // ---- Reordering -------------------------------------------------------------

  /** A comparator may be moved past a whole network that shares no wire with it. */
  lemma {:induction false} CommuteOne<T>(i: nat, j: nat, net: Network, s: seq<T>, gt: (T, T) -> bool)
    requires Fits(net, |s|) && Fits(One(i, j), |s|)
    requires !Touches(net, i) && !Touches(net, j)
    ensures Run(Then(One(i, j), net), s, gt) == Run(Then(net, One(i, j)), s, gt)
  {
    match net
    case Empty =>
    case One(k, l) =>
      assert Run(Then(One(i, j), net), s, gt) == Run(Then(net, One(i, j)), s, gt);
    case Then(a, b) =>
      CommuteOne(i, j, a, s, gt);
      CommuteOne(i, j, b, Run(a, s, gt), gt);
  }

  ghost predicate DisjointOne(step: Network, net: Network) {
    step.One? && !Touches(net, step.i) && !Touches(net, step.j)
  }

  /** The same for a step that may be absent. */
  lemma CommuteStep<T>(step: Network, net: Network, s: seq<T>, gt: (T, T) -> bool)
    requires Fits(net, |s|) && Fits(step, |s|)
    requires step.Empty? || DisjointOne(step, net)
    ensures Run(net, Run(step, s, gt), gt) == Run(step, Run(net, s, gt), gt)
  {
    if step.One? { CommuteOne(step.i, step.j, net, s, gt); }
  }

  // ---- The 0-1 principle ------------------------------------------------------

  /** `gt` is the strict part of a total preorder. */
  ghost predicate TotalPreorder<T(!new)>(gt: (T, T) -> bool) {
    && (forall a, b :: gt(a, b) ==> !gt(b, a))
    && (forall a, b, c {:trigger gt(a, b), gt(b, c)} {:trigger gt(a, c), gt(a, b)} {:trigger gt(a, c), gt(b, c)} ::
          gt(a, c) ==> gt(a, b) || gt(b, c))
  }

  ghost predicate Sorted<T>(s: seq<T>, gt: (T, T) -> bool) {
    forall i, j :: 0 <= i < j < |s| ==> !gt(s[i], s[j])
  }

  predicate BitGt(a: bool, b: bool) { a && !b }

  /** The image of `s` under the threshold `x > t`. */
  ghost function Above<T>(s: seq<T>, t: T, gt: (T, T) -> bool): (r: seq<bool>)
    ensures |r| == |s| && forall k :: 0 <= k < |s| ==> r[k] == gt(s[k], t)
  {
    seq(|s|, k requires 0 <= k < |s| => gt(s[k], t))
  }

  /** Compare-exchange commutes with every threshold, so whole networks do. */
  lemma {:induction false} ThresholdCommutes<T(!new)>(net: Network, s: seq<T>, t: T, gt: (T, T) -> bool)
    requires TotalPreorder(gt) && Fits(net, |s|)
    ensures Above(Run(net, s, gt), t, gt) == Run(net, Above(s, t, gt), BitGt)
  {
    match net
    case Empty =>
    case One(i, j) =>
      var x, y := s[i], s[j];
      assert gt(x, t) ==> gt(x, y) || gt(y, t);
      assert gt(x, y) && gt(y, t) ==> gt(x, t);
    case Then(a, b) =>
      ThresholdCommutes(a, s, t, gt);
      ThresholdCommutes(b, Run(a, s, gt), t, gt);
  }

  /** The 0-1 principle: a result all of whose thresholds are sorted is sorted. */
  lemma ZeroOne<T(!new)>(s: seq<T>, gt: (T, T) -> bool)
    requires TotalPreorder(gt)
    requires forall t :: Sorted(Above(s, t, gt), BitGt)
    ensures Sorted(s, gt)
  {
    forall i, j | 0 <= i < j < |s| ensures !gt(s[i], s[j]) {
      var bits := Above(s, s[j], gt);
      assert Sorted(bits, BitGt);
      assert !BitGt(bits[i], bits[j]);
    }
  }
}
