/** Shift detection on rolling fits (waterflood_app/models/change_detect.py): two-sided CUSUM and the persistence test. */
module ChangeDetect {
  import opened Common

  // ---------------------------------------------------------------- the recursion

  /** One side of the CUSUM at step t: max(0, previous + x_t - k), starting from zero. */
  function OneSided(x: Vec, k: real, t: nat): real
    requires t < |x|
  {
    if t == 0 then 0.0 else Max(0.0, OneSided(x, k, t - 1) + x[t] - k)
  }

  /** Sum of x_u - k over s <= u <= t; empty when s > t. */
  function SuffixSum(x: Vec, k: real, s: nat, t: nat): real
    requires t < |x|
    decreases t
  {
    if s > t then 0.0
    else if t == 0 then x[0] - k
    else SuffixSum(x, k, s, t - 1) + x[t] - k
  }

  /** value is the larger of zero and the largest sum over a window that ends at t and starts after step 0. */
  ghost predicate IsLargestSuffix(value: real, x: Vec, k: real, t: nat)
    requires t < |x|
  {
    && (forall s: nat {:trigger SuffixSum(x, k, s, t)} :: 1 <= s <= t + 1 ==> SuffixSum(x, k, s, t) <= value)
    && exists s: nat {:trigger SuffixSum(x, k, s, t)} :: 1 <= s <= t + 1 && SuffixSum(x, k, s, t) == value
  }

  /** The recursion has a closed form. */
  lemma {:induction false} OneSidedIsLargest(x: Vec, k: real, t: nat)
    requires t < |x|
    ensures IsLargestSuffix(OneSided(x, k, t), x, k, t)
  {
    assert SuffixSum(x, k, t + 1, t) == 0.0;
    if t > 0 {
      OneSidedIsLargest(x, k, t - 1);
      var before := OneSided(x, k, t - 1);
      forall s: nat {:trigger SuffixSum(x, k, s, t)} | 1 <= s <= t + 1
        ensures SuffixSum(x, k, s, t) <= OneSided(x, k, t)
      {
        if s <= t {
          assert SuffixSum(x, k, s, t - 1) <= before;
        }
      }
      if before + x[t] - k >= 0.0 {
        var s: nat :| 1 <= s <= t && SuffixSum(x, k, s, t - 1) == before;
        assert SuffixSum(x, k, s, t) == OneSided(x, k, t);
      }
    }
  }

  function Negated(x: Vec): (y: Vec)
    ensures |y| == |x|
  {
    seq(|x|, u requires 0 <= u < |x| => -x[u])
  }

  /** Deviations from the first value in units of the scale. */
  function Deviations(series: Vec, scale: real): (x: Vec)
    requires |series| > 0
    ensures |x| == |series|
  {
    seq(|series|, u requires 0 <= u < |series| => (series[u] - series[0]) / Max(scale, 0.000000000001))
  }

  /** Back from deviations to the series. */
  lemma DeviationsBack(series: Vec, scale: real, u: nat)
    requires u < |series|
    ensures scale >= 0.000000000001 ==> series[0] + Times(Deviations(series, scale)[u], scale) == series[u]
    ensures scale < 0.000000000001 ==> series[0] + Times(Deviations(series, scale)[u], 0.000000000001) == series[u]
  {
    QuotientBack(series[u] - series[0], Max(scale, 0.000000000001));
  }

  lemma QuotientBack(a: real, b: real)
    requires b != 0.0
    ensures Times(a / b, b) == a
  {
  }

  /** The first n entries follow the recursion. */
  ghost predicate Follows(a: Vec, x: Vec, k: real, n: nat) {
    |a| == |x| && n <= |x| && forall u :: 0 <= u < n ==> a[u] == OneSided(x, k, u)
  }

  lemma FollowsStart(a: Vec, x: Vec, k: real)
    requires |a| == |x| > 0 && a[0] == 0.0
    ensures Follows(a, x, k, 1)
  {
  }

  lemma FollowsStep(a: Vec, x: Vec, k: real, t: nat, change: real)
    requires 0 < t < |x| && Follows(a, x, k, t) && change == x[t]
    ensures Follows(a[t := Max(0.0, a[t - 1] + change - k)], x, k, t + 1)
  {
    assert OneSided(x, k, t) == Max(0.0, OneSided(x, k, t - 1) + change - k);
  }

  /** Both sides at once: each entry is filled from the previous one. */
  method TwoSided(x: Vec, k: real) returns (up: Vec, dn: Vec)
    requires |x| > 0
    ensures Follows(up, x, k, |x|) && Follows(dn, Negated(x), k, |x|)
  {
    ghost var y := Negated(x);
    var a := new real[|x|](_ => 0.0);
    var b := new real[|x|](_ => 0.0);
    FollowsStart(a[..], x, k);
    FollowsStart(b[..], y, k);
    for t := 1 to |x|
      invariant Follows(a[..], x, k, t) && Follows(b[..], y, k, t)
    {
      FollowsStep(a[..], x, k, t, x[t]);
      FollowsStep(b[..], y, k, t, -x[t]);
      a[t] := Max(0.0, a[t - 1] + x[t] - k);
      b[t] := Max(0.0, b[t - 1] - x[t] - k);
    }
    up, dn := a[..], b[..];
  }

  ghost predicate AreLargest(a: Vec, x: Vec, k: real) {
    |a| == |x| && forall t :: 0 <= t < |x| ==> IsLargestSuffix(a[t], x, k, t)
  }

  lemma RecursionIsLargest(a: Vec, x: Vec, k: real)
    requires Follows(a, x, k, |x|)
    ensures AreLargest(a, x, k)
  {
    forall t | 0 <= t < |x|
      ensures IsLargestSuffix(a[t], x, k, t)
    {
      OneSidedIsLargest(x, k, t);
    }
  }

  /** The CUSUM of a series: each entry is the largest sum of deviations over a window that ends there. */
  method Cusum(series: Vec, scale: real, k: real) returns (up: Vec, dn: Vec)
    requires |series| > 0
    ensures AreLargest(up, Deviations(series, scale), k)
    ensures AreLargest(dn, Negated(Deviations(series, scale)), k)
  {
    var x := Deviations(series, scale);
    up, dn := TwoSided(x, k);
    RecursionIsLargest(up, x, k);
    RecursionIsLargest(dn, Negated(x), k);
  }

  // ---------------------------------------------------------------- the persistence test

  /** Where the slice of the last n points begins; a slice of no points is the whole series. */
  function LastFrom(length: nat, n: nat): nat {
    if n == 0 || n > length then 0 else length - n
  }

  predicate Persists(a: Vec, threshold: real, n: nat) {
    forall t :: LastFrom(|a|, n) <= t < |a| ==> a[t] > threshold
  }

  /** A window that ends at t sums to more than the threshold. */
  ghost predicate HasWindow(x: Vec, k: real, threshold: real, t: nat)
    requires t < |x|
  {
    exists s: nat {:trigger SuffixSum(x, k, s, t)} :: 1 <= s <= t && SuffixSum(x, k, s, t) > threshold
  }

  lemma AboveIff(value: real, x: Vec, k: real, threshold: real, t: nat)
    requires t < |x| && IsLargestSuffix(value, x, k, t) && threshold >= 0.0
    ensures value > threshold <==> HasWindow(x, k, threshold, t)
  {
    if value > threshold {
      var s: nat :| 1 <= s <= t + 1 && SuffixSum(x, k, s, t) == value;
      assert s <= t;
    }
  }

  /** Point t is one of the last n; a count of none means all of them. */
  predicate AmongLast(length: nat, n: nat, t: nat) {
    t < length && (n == 0 || t + n >= length)
  }

  lemma LastFromIff(length: nat, n: nat, t: nat)
    ensures AmongLast(length, n, t) <==> LastFrom(length, n) <= t < length
  {
  }

  /** The test holds exactly when every one of the last n points ends such a window. */
  lemma PersistsIff(a: Vec, x: Vec, k: real, threshold: real, n: nat)
    requires AreLargest(a, x, k) && threshold >= 0.0
    ensures Persists(a, threshold, n) <==> forall t: nat :: AmongLast(|x|, n, t) ==> HasWindow(x, k, threshold, t)
  {
    forall t: nat | t < |x|
      ensures a[t] > threshold <==> HasWindow(x, k, threshold, t)
      ensures AmongLast(|x|, n, t) <==> LastFrom(|x|, n) <= t
    {
      AboveIff(a[t], x, k, threshold, t);
      LastFromIff(|x|, n, t);
    }
  }

  /** First point above the threshold, or 0 when there is none. */
  method FirstHit(a: Vec, threshold: real) returns (t: nat)
    ensures t < |a| || (t == 0 && a == [])
    ensures (exists u :: 0 <= u < |a| && a[u] > threshold) ==> t < |a| && a[t] > threshold
    ensures forall u :: 0 <= u < t ==> a[u] <= threshold
    ensures (forall u :: 0 <= u < |a| ==> a[u] <= threshold) ==> t == 0
  {
    t := 0;
    while t < |a| && a[t] <= threshold
      invariant t <= |a| && forall u :: 0 <= u < t ==> a[u] <= threshold
    {
      t := t + 1;
    }
    if t == |a| {
      t := 0;
    }
  }

  // ---------------------------------------------------------------- one series

  const DRIFT := 0.5
  const MAGNITUDE := 0.25

  datatype Verdict = Verdict(up: bool, since: nat, magnitude: real)

  function Ratios(series: Vec, ref: real): (r: Vec)
    requires ref != 0.0
    ensures |r| == |series|
  {
    seq(|series|, u requires 0 <= u < |series| => series[u] / ref)
  }

  lemma RatiosBack(series: Vec, ref: real, u: nat)
    requires ref != 0.0 && u < |series|
    ensures Times(Ratios(series, ref)[u], ref) == series[u]
  {
    QuotientBack(series[u], ref);
  }

  /** All of the last n points end a window of deviations above the threshold. */
  ghost predicate Shifted(x: Vec, threshold: real, n: nat) {
    forall t: nat :: AmongLast(|x|, n, t) ==> HasWindow(x, 0.5, threshold, t)
  }

  /** since is the first point that ends such a window. */
  ghost predicate IsOnset(x: Vec, threshold: real, since: nat) {
    && since < |x| && HasWindow(x, 0.5, threshold, since)
    && forall t: nat :: t < since ==> !HasWindow(x, 0.5, threshold, t)
  }

  /** Upward shifts are looked for first; a shift has to agree in sign with the change of the series itself. */
  method Judge(series: Vec, ref: real, spread: real, threshold: real, n: nat) returns (r: Option<Verdict>)
    requires |series| > 0 && ref != 0.0 && threshold >= 0.0
    ensures var x := Deviations(Ratios(series, ref), spread);
            var change := series[|series| - 1] / ref - 1.0;
            && (r.Some? <==> (Shifted(x, threshold, n) && change >= 0.25)
                             || (Shifted(Negated(x), threshold, n) && change <= -0.25))
            && (r.Some? ==>
                  && r.value.magnitude == change && (r.value.up <==> change >= 0.25)
                  && IsOnset(if r.value.up then x else Negated(x), threshold, r.value.since))
  {
    var ratios := Ratios(series, ref);
    var up, dn := Cusum(ratios, spread, DRIFT);
    ghost var x := Deviations(ratios, spread);
    PersistsIff(up, x, DRIFT, threshold, n);
    PersistsIff(dn, Negated(x), DRIFT, threshold, n);
    var change := series[|series| - 1] / ref - 1.0;
    var last := |series| - 1;
    if Persists(up, threshold, n) && change >= MAGNITUDE {
      assert up[last] > threshold;
      var since := FirstHit(up, threshold);
      Onset(up, x, threshold, since);
      return Some(Verdict(true, since, change));
    }
    if Persists(dn, threshold, n) && change <= -MAGNITUDE {
      assert dn[last] > threshold;
      var since := FirstHit(dn, threshold);
      Onset(dn, Negated(x), threshold, since);
      return Some(Verdict(false, since, change));
    }
    r := None;
  }

  lemma Onset(a: Vec, x: Vec, threshold: real, since: nat)
    requires AreLargest(a, x, DRIFT) && threshold >= 0.0
    requires since < |a| && a[since] > threshold && forall t :: 0 <= t < since ==> a[t] <= threshold
    ensures IsOnset(x, threshold, since)
  {
    AboveIff(a[since], x, DRIFT, threshold, since);
    forall t: nat | t < since
      ensures !HasWindow(x, DRIFT, threshold, t)
    {
      AboveIff(a[t], x, DRIFT, threshold, t);
    }
  }
}
