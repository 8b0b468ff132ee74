/** Weekly ramps from current to target rates (waterflood_app/optimize/ramping.py). */
module Ramping {
  import opened Common

  /** Configuration of one ramp: step per week, smallest change acted on, meter resolution, facility overrides. */
  datatype Settings = Settings(step: real, minFrac: real, resolution: real, facility: Option<map<nat, real>>) {
    function Frac(k: nat): real {
      if facility.Some? && k in facility.value then facility.value[k] else step
    }

    /** What the configuration has to be for the ramp to make sense. */
    ghost predicate Sound() {
      minFrac >= 0.0 && forall k: nat :: 0.0 <= Frac(k) <= 1.0
    }
  }

  const TINY := 0.000000001
  const RELATIVE := 0.00001
  const MAX_WEEKS := 520

  /** A change too small to act on. */
  predicate Small(s: Settings, current: real, target: real) {
    Abs(target - current) < s.minFrac * Max(current, TINY) || Abs(target - current) < s.resolution
  }

  /** The size from which a change is acted on. */
  function Threshold(s: Settings, current: real): (limit: real)
    ensures limit >= s.resolution && limit >= s.minFrac * Max(current, 0.000000001)
    ensures limit == s.resolution || limit == s.minFrac * Max(current, 0.000000001)
  {
    Max(s.minFrac * Max(current, TINY), s.resolution)
  }

  /** The largest move of one week; a well starting from zero ramps against its target. */
  function Cap(frac: real, minFrac: real, x: real, t: real): real {
    Times(frac, Max(x, Times(minFrac, Max(t, TINY))))
  }

  function NextRate(frac: real, minFrac: real, x: real, t: real): real {
    x + Clip(t - x, -Cap(frac, minFrac, x, t), Cap(frac, minFrac, x, t))
  }

  /** The rate after n weeks. */
  function RateAfter(frac: real, minFrac: real, x: real, t: real, n: nat): real {
    if n == 0 then x else NextRate(frac, minFrac, RateAfter(frac, minFrac, x, t, n - 1), t)
  }

  /** numpy.allclose with atol 1e-9 and its default relative tolerance. */
  predicate Close(x: real, t: real) {
    Abs(x - t) <= TINY + RELATIVE * Abs(t)
  }

  /** Within 1e-9 plus 1e-5 of the target's size, above or below. */
  lemma CloseIff(x: real, t: real)
    ensures Close(x, t) <==>
            var slack := 0.000000001 + 0.00001 * (if t < 0.0 then -t else t);
            t - slack <= x <= t + slack
  {
  }

  function RatesAfter(s: Settings, current: Vec, target: Vec, n: nat): (x: Vec)
    requires |current| == |target|
    ensures |x| == |current|
  {
    seq(|current|, k requires 0 <= k < |current| => RateAfter(s.Frac(k), s.minFrac, current[k], target[k], n))
  }

  predicate AllClose(x: Vec, t: Vec)
    requires |x| == |t|
  {
    forall k :: 0 <= k < |x| ==> Close(x[k], t[k])
  }

  /** The first week at which every well is close. */
  ghost predicate Breaks(s: Settings, current: Vec, target: Vec, weeks: nat)
    requires |current| == |target|
  {
    && AllClose(RatesAfter(s, current, target, weeks), target)
    && forall w: nat {:trigger RatesAfter(s, current, target, w)} :: w < weeks ==>
         !AllClose(RatesAfter(s, current, target, w), target)
  }

  /** All wells move by one week. */
  method OneWeek(s: Settings, x: Vec, target: Vec) returns (next: Vec)
    requires |x| == |target|
    ensures |next| == |x|
    ensures forall k :: 0 <= k < |x| ==> next[k] == NextRate(s.Frac(k), s.minFrac, x[k], target[k])
  {
    next := x;
    for k := 0 to |x|
      invariant |next| == |x|
      invariant forall i :: 0 <= i < |x| ==>
        next[i] == if i < k then NextRate(s.Frac(i), s.minFrac, x[i], target[i]) else x[i]
    {
      next := next[k := NextRate(s.Frac(k), s.minFrac, x[k], target[k])];
    }
  }

  /** Wells without an override move by the common step, the others by their own. */
  lemma StepOfWell(s: Settings, current: Vec, target: Vec, n: nat, k: nat)
    requires |current| == |target| && k < |current|
    ensures s.facility.None? || k !in s.facility.value ==>
      RatesAfter(s, current, target, n)[k] == RateAfter(s.step, s.minFrac, current[k], target[k], n)
    ensures s.facility.Some? && k in s.facility.value ==>
      RatesAfter(s, current, target, n)[k] == RateAfter(s.facility.value[k], s.minFrac, current[k], target[k], n)
  {
  }

  lemma NextWeekIs(s: Settings, current: Vec, target: Vec, n: nat, x: Vec, next: Vec)
    requires |current| == |target| == |next| && x == RatesAfter(s, current, target, n)
    requires forall k :: 0 <= k < |x| ==> next[k] == NextRate(s.Frac(k), s.minFrac, x[k], target[k])
    ensures next == RatesAfter(s, current, target, n + 1)
  {
  }

  lemma WeekZero(s: Settings, current: Vec, target: Vec)
    requires |current| == |target|
    ensures RatesAfter(s, current, target, 0) == current
  {
  }

  /** Every week so far has its rates, and none of them began close to the targets. */
  ghost predicate AreWeeks(s: Settings, current: Vec, target: Vec, weekly: seq<Vec>)
    requires |current| == |target|
  {
    && (forall w :: 0 <= w < |weekly| ==> weekly[w] == RatesAfter(s, current, target, w + 1))
    && forall w :: 0 <= w < |weekly| ==> !AllClose(RatesAfter(s, current, target, w), target)
  }

  lemma OneWeekOn(s: Settings, current: Vec, target: Vec, weekly: seq<Vec>, x: Vec, next: Vec)
    requires |current| == |target| == |next| && AreWeeks(s, current, target, weekly)
    requires x == RatesAfter(s, current, target, |weekly|) && !AllClose(x, target)
    requires forall k :: 0 <= k < |x| ==> next[k] == NextRate(s.Frac(k), s.minFrac, x[k], target[k])
    ensures next == RatesAfter(s, current, target, |weekly| + 1) && AreWeeks(s, current, target, weekly + [next])
  {
    NextWeekIs(s, current, target, |weekly|, x, next);
  }

  /** The weekly loop: week by week until all wells are close, at most to the cap. */
  method Weeks(s: Settings, current: Vec, target: Vec) returns (weekly: seq<Vec>)
    requires |current| == |target|
    ensures |weekly| <= MAX_WEEKS
    ensures forall w :: 0 <= w < |weekly| ==> weekly[w] == RatesAfter(s, current, target, w + 1)
    ensures forall w :: 0 <= w < |weekly| ==> !AllClose(RatesAfter(s, current, target, w), target)
    ensures |weekly| < MAX_WEEKS ==> Breaks(s, current, target, |weekly|)
  {
    weekly := [];
    var x := current;
    WeekZero(s, current, target);
    while |weekly| < MAX_WEEKS
      invariant |weekly| <= MAX_WEEKS && x == RatesAfter(s, current, target, |weekly|)
      invariant AreWeeks(s, current, target, weekly)
      decreases MAX_WEEKS - |weekly|
    {
      if AllClose(x, target) {
        break;
      }
      var next := OneWeek(s, x, target);
      OneWeekOn(s, current, target, weekly, x, next);
      weekly := weekly + [next];
      x := next;
    }
  }

  /** Targets with the small changes undone, and the rates of every week until all wells are close to them. */
  method Ramp(s: Settings, current: Vec, wanted: Vec) returns (target: Vec, weekly: seq<Vec>, suppressed: seq<bool>)
    requires |current| == |wanted|
    ensures |target| == |suppressed| == |current|
    ensures forall k :: 0 <= k < |current| ==>
      suppressed[k] == Small(s, current[k], wanted[k]) && target[k] == if suppressed[k] then current[k] else wanted[k]
    ensures forall k :: 0 <= k < |current| ==>
      (suppressed[k] <==> -Threshold(s, current[k]) < wanted[k] - current[k] < Threshold(s, current[k]))
    ensures |weekly| <= 520
    ensures forall w :: 0 <= w < |weekly| ==> weekly[w] == RatesAfter(s, current, target, w + 1)
    ensures forall w :: 0 <= w < |weekly| ==> !AllClose(RatesAfter(s, current, target, w), target)
    ensures |weekly| < 520 ==> Breaks(s, current, target, |weekly|)
  {
    suppressed := seq(|current|, k requires 0 <= k < |current| => Small(s, current[k], wanted[k]));
    target := seq(|current|, k requires 0 <= k < |current| => if suppressed[k] then current[k] else wanted[k]);
    weekly := Weeks(s, current, target);
  }

  // ---------------------------------------------------------------- one week

  lemma CapNonNegative(frac: real, minFrac: real, x: real, t: real)
    requires frac >= 0.0 && minFrac >= 0.0
    ensures Cap(frac, minFrac, x, t) >= 0.0
    ensures Cap(frac, minFrac, x, t) >= Times(frac, x)
    ensures Cap(frac, minFrac, x, t) >= Times(frac, Times(minFrac, Max(t, TINY)))
  {
    var floor := Times(minFrac, Max(t, TINY));
    MulNonNegative(minFrac, Max(t, TINY), floor);
    var top := Max(x, floor);
    MulNonNegative(frac, top, Times(frac, top));
    TimesMonotone(frac, x, top);
    TimesMonotone(frac, floor, top);
  }

  lemma TimesMonotone(a: real, b: real, c: real)
    requires a >= 0.0 && b <= c
    ensures Times(a, b) <= Times(a, c)
  {
    MulNonNegative(a, c - b, a * (c - b));
  }

  /** A week moves towards the target, never past it, and by at most the cap. */
  lemma WeekBounds(frac: real, minFrac: real, x: real, t: real)
    requires frac >= 0.0 && minFrac >= 0.0
    ensures var y := NextRate(frac, minFrac, x, t);
            && (x <= t ==> x <= y <= t) && (x >= t ==> t <= y <= x)
            && Abs(y - x) <= Cap(frac, minFrac, x, t)
            && (y == t || Abs(y - x) == Cap(frac, minFrac, x, t))
  {
    CapNonNegative(frac, minFrac, x, t);
  }

  // ---------------------------------------------------------------- whole ramps

  /** Monotone towards the target, without overshoot, from any week to any later one. */
  lemma {:induction false} RampIsMonotone(frac: real, minFrac: real, x: real, t: real, n: nat, m: nat)
    requires frac >= 0.0 && minFrac >= 0.0 && n <= m
    ensures x <= t ==> x <= RateAfter(frac, minFrac, x, t, n) <= RateAfter(frac, minFrac, x, t, m) <= t
    ensures x >= t ==> t <= RateAfter(frac, minFrac, x, t, m) <= RateAfter(frac, minFrac, x, t, n) <= x
  {
    if m > 0 {
      RampIsMonotone(frac, minFrac, x, t, if n == m then m - 1 else n, m - 1);
      WeekBounds(frac, minFrac, RateAfter(frac, minFrac, x, t, m - 1), t);
    }
  }

  /** A well whose change is suppressed never moves. */
  lemma {:induction false} SuppressedStays(frac: real, minFrac: real, x: real, n: nat)
    requires frac >= 0.0 && minFrac >= 0.0
    ensures RateAfter(frac, minFrac, x, x, n) == x
  {
    RampIsMonotone(frac, minFrac, x, x, 0, n);
  }

  /** An increase gains at least the floor move every week until it arrives. */
  lemma {:induction false} IncreaseGains(frac: real, minFrac: real, x: real, t: real, n: nat)
    requires frac >= 0.0 && minFrac >= 0.0 && x <= t
    ensures var gain := Times(frac, Times(minFrac, Max(t, TINY)));
            RateAfter(frac, minFrac, x, t, n) == t || RateAfter(frac, minFrac, x, t, n) >= x + Times(n as real, gain)
  {
    var gain := Times(frac, Times(minFrac, Max(t, TINY)));
    if n > 0 {
      IncreaseGains(frac, minFrac, x, t, n - 1);
      var y := RateAfter(frac, minFrac, x, t, n - 1);
      RampIsMonotone(frac, minFrac, x, t, 0, n - 1);
      WeekBounds(frac, minFrac, y, t);
      CapNonNegative(frac, minFrac, y, t);
      OneMore(n, gain);
    }
  }

  lemma OneMore(n: nat, gain: real)
    requires n > 0
    ensures Times(n as real, gain) == Times((n - 1) as real, gain) + gain
  {
  }

  lemma FullGain(n: real, frac: real, minFrac: real, top: real)
    requires Times(Times(n, frac), minFrac) >= 1.0 && top >= 0.0
    ensures Times(n, Times(frac, Times(minFrac, top))) >= top
  {
    var w := Times(Times(n, frac), minFrac);
    Associate(frac, minFrac, top);
    Associate(n, Times(frac, minFrac), top);
    Associate(n, frac, minFrac);
    assert Times(n, Times(frac, Times(minFrac, top))) == Times(w, top);
    MulNonNegative(w - 1.0, top, (w - 1.0) * top);
  }

  /** Every increase arrives within n weeks once n frac min_frac >= 1, so within the cap when 520 frac min_frac >= 1. */
  lemma IncreaseArrives(frac: real, minFrac: real, x: real, t: real, n: nat)
    requires frac >= 0.0 && minFrac >= 0.0 && 0.0 <= x <= t
    requires Times(Times(n as real, frac), minFrac) >= 1.0
    ensures RateAfter(frac, minFrac, x, t, n) == t
  {
    IncreaseGains(frac, minFrac, x, t, n);
    FullGain(n as real, frac, minFrac, Max(t, TINY));
    RampIsMonotone(frac, minFrac, x, t, 0, n);
  }

  function Power(b: real, n: nat): real {
    if n == 0 then 1.0 else Times(Power(b, n - 1), b)
  }

  lemma DecreaseStep(y: real, frac: real, t: real, c: real)
    requires 0.0 <= frac <= 1.0 && t >= 0.0 && y <= Max(t, c)
    ensures y - Times(frac, y) <= Max(t, Times(c, 1.0 - frac))
  {
    assert y - frac * y == (1.0 - frac) * y;
    TimesMonotone(1.0 - frac, y, Max(t, c));
    MulNonNegative(frac, t, frac * t);
    assert Times(1.0 - frac, t) == t - frac * t;
    assert Times(1.0 - frac, c) == Times(c, 1.0 - frac);
  }

  /** A decrease loses at least the step fraction of the rate every week until it arrives. */
  lemma {:induction false} DecreaseDecays(frac: real, minFrac: real, x: real, t: real, n: nat)
    requires 0.0 <= frac <= 1.0 && minFrac >= 0.0 && 0.0 <= t <= x
    ensures RateAfter(frac, minFrac, x, t, n) <= Max(t, Times(x, Power(1.0 - frac, n)))
  {
    if n == 0 {
      assert Times(x, 1.0) == x;
    } else {
      DecreaseDecays(frac, minFrac, x, t, n - 1);
      var y, c := RateAfter(frac, minFrac, x, t, n - 1), Times(x, Power(1.0 - frac, n - 1));
      RampIsMonotone(frac, minFrac, x, t, 0, n - 1);
      WeekBounds(frac, minFrac, y, t);
      CapNonNegative(frac, minFrac, y, t);
      DecreaseStep(y, frac, t, c);
      Associate(x, Power(1.0 - frac, n - 1), 1.0 - frac);
    }
  }

  lemma Associate(a: real, b: real, c: real)
    ensures Times(Times(a, b), c) == Times(a, Times(b, c))
  {
  }

  /**
   What a caller of Ramp can rely on, whatever the mix of wells: at the end a suppressed well is where it was, an
   increase with 520 frac min_frac >= 1 is at its target or within the closeness of the stopping test, and no well
   ever left the interval between its current rate and its target.
   */
  lemma RampDelivers(s: Settings, current: Vec, target: Vec, weeks: nat, k: nat)
    requires s.Sound() && |current| == |target| && k < |current| && weeks <= MAX_WEEKS
    requires weeks < MAX_WEEKS ==> AllClose(RatesAfter(s, current, target, weeks), target)
    ensures var x := RatesAfter(s, current, target, weeks)[k];
            && (current[k] == target[k] ==> x == current[k])
            && (0.0 <= current[k] <= target[k] && Times(Times(520.0, s.Frac(k)), s.minFrac) >= 1.0 ==> Close(x, target[k]))
            && (current[k] <= target[k] ==> current[k] <= x <= target[k])
            && (current[k] >= target[k] ==> target[k] <= x <= current[k])
  {
    RampIsMonotone(s.Frac(k), s.minFrac, current[k], target[k], 0, weeks);
    if current[k] == target[k] {
      SuppressedStays(s.Frac(k), s.minFrac, current[k], weeks);
    }
    if weeks == MAX_WEEKS && 0.0 <= current[k] <= target[k] && Times(Times(520.0, s.Frac(k)), s.minFrac) >= 1.0 {
      IncreaseArrives(s.Frac(k), s.minFrac, current[k], target[k], MAX_WEEKS);
      CloseToItself(target[k]);
    }
  }

  lemma CloseToItself(t: real)
    ensures Close(t, t)
  {
    MulNonNegative(RELATIVE, Abs(t), RELATIVE * Abs(t));
  }

  // ---------------------------------------------------------------- where the loop stops

  /** Week n is the first at which the well is close to its target. */
  ghost predicate FirstClose(frac: real, minFrac: real, x: real, t: real, n: nat) {
    && Close(RateAfter(frac, minFrac, x, t, n), t)
    && forall m: nat :: m < n ==> !Close(RateAfter(frac, minFrac, x, t, m), t)
  }

  /** Week n is the first at which the well is at its target. */
  ghost predicate ArrivesAt(frac: real, minFrac: real, x: real, t: real, n: nat) {
    && RateAfter(frac, minFrac, x, t, n) == t
    && forall m: nat :: m < n ==> RateAfter(frac, minFrac, x, t, m) != t
  }

  /** Once close, or at the target, a well stays so. */
  lemma ClosenessPersists(frac: real, minFrac: real, x: real, t: real, n: nat, m: nat)
    requires frac >= 0.0 && minFrac >= 0.0 && n <= m
    ensures Close(RateAfter(frac, minFrac, x, t, n), t) ==> Close(RateAfter(frac, minFrac, x, t, m), t)
    ensures RateAfter(frac, minFrac, x, t, n) == t ==> RateAfter(frac, minFrac, x, t, m) == t
  {
    RampIsMonotone(frac, minFrac, x, t, n, m);
  }

  lemma {:induction false} FirstCloseBy(frac: real, minFrac: real, x: real, t: real, n: nat) returns (w: nat)
    requires Close(RateAfter(frac, minFrac, x, t, n), t)
    ensures w <= n && FirstClose(frac, minFrac, x, t, w)
  {
    if m: nat :| m < n && Close(RateAfter(frac, minFrac, x, t, m), t) {
      w := FirstCloseBy(frac, minFrac, x, t, m);
    } else {
      w := n;
    }
  }

  lemma {:induction false} ArrivalBy(frac: real, minFrac: real, x: real, t: real, n: nat) returns (w: nat)
    requires RateAfter(frac, minFrac, x, t, n) == t
    ensures w <= n && ArrivesAt(frac, minFrac, x, t, w)
  {
    if m: nat :| m < n && RateAfter(frac, minFrac, x, t, m) == t {
      w := ArrivalBy(frac, minFrac, x, t, m);
    } else {
      w := n;
    }
  }

  /** A well alone ends at its target exactly when it is never close to it without being there. */
  lemma EndsAtTargetIff(frac: real, minFrac: real, x: real, t: real, w: nat)
    requires frac >= 0.0 && minFrac >= 0.0 && FirstClose(frac, minFrac, x, t, w)
    ensures RateAfter(frac, minFrac, x, t, w) == t <==>
            forall n: nat :: Close(RateAfter(frac, minFrac, x, t, n), t) ==> RateAfter(frac, minFrac, x, t, n) == t
  {
    forall n: nat | RateAfter(frac, minFrac, x, t, w) == t && Close(RateAfter(frac, minFrac, x, t, n), t)
      ensures RateAfter(frac, minFrac, x, t, n) == t
    {
      assert w <= n;
      ClosenessPersists(frac, minFrac, x, t, w, n);
    }
  }

  /** Week n is the first at which well k is close to its target. */
  ghost predicate WellCloses(s: Settings, current: Vec, target: Vec, k: nat, n: nat)
    requires k < |current| == |target|
  {
    FirstClose(s.Frac(k), s.minFrac, current[k], target[k], n)
  }

  ghost predicate WellClosesBy(s: Settings, current: Vec, target: Vec, k: nat, weeks: nat)
    requires k < |current| == |target|
  {
    exists w: nat {:trigger WellCloses(s, current, target, k, w)} :: w <= weeks && WellCloses(s, current, target, k, w)
  }

  /** The largest first-close week of all wells; zero when there are none. */
  ghost predicate IsLastToClose(s: Settings, current: Vec, target: Vec, weeks: nat)
    requires |current| == |target|
  {
    && (forall k: nat {:trigger WellClosesBy(s, current, target, k, weeks)} :: k < |current| ==>
          WellClosesBy(s, current, target, k, weeks))
    && if |current| == 0 then weeks == 0
       else exists k: nat {:trigger WellCloses(s, current, target, k, weeks)} ::
              k < |current| && WellCloses(s, current, target, k, weeks)
  }

  lemma CloseLate(frac: real, minFrac: real, x: real, t: real, n: nat)
    requires frac >= 0.0 && minFrac >= 0.0 && n > 0
    requires Close(RateAfter(frac, minFrac, x, t, n), t) && !Close(RateAfter(frac, minFrac, x, t, n - 1), t)
    ensures FirstClose(frac, minFrac, x, t, n)
  {
    forall m: nat | m < n
      ensures !Close(RateAfter(frac, minFrac, x, t, m), t)
    {
      ClosenessPersists(frac, minFrac, x, t, m, n - 1);
    }
  }

  lemma CloseEntry(s: Settings, current: Vec, target: Vec, n: nat, k: nat)
    requires |current| == |target| && k < |current| && AllClose(RatesAfter(s, current, target, n), target)
    ensures Close(RateAfter(s.Frac(k), s.minFrac, current[k], target[k], n), target[k])
  {
    assert Close(RatesAfter(s, current, target, n)[k], target[k]);
  }

  lemma SomeNotClose(s: Settings, current: Vec, target: Vec, n: nat) returns (k: nat)
    requires |current| == |target| && !AllClose(RatesAfter(s, current, target, n), target)
    ensures k < |current| && !Close(RateAfter(s.Frac(k), s.minFrac, current[k], target[k], n), target[k])
  {
    var y := RatesAfter(s, current, target, n);
    k :| 0 <= k < |current| && !Close(y[k], target[k]);
  }

  lemma EachCloses(s: Settings, current: Vec, target: Vec, weeks: nat, k: nat)
    requires |current| == |target| && k < |current| && AllClose(RatesAfter(s, current, target, weeks), target)
    ensures WellClosesBy(s, current, target, k, weeks)
  {
    CloseEntry(s, current, target, weeks, k);
    var w := FirstCloseBy(s.Frac(k), s.minFrac, current[k], target[k], weeks);
    assert WellCloses(s, current, target, k, w);
  }

  lemma LastCloses(s: Settings, current: Vec, target: Vec, weeks: nat) returns (k: nat)
    requires s.Sound() && |current| == |target| > 0 && Breaks(s, current, target, weeks)
    ensures k < |current| && WellCloses(s, current, target, k, weeks)
  {
    if weeks == 0 {
      k := 0;
      CloseEntry(s, current, target, 0, 0);
    } else {
      k := SomeNotClose(s, current, target, weeks - 1);
      CloseEntry(s, current, target, weeks, k);
      CloseLate(s.Frac(k), s.minFrac, current[k], target[k], weeks);
    }
  }

  /** A ramp that breaks does so at the largest first-close week of its wells. */
  lemma BreaksAtLastToClose(s: Settings, current: Vec, target: Vec, weeks: nat)
    requires s.Sound() && |current| == |target| && Breaks(s, current, target, weeks)
    ensures IsLastToClose(s, current, target, weeks)
  {
    forall k: nat {:trigger WellClosesBy(s, current, target, k, weeks)} | k < |current|
      ensures WellClosesBy(s, current, target, k, weeks)
    {
      EachCloses(s, current, target, weeks, k);
    }
    if |current| > 0 {
      var k := LastCloses(s, current, target, weeks);
    } else if weeks > 0 {
      var k := SomeNotClose(s, current, target, weeks - 1);
    }
  }

  /**
   When the ramp breaks, a well ends at its target exactly when it arrives no later than the last well comes close;
   at the week cap, exactly when it arrives within the cap.
   */
  lemma RampArrivesIff(s: Settings, current: Vec, target: Vec, weeks: nat, k: nat)
    requires s.Sound() && |current| == |target| && k < |current|
    ensures RatesAfter(s, current, target, weeks)[k] == target[k] <==>
            exists a: nat :: a <= weeks && ArrivesAt(s.Frac(k), s.minFrac, current[k], target[k], a)
    ensures Breaks(s, current, target, weeks) ==> IsLastToClose(s, current, target, weeks)
  {
    if RatesAfter(s, current, target, weeks)[k] == target[k] {
      var a := ArrivalBy(s.Frac(k), s.minFrac, current[k], target[k], weeks);
    }
    if a: nat :| a <= weeks && ArrivesAt(s.Frac(k), s.minFrac, current[k], target[k], a) {
      ClosenessPersists(s.Frac(k), s.minFrac, current[k], target[k], a, weeks);
    }
    if Breaks(s, current, target, weeks) {
      BreaksAtLastToClose(s, current, target, weeks);
    }
  }

  // ---------------------------------------------------------------- increases above the floor

  /** The rate is at or above what the cap is at least taken of. */
  predicate AboveFloor(minFrac: real, x: real, t: real) {
    x >= Times(minFrac, Max(t, TINY))
  }

  /** The rate after n weeks if nothing stopped its growth. */
  function Grown(frac: real, x: real, n: nat): real {
    Times(x, Power(1.0 + frac, n))
  }

  lemma GrownStep(frac: real, x: real, n: nat)
    requires n > 0
    ensures Grown(frac, x, n) == Grown(frac, x, n - 1) + Times(frac, Grown(frac, x, n - 1))
  {
    Associate(x, Power(1.0 + frac, n - 1), 1.0 + frac);
    Split(Grown(frac, x, n - 1), frac);
  }

  lemma Split(g: real, frac: real)
    ensures Times(g, 1.0 + frac) == g + Times(frac, g)
  {
  }

  /** One week of an increase above the floor. */
  lemma WeekAboveFloor(frac: real, minFrac: real, y: real, t: real)
    requires frac >= 0.0 && minFrac >= 0.0 && y <= t && AboveFloor(minFrac, y, t)
    ensures y >= 0.0 && NextRate(frac, minFrac, y, t) == Min(t, y + Times(frac, y))
  {
    MulNonNegative(minFrac, Max(t, TINY), Times(minFrac, Max(t, TINY)));
    MulNonNegative(frac, y, Times(frac, y));
  }

  lemma StillAboveFloor(minFrac: real, x: real, y: real, t: real)
    requires AboveFloor(minFrac, x, t) && x <= y
    ensures AboveFloor(minFrac, y, t)
  {
  }

  /** Growing and stopping at the target is stopping at the target and growing. */
  lemma GrowthCapped(frac: real, t: real, g: real, y: real)
    requires frac >= 0.0 && t >= 0.0 && g >= 0.0 && y == Min(t, g)
    ensures Min(t, y + Times(frac, y)) == Min(t, g + Times(frac, g))
    ensures g + Times(frac, g) >= g
  {
    MulNonNegative(frac, g, Times(frac, g));
    MulNonNegative(frac, t, Times(frac, t));
  }

  /** Such an increase grows by its step fraction every week until it arrives. */
  lemma {:induction false} GrowsAboveFloor(frac: real, minFrac: real, x: real, t: real, n: nat)
    requires frac >= 0.0 && minFrac >= 0.0 && Times(minFrac, Max(t, 0.000000001)) <= x <= t
    ensures RateAfter(frac, minFrac, x, t, n) == Min(t, Grown(frac, x, n))
    ensures Grown(frac, x, n) >= x >= 0.0
  {
    WeekAboveFloor(frac, minFrac, x, t);
    if n == 0 {
      assert Times(x, 1.0) == x;
    } else {
      GrowsAboveFloor(frac, minFrac, x, t, n - 1);
      var y, g := RateAfter(frac, minFrac, x, t, n - 1), Grown(frac, x, n - 1);
      StillAboveFloor(minFrac, x, y, t);
      WeekAboveFloor(frac, minFrac, y, t);
      GrownStep(frac, x, n);
      GrowthCapped(frac, t, g, y);
    }
  }

  /** Just below a target: short of it by no more than the tolerance. */
  predicate JustBelow(g: real, t: real) {
    t - TINY - RELATIVE * Abs(t) <= g < t
  }

  /** Checkable before the ramp: such an increase, alone, ends short exactly when one of its growth steps falls just below the target. */
  lemma StopsShortIff(frac: real, minFrac: real, x: real, t: real, w: nat)
    requires frac >= 0.0 && minFrac >= 0.0 && x <= t && AboveFloor(minFrac, x, t) && FirstClose(frac, minFrac, x, t, w)
    ensures RateAfter(frac, minFrac, x, t, w) != t <==> exists n: nat :: JustBelow(Grown(frac, x, n), t)
  {
    GrowsAboveFloor(frac, minFrac, x, t, w);
    if RateAfter(frac, minFrac, x, t, w) != t {
      assert JustBelow(Grown(frac, x, w), t);
    }
    if n: nat :| JustBelow(Grown(frac, x, n), t) {
      GrowsAboveFloor(frac, minFrac, x, t, n);
      EndsAtTargetIff(frac, minFrac, x, t, w);
    }
  }

  /** The week such an increase first comes close, and whether it has arrived by then, read off its growth. */
  lemma FirstCloseIff(frac: real, minFrac: real, x: real, t: real, w: nat)
    requires frac >= 0.0 && minFrac >= 0.0 && x <= t && AboveFloor(minFrac, x, t)
    ensures FirstClose(frac, minFrac, x, t, w) <==>
            Grown(frac, x, w) >= t - TINY - RELATIVE * Abs(t)
            && forall m: nat :: m < w ==> Grown(frac, x, m) < t - TINY - RELATIVE * Abs(t)
    ensures RateAfter(frac, minFrac, x, t, w) == t <==> Grown(frac, x, w) >= t
  {
    MulNonNegative(RELATIVE, Abs(t), RELATIVE * Abs(t));
    forall m: nat
      ensures Close(RateAfter(frac, minFrac, x, t, m), t) <==> Grown(frac, x, m) >= t - TINY - RELATIVE * Abs(t)
    {
      GrowsAboveFloor(frac, minFrac, x, t, m);
    }
    GrowsAboveFloor(frac, minFrac, x, t, w);
  }

  lemma FirstCloseOnce(frac: real, minFrac: real, x: real, t: real, n: nat, m: nat)
    requires FirstClose(frac, minFrac, x, t, n) && FirstClose(frac, minFrac, x, t, m)
    ensures n == m
  {
  }

  /** An increase that one week of growth takes just below its target comes close then, and stays short. */
  lemma ShortAfterOne(frac: real, minFrac: real, x: real, t: real)
    requires frac >= 0.0 && minFrac >= 0.0 && AboveFloor(minFrac, x, t)
    requires x < t - TINY - RELATIVE * Abs(t) && JustBelow(x + Times(frac, x), t)
    ensures FirstClose(frac, minFrac, x, t, 1) && RateAfter(frac, minFrac, x, t, 1) == x + Times(frac, x)
    ensures JustBelow(Grown(frac, x, 1), t)
  {
    MulNonNegative(RELATIVE, Abs(t), RELATIVE * Abs(t));
    assert Grown(frac, x, 0) == x by {
      assert Times(x, 1.0) == x;
    }
    GrownStep(frac, x, 1);
    FirstCloseIff(frac, minFrac, x, t, 1);
    GrowsAboveFloor(frac, minFrac, x, t, 1);
  }

  /** A single well, whatever its numbers, that grows to just below its target in one week: the ramp breaks there. */
  lemma StopsShort(s: Settings, x: real, t: real, weeks: nat)
    requires s.Sound() && AboveFloor(s.minFrac, x, t) && x < t - TINY - RELATIVE * Abs(t)
    requires JustBelow(x + Times(s.Frac(0), x), t) && Breaks(s, [x], [t], weeks)
    ensures weeks == 1 && RatesAfter(s, [x], [t], weeks)[0] == x + Times(s.Frac(0), x) < t
    ensures exists n: nat :: JustBelow(Grown(s.Frac(0), x, n), t)
  {
    var k := LastCloses(s, [x], [t], weeks);
    ShortAfterOne(s.Frac(0), s.minFrac, x, t);
    FirstCloseOnce(s.Frac(0), s.minFrac, x, t, weeks, 1);
  }

  /** For instance from 1 to 1.100005 at ten per cent a week; the missing 0.000005 is far more than 1e-9. */
  lemma ShortByMoreThanTiny(weeks: nat)
    requires Breaks(Settings(0.1, 0.05, 0.0, None), [1.0], [1.100005], weeks)
    ensures !Small(Settings(0.1, 0.05, 0.0, None), 1.0, 1.100005)
    ensures weeks == 1
    ensures 1.100005 - RatesAfter(Settings(0.1, 0.05, 0.0, None), [1.0], [1.100005], weeks)[0] > TINY
  {
    assert Times(0.1, 1.0) == 0.1;
    StopsShort(Settings(0.1, 0.05, 0.0, None), 1.0, 1.100005, weeks);
  }
}
