/**
 Splitting water among injectors (waterflood_app/optimize/solvers.py): the greedy vertex start, and the expansion
 of a plan per period into a plan per step.
 */
module Allocation {
  import opened Common

  // ---------------------------------------------------------------- the greedy start

  ghost predicate AreBounds(lo: Vec, hi: Vec) {
    |lo| == |hi| && forall k :: 0 <= k < |lo| ==> lo[k] <= hi[k]
  }

  ghost predicate InBounds(x: Vec, lo: Vec, hi: Vec) {
    |x| == |lo| == |hi| && forall k :: 0 <= k < |x| ==> lo[k] <= x[k] <= hi[k]
  }

  /** order visits every injector once, most valuable first; ties in any order. */
  ghost predicate IsRanking(order: seq<nat>, marg: Vec) {
    && |order| == |marg|
    && (forall a :: 0 <= a < |order| ==> order[a] < |marg|)
    && (forall a, b :: 0 <= a < b < |order| ==> order[a] != order[b] && marg[order[a]] >= marg[order[b]])
    && forall k: nat :: k < |marg| ==> Ranked(order, k)
  }

  ghost predicate Ranked(order: seq<nat>, k: nat) {
    exists a :: 0 <= a < |order| && order[a] == k
  }

  /** Filled up to position c of the ranking, empty after it. */
  ghost predicate FilledTo(x: Vec, lo: Vec, hi: Vec, order: seq<nat>, c: nat, n: nat)
    requires |x| == |lo| == |hi| && n <= |order| && forall a :: 0 <= a < |order| ==> order[a] < |x|
  {
    && (forall a :: 0 <= a < n && a < c ==> x[order[a]] == hi[order[a]])
    && (forall a :: 0 <= a < |order| && (a > c || a >= n) ==> x[order[a]] == lo[order[a]])
  }

  /** Fills injectors in ranking order up to their bounds until the water runs out. */
  method Greedy(lo: Vec, hi: Vec, total: real, marg: Vec, order: seq<nat>) returns (x: Vec, ghost c: nat)
    requires AreBounds(lo, hi) && |marg| == |lo| && IsRanking(order, marg)
    ensures InBounds(x, lo, hi)
    ensures FilledTo(x, lo, hi, order, c, |order|)
    ensures Sum(x, |x|) == Max(Sum(lo, |lo|), Min(total, Sum(hi, |hi|)))
  {
    x := lo;
    c := 0;
    var remaining := total - Sum(lo, |lo|);
    SumMonotone(lo, hi, |lo|);
    for n := 0 to |order|
      invariant InBounds(x, lo, hi) && Sum(x, |x|) + remaining == total
      invariant c <= n && FilledTo(x, lo, hi, order, c, n)
      invariant remaining > 0.0 ==> c == n
      invariant remaining < 0.0 ==> x == lo && Sum(lo, |lo|) > total
    {
      var k := order[n];
      var add := Min(hi[k] - x[k], Max(remaining, 0.0));
      SumUpdate(x, k, x[k] + add, |x|);
      assert forall a :: 0 <= a < |order| && a != n ==> order[a] != k;
      if remaining > 0.0 && add == hi[k] - x[k] {
        c := n + 1;
      }
      if add == 0.0 {
        assert x[k := x[k] + add] == x;
      }
      x := x[k := x[k] + add];
      remaining := remaining - add;
    }
    SumMonotone(x, hi, |x|);
    SumMonotone(lo, x, |x|);
    if remaining > 0.0 {
      forall k: nat | k < |x|
        ensures x[k] == hi[k]
      {
        assert Ranked(order, k);
      }
      SumPrefix(x, hi, |x|);
    }
  }

  /** Every term of the exchange is a gain: above the threshold x is full, below it x is empty. */
  lemma ExchangeTerm(m: real, level: real, x: real, y: real, lo: real, hi: real)
    requires lo <= y <= hi && (m > level ==> x == hi) && (m < level ==> x == lo)
    ensures Times(m - level, x - y) >= 0.0
  {
    if m > level {
      MulNonNegative(m - level, x - y, Times(m - level, x - y));
    } else if m < level {
      MulNonNegative(level - m, y - x, (level - m) * (y - x));
    }
  }

  lemma ExchangeStep(m: real, level: real, d: real, s: real)
    requires Times(m - level, d) >= 0.0
    ensures m * d + Times(level, s) >= Times(level, s + d)
  {
  }

  /** A move whose every term gains over the threshold gains over it in total. */
  lemma {:induction false} Exchange(marg: Vec, level: real, d: Vec, n: nat)
    requires |marg| == |d| && n <= |d|
    requires forall k :: 0 <= k < n ==> Times(marg[k] - level, d[k]) >= 0.0
    ensures Dot(marg, d, n) >= Times(level, Sum(d, n))
  {
    if n > 0 {
      Exchange(marg, level, d, n - 1);
      ExchangeStep(marg[n - 1], level, d[n - 1], Sum(d, n - 1));
    }
  }

  /** Two splits of the same water: term by term above the threshold, the first is worth at least the second. */
  lemma NoGain(marg: Vec, level: real, x: Vec, y: Vec)
    requires |marg| == |x| == |y| && Sum(x, |x|) == Sum(y, |y|)
    requires forall k :: 0 <= k < |x| ==> Times(marg[k] - level, x[k] - y[k]) >= 0.0
    ensures Dot(marg, y, |y|) <= Dot(marg, x, |x|)
  {
    var d := seq(|x|, k requires 0 <= k < |x| => x[k] - y[k]);
    Exchange(marg, level, d, |x|);
    SumLinear(x, y, d, 1.0, |x|);
    DotAddScaled(marg, x, y, d, 1.0, |x|);
    TimesZero(level, Sum(d, |x|));
  }

  /** Position a of the ranking: full if worth more than the threshold, empty if worth less. */
  lemma ExchangeAt(lo: Vec, hi: Vec, marg: Vec, order: seq<nat>, c: nat, x: Vec, y: Vec, at: nat, a: nat, k: nat)
    requires AreBounds(lo, hi) && |marg| == |lo| && IsRanking(order, marg)
    requires InBounds(x, lo, hi) && FilledTo(x, lo, hi, order, c, |order|) && InBounds(y, lo, hi)
    requires a < |order| && order[a] == k && at == (if c < |order| then c else |order| - 1)
    ensures Times(marg[k] - marg[order[at]], x[k] - y[k]) >= 0.0
  {
    var level := marg[order[at]];
    if a < at {
      assert marg[order[a]] >= marg[order[at]];
    } else if a > at {
      assert marg[order[at]] >= marg[order[a]];
    }
    ExchangeTerm(marg[k], level, x[k], y[k], lo[k], hi[k]);
  }

  lemma TimesZero(level: real, d: real)
    requires d == 0.0
    ensures Times(level, d) == 0.0
  {
  }

  /** No other split of the same water within the bounds is worth more: an optimal fractional knapsack. */
  lemma GreedyIsOptimal(lo: Vec, hi: Vec, marg: Vec, order: seq<nat>, c: nat, x: Vec, y: Vec)
    requires AreBounds(lo, hi) && |marg| == |lo| && IsRanking(order, marg)
    requires InBounds(x, lo, hi) && FilledTo(x, lo, hi, order, c, |order|)
    requires InBounds(y, lo, hi) && Sum(y, |y|) == Sum(x, |x|)
    ensures Dot(marg, y, |y|) <= Dot(marg, x, |x|)
  {
    if |x| > 0 {
      var at := if c < |order| then c else |order| - 1;
      var level := marg[order[at]];
      forall k: nat | k < |x|
        ensures Times(marg[k] - level, x[k] - y[k]) >= 0.0
      {
        assert Ranked(order, k);
        var a :| 0 <= a < |order| && order[a] == k;
        ExchangeAt(lo, hi, marg, order, c, x, y, at, a, k);
      }
      NoGain(marg, level, x, y);
    }
  }

  // ---------------------------------------------------------------- expansion to steps

  /** linspace(0, horizon, periods + 1) cut to integers. */
  function Edge(horizon: nat, periods: nat, k: nat): nat
    requires periods > 0
  {
    k * horizon / periods
  }

  /** The period step n falls in. */
  function PeriodOf(horizon: nat, periods: nat, n: nat): nat
    requires periods > 0 && n < horizon
  {
    ((n + 1) * periods - 1) / horizon
  }

  lemma DivBelow(a: nat, b: nat, q: nat)
    requires b > 0
    ensures a / b <= q <==> a < (q + 1) * b
  {
    var r := a % b;
    assert a == a / b * b + r;
    if a / b <= q {
      assert a / b * b <= q * b;
    } else {
      assert a / b * b >= (q + 1) * b;
    }
  }

  lemma DivIs(a: nat, b: nat, q: nat)
    requires b > 0
    ensures a / b == q <==> q * b <= a < (q + 1) * b
  {
    DivBelow(a, b, q);
    if q > 0 {
      DivBelow(a, b, q - 1);
    }
  }

  lemma EdgeAtMost(horizon: nat, periods: nat, n: nat, k: nat)
    requires periods > 0
    ensures Edge(horizon, periods, k) <= n <==> k * horizon < (n + 1) * periods
  {
    DivBelow(k * horizon, periods, n);
  }

  lemma ProductMonotone(a: nat, b: nat, c: nat)
    requires a <= b
    ensures a * c <= b * c
  {
  }

  /** Every step lies between the edges of its period, and of no other. */
  lemma PeriodIff(horizon: nat, periods: nat, n: nat, k: nat)
    requires periods > 0 && n < horizon
    ensures PeriodOf(horizon, periods, n) == k <==> Edge(horizon, periods, k) <= n < Edge(horizon, periods, k + 1)
  {
    EdgeAtMost(horizon, periods, n, k);
    EdgeAtMost(horizon, periods, n, k + 1);
    ProductMonotone(1, n + 1, periods);
    DivIs((n + 1) * periods - 1, horizon, k);
  }

  lemma EdgesAscend(horizon: nat, periods: nat, k: nat, l: nat)
    requires periods > 0 && k <= l
    ensures Edge(horizon, periods, k) <= Edge(horizon, periods, l)
  {
    ProductMonotone(k, l, horizon);
    DivBelow(k * horizon, periods, Edge(horizon, periods, l));
    DivBelow(l * horizon, periods, Edge(horizon, periods, l));
  }

  lemma EdgeEnds(horizon: nat, periods: nat)
    requires periods > 0
    ensures Edge(horizon, periods, 0) == 0 && Edge(horizon, periods, periods) == horizon
  {
    DivIs(0, periods, 0);
    assert 0 * horizon == 0 && periods * horizon == horizon * periods;
    DivIs(horizon * periods, periods, horizon);
    ProductMonotone(horizon, horizon + 1, periods);
    assert (horizon + 1) * periods == horizon * periods + periods;
  }

  /** Step n gets the row of its period: the periods tile the horizon. */
  method ExpandPlan(x: Matrix, horizon: nat) returns (inj: Matrix)
    requires |x| > 0
    ensures |inj| == horizon
    ensures forall n :: 0 <= n < horizon ==> PeriodOf(horizon, |x|, n) < |x| && inj[n] == x[PeriodOf(horizon, |x|, n)]
  {
    var out := new Vec[horizon](_ => []);
    var p := |x|;
    EdgeEnds(horizon, p);
    for k := 0 to p
      invariant forall n :: 0 <= n < Edge(horizon, p, k) && n < horizon ==>
        PeriodOf(horizon, p, n) < p && out[n] == x[PeriodOf(horizon, p, n)]
    {
      EdgesAscend(horizon, p, k, k + 1);
      EdgesAscend(horizon, p, k + 1, p);
      var first, last := Edge(horizon, p, k), Edge(horizon, p, k + 1);
      for n := first to last
        invariant forall r :: 0 <= r < n ==> PeriodOf(horizon, p, r) < p && out[r] == x[PeriodOf(horizon, p, r)]
      {
        PeriodIff(horizon, p, n, k);
        out[n] := x[k];
      }
    }
    inj := out[..];
  }
}
