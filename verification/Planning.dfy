/**
 Choosing a plan (waterflood_app/optimize/solvers.py): the caching evaluator, and the loop that keeps the best
 feasible point whatever the optimiser returns or throws. The optimiser, the forecast and the posture statistic
 are parameters: nothing is assumed of them beyond what is stated.
 */
module Planning {
  import opened Common
  import opened Allocation

  // ---------------------------------------------------------------- the evaluator

  /** Forecasts of a decision vector: one objective value per ensemble member, and the reference member's terms. */
  datatype Outcome = Outcome(vals: Vec, limits: Vec, extra: Vec)

  /** Evaluation looks at the rounded vector only. */
  ghost predicate KeysDecide<K>(key: Vec -> K, eval: Vec -> Outcome) {
    forall x: Vec, y: Vec {:trigger eval(x), eval(y)} :: key(x) == key(y) ==> eval(x) == eval(y)
  }

  /** Keys that tell all vectors apart decide; no keys decide where two vectors of one key are evaluated differently. */
  lemma WhenKeysDecide<K(!new)>(key: Vec -> K, eval: Vec -> Outcome, a: Vec, b: Vec)
    ensures (forall x: Vec, y: Vec {:trigger key(x), key(y)} :: key(x) == key(y) ==> x == y) ==> KeysDecide(key, eval)
    ensures key(a) == key(b) && eval(a) != eval(b) ==> !KeysDecide(key, eval)
  {
  }

  const CACHE_LIMIT := 4096

  class Evaluator<K(==)> {
    const key: Vec -> K
    const eval: Vec -> Outcome
    var cache: map<K, Outcome>
    var evals: nat

    /** Every cached entry is the evaluation of some vector with that key. */
    ghost predicate Valid()
      reads this
    {
      && |cache| <= CACHE_LIMIT + 1
      && forall k :: k in cache ==> IsEvaluation(k, cache[k])
    }

    ghost predicate IsEvaluation(k: K, f: Outcome) {
      exists y: Vec {:trigger eval(y)} :: key(y) == k && f == eval(y)
    }

    constructor (key: Vec -> K, eval: Vec -> Outcome)
      ensures Valid() && this.key == key && this.eval == eval && cache == map[] && evals == 0
    {
      this.key, this.eval := key, eval;
      cache, evals := map[], 0;
    }

    /** A cached outcome of the same key, or a fresh evaluation; the cache is dropped once it is too large. */
    method Forecasts(x: Vec) returns (f: Outcome)
      requires Valid()
      modifies this
      ensures Valid() && IsEvaluation(key(x), f)
      ensures key(x) in cache && cache[key(x)] == f
      ensures key(x) in old(cache) ==> f == old(cache)[key(x)] && cache == old(cache) && evals == old(evals)
      ensures key(x) !in old(cache) ==> f == eval(x) && evals == old(evals) + 1
      ensures key(x) !in old(cache) ==>
        cache == (if |old(cache)| > 4096 then map[] else old(cache))[key(x) := eval(x)]
      ensures KeysDecide(key, eval) ==> f == eval(x)
    {
      var k := key(x);
      if k in cache {
        f := cache[k];
        return;
      }
      f := eval(x);
      evals := evals + 1;
      if |cache| > CACHE_LIMIT {
        cache := map[];
      }
      cache := cache[k := f];
    }

    /** The optimiser evaluates as many points as it likes. */
    method Explore(probes: seq<Vec>)
      requires Valid()
      modifies this
      ensures Valid()
      ensures probes != [] ==> key(probes[|probes| - 1]) in cache
      ensures probes == [] ==> cache == old(cache) && evals == old(evals)
    {
      for n := 0 to |probes|
        invariant Valid() && (n == 0 ==> cache == old(cache) && evals == old(evals))
        invariant n > 0 ==> key(probes[n - 1]) in cache
      {
        var f := Forecasts(probes[n]);
      }
    }
  }

  /** Without that hypothesis a vector can be answered with the evaluation of another one that rounds alike. */
  method StaleHit<K>(ev: Evaluator<K>, x: Vec, y: Vec) returns (f: Outcome)
    requires ev.Valid() && ev.key(x) == ev.key(y) && ev.key(x) !in ev.cache
    modifies ev
    ensures ev.Valid() && f == ev.eval(x)
  {
    var first := ev.Forecasts(x);
    f := ev.Forecasts(y);
  }

  // ---------------------------------------------------------------- the problem

  /** Everything optimize_plan fixes before it starts optimising. */
  datatype Problem = Problem(
    lo: Vec,  // bounds, all periods in one vector
    hi: Vec,
    periods: nat,
    base: Vec,  // hold-current
    totalWater: Option<real>,
    sameWater: bool,
    relax: bool,
    rejectLoss: bool,
    aggregate: Vec -> real)  // the posture statistic
  {
    ghost predicate Valid() {
      && AreBounds(lo, hi) && |base| == |lo| && periods > 0 && |lo| % periods == 0
    }

    function Injectors(): nat
      requires periods > 0
    {
      |lo| / periods
    }

    function Value(f: Outcome): real {
      aggregate(f.vals)
    }

    function Scale(at: Outcome): real {
      Max(Abs(Value(at)), 0.000000001)
    }
  }

  /** Water injected in period k. */
  function PeriodWater(x: Vec, ni: nat, k: nat): real
    requires (k + 1) * ni <= |x|
  {
    Sum(x[k * ni..(k + 1) * ni], ni)
  }

  /** total_water or 1.0, kept away from zero. */
  function WaterScale(total: real): real {
    Max(if total == 0.0 then 1.0 else total, 0.000000001)
  }

  const TOLERANCE := 0.000001

  /** Every period uses the available water: exactly when same_water is set, at most otherwise. */
  predicate WaterMet(pb: Problem, x: Vec)
    requires pb.periods > 0 && |x| == |pb.lo| && |pb.lo| % pb.periods == 0
  {
    pb.totalWater.Some? ==>
      forall k :: 0 <= k < pb.periods ==> PeriodWaterMet(pb, x, k)
  }

  predicate PeriodWaterMet(pb: Problem, x: Vec, k: nat)
    requires k < pb.periods && |x| == |pb.lo| && |pb.lo| % pb.periods == 0 && pb.totalWater.Some?
  {
    PeriodFits(|x|, pb.periods, k);
    var excess := (PeriodWater(x, pb.Injectors(), k) - pb.totalWater.value) / WaterScale(pb.totalWater.value);
    if pb.sameWater then Abs(excess) <= TOLERANCE else -excess >= -TOLERANCE
  }

  lemma PeriodFits(n: nat, p: nat, k: nat)
    requires k < p && n % p == 0
    ensures (k + 1) * (n / p) <= n
  {
    assert n == p * (n / p);
    assert (k + 1) * (n / p) <= p * (n / p);
  }

  predicate AllAtLeast(v: Vec, bound: real) {
    forall k :: 0 <= k < |v| ==> v[k] >= bound
  }

  /** Forecast limits, relaxed to what hold-current already violates. */
  function Relaxed(limits: Vec, at: Vec, relax: bool): (g: Vec)
    requires |limits| == |at|
    ensures |g| == |limits|
  {
    seq(|limits|, k requires 0 <= k < |limits| => limits[k] - if relax then Min(at[k], 0.0) else 0.0)
  }

  function Gains(vals: Vec, at: Vec, scale: real): (g: Vec)
    requires |vals| == |at| && scale != 0.0
    ensures |g| == |vals|
  {
    seq(|vals|, k requires 0 <= k < |vals| => (vals[k] - at[k]) / scale)
  }

  /** The forecast constraints hold to the tolerance, relative to the outcome at hold-current. */
  predicate ForecastMet(pb: Problem, at: Outcome, f: Outcome)
    requires |f.limits| == |at.limits| && |f.vals| == |at.vals|
  {
    && AllAtLeast(Relaxed(f.limits, at.limits, pb.relax), -TOLERANCE)
    && AllAtLeast(f.extra, -TOLERANCE)
    && (pb.rejectLoss ==> AllAtLeast(Gains(f.vals, at.vals, pb.Scale(at)), -TOLERANCE))
  }

  /** What makes a point a candidate: inside its bounds, water and forecast constraints met. */
  ghost predicate Feasible(pb: Problem, at: Outcome, x: Vec, f: Outcome)
    requires pb.Valid() && |f.limits| == |at.limits| && |f.vals| == |at.vals|
  {
    InBounds(x, pb.lo, pb.hi) && WaterMet(pb, x) && ForecastMet(pb, at, f)
  }

  // ---------------------------------------------------------------- the constraints as inequalities

  /** The ni rates of period k add up to the total within 1e-6 of the scale, or to no more when they need not use it up. */
  ghost predicate PeriodUses(x: Vec, ni: nat, k: nat, total: real, scale: real, same: bool) {
    && (k + 1) * ni <= |x|
    && var water := Sum(x[k * ni..(k + 1) * ni], ni);
       water <= total + 0.000001 * scale && (same ==> total - 0.000001 * scale <= water)
  }

  ghost predicate EachUses(x: Vec, ni: nat, periods: nat, total: real, scale: real, same: bool) {
    forall k: nat :: k < periods ==> PeriodUses(x, ni, k, total, scale, same)
  }

  /** Every period does; the scale is the total, or one for no water at all. */
  ghost predicate UsesWater(x: Vec, periods: nat, total: real, same: bool)
    requires periods > 0
  {
    EachUses(x, |x| / periods, periods, total,
             if total == 0.0 then 1.0 else if total < 0.000000001 then 0.000000001 else total, same)
  }

  /** Forecast limits from zero on, or from where hold-current is when they are relaxed; no member loses when losses are rejected. */
  ghost predicate KeepsLimits(at: Outcome, f: Outcome, relax: bool, rejectLoss: bool, value: real)
    requires |f.limits| == |at.limits| && |f.vals| == |at.vals|
  {
    && (forall k :: 0 <= k < |f.limits| ==>
          f.limits[k] >= (if relax && at.limits[k] < 0.0 then at.limits[k] else 0.0) - 0.000001)
    && (forall k :: 0 <= k < |f.extra| ==> f.extra[k] >= -0.000001)
    && (rejectLoss ==>
          forall k :: 0 <= k < |f.vals| ==> f.vals[k] >= at.vals[k] - 0.000001 * Max(Max(value, -value), 0.000000001))
  }

  lemma QuotientWithin(a: real, scale: real, bound: real)
    requires scale > 0.0
    ensures a / scale <= bound <==> a <= bound * scale
    ensures a / scale >= bound <==> a >= bound * scale
  {
    var q := a / scale;
    assert q * scale == a;
    if q <= bound {
      MulNonNegative(bound - q, scale, (bound - q) * scale);
    } else {
      MulPositive(q - bound, scale, (q - bound) * scale);
    }
  }

  lemma PeriodIff(pb: Problem, x: Vec, k: nat, total: real, scale: real)
    requires pb.periods > 0 && k < pb.periods && |x| == |pb.lo| && |pb.lo| % pb.periods == 0 && pb.totalWater == Some(total)
    requires scale == if total == 0.0 then 1.0 else if total < 0.000000001 then 0.000000001 else total
    ensures PeriodWaterMet(pb, x, k) <==> PeriodUses(x, |x| / pb.periods, k, total, scale, pb.sameWater)
  {
    PeriodFits(|x|, pb.periods, k);
    var ni := |x| / pb.periods;
    var excess := Sum(x[k * ni..(k + 1) * ni], ni) - total;
    QuotientWithin(excess, scale, 0.000001);
    QuotientWithin(excess, scale, -0.000001);
  }

  lemma WaterMetIff(pb: Problem, x: Vec)
    requires pb.periods > 0 && |x| == |pb.lo| && |pb.lo| % pb.periods == 0
    ensures WaterMet(pb, x) <==> (pb.totalWater.Some? ==> UsesWater(x, pb.periods, pb.totalWater.value, pb.sameWater))
  {
    if pb.totalWater.Some? {
      var total, ni := pb.totalWater.value, |x| / pb.periods;
      var scale := if total == 0.0 then 1.0 else if total < 0.000000001 then 0.000000001 else total;
      forall k: nat | k < pb.periods
        ensures PeriodWaterMet(pb, x, k) <==> PeriodUses(x, ni, k, total, scale, pb.sameWater)
      {
        PeriodIff(pb, x, k, total, scale);
      }
      assert WaterMet(pb, x) <==> EachUses(x, ni, pb.periods, total, scale, pb.sameWater);
    }
  }

  lemma ForecastMetIff(pb: Problem, at: Outcome, f: Outcome)
    requires |f.limits| == |at.limits| && |f.vals| == |at.vals|
    ensures ForecastMet(pb, at, f) <==> KeepsLimits(at, f, pb.relax, pb.rejectLoss, pb.aggregate(at.vals))
  {
    var limits, gains := Relaxed(f.limits, at.limits, pb.relax), Gains(f.vals, at.vals, pb.Scale(at));
    assert AllAtLeast(limits, -TOLERANCE) <==>
      forall k :: 0 <= k < |f.limits| ==>
        f.limits[k] >= (if pb.relax && at.limits[k] < 0.0 then at.limits[k] else 0.0) - 0.000001 by {
      forall k | 0 <= k < |limits|
        ensures limits[k] >= -TOLERANCE <==>
                f.limits[k] >= (if pb.relax && at.limits[k] < 0.0 then at.limits[k] else 0.0) - 0.000001
      {
      }
    }
    forall k | 0 <= k < |gains|
      ensures gains[k] >= -TOLERANCE <==> f.vals[k] >= at.vals[k] - 0.000001 * pb.Scale(at)
    {
      QuotientWithin(f.vals[k] - at.vals[k], pb.Scale(at), -TOLERANCE);
    }
  }

  /** A point is feasible exactly when it is inside its bounds, uses the water and keeps every limit. */
  lemma FeasibleIff(pb: Problem, at: Outcome, x: Vec, f: Outcome)
    requires pb.Valid() && |f.limits| == |at.limits| && |f.vals| == |at.vals|
    ensures Feasible(pb, at, x, f) <==>
      && |x| == |pb.lo| && (forall k :: 0 <= k < |x| ==> pb.lo[k] <= x[k] <= pb.hi[k])
      && (pb.totalWater.Some? ==> UsesWater(x, pb.periods, pb.totalWater.value, pb.sameWater))
      && KeepsLimits(at, f, pb.relax, pb.rejectLoss, pb.aggregate(at.vals))
  {
    if |x| == |pb.lo| {
      WaterMetIff(pb, x);
    }
    ForecastMetIff(pb, at, f);
  }

  // ---------------------------------------------------------------- optimize_plan

  /** One call of the optimiser: the points it evaluated, and what it returned unless it raised. */
  datatype Attempt = Attempt(probes: seq<Vec>, result: Option<Found>)

  datatype Found = Found(x: Vec, success: bool)

  function Clipped(x: Vec, lo: Vec, hi: Vec): (r: Vec)
    requires |x| == |lo| == |hi|
    ensures |r| == |x|
  {
    seq(|x|, k requires 0 <= k < |x| => Clip(x[k], lo[k], hi[k]))
  }

  lemma ClippedInBounds(x: Vec, lo: Vec, hi: Vec)
    requires AreBounds(lo, hi) && |x| == |lo|
    ensures InBounds(Clipped(x, lo, hi), lo, hi)
  {
  }

  /** Every outcome has as many members and limits as the one at hold-current. */
  ghost predicate SameShape(eval: Vec -> Outcome) {
    forall x: Vec, y: Vec {:trigger eval(x), eval(y)} ::
      |eval(x).vals| == |eval(y).vals| && |eval(x).limits| == |eval(y).limits|
  }

  lemma ShapeOfOne(eval: Vec -> Outcome)
    ensures SameShape(eval) <==>
      forall x: Vec {:trigger eval(x)} :: |eval(x).vals| == |eval([]).vals| && |eval(x).limits| == |eval([]).limits|
  {
  }

  datatype Best = Best(x: Vec, value: real, converged: bool)

  /** The incumbent is hold-current or a feasible point, with its own value, and never worse than hold-current. */
  ghost predicate IsIncumbent(pb: Problem, eval: Vec -> Outcome, best: Best)
    requires pb.Valid() && SameShape(eval)
  {
    && |best.x| == |pb.lo| && best.value == pb.Value(eval(best.x)) && best.value >= pb.Value(eval(pb.base))
    && (best.x == pb.base || Feasible(pb, eval(pb.base), best.x, eval(best.x)))
  }

  const IMPROVEMENT := 0.000000000001

  /** A feasible result of this attempt is worth at most slack more than v. */
  ghost predicate NoBetter(pb: Problem, eval: Vec -> Outcome, a: Attempt, v: real, slack: real)
    requires pb.Valid() && SameShape(eval) && (a.result.Some? ==> |a.result.value.x| == |pb.lo|)
  {
    a.result.Some? ==>
      var x := Clipped(a.result.value.x, pb.lo, pb.hi);
      Feasible(pb, eval(pb.base), x, eval(x)) ==> pb.Value(eval(x)) <= v + slack
  }

  ghost predicate AreAttempts(pb: Problem, attempts: seq<Attempt>) {
    forall k :: 0 <= k < |attempts| && attempts[k].result.Some? ==> |attempts[k].result.value.x| == |pb.lo|
  }

  /** What the evaluator may answer for x: the evaluation of a vector with the same key, of the same shape as at. */
  ghost predicate Answers<K>(ev: Evaluator<K>, at: Outcome, x: Vec, f: Outcome) {
    ev.IsEvaluation(ev.key(x), f) && |f.vals| == |at.vals| && |f.limits| == |at.limits|
  }

  /** The incumbent after a result x was answered with f: replaced when x is feasible by f and better by more than the margin. */
  function Chosen(pb: Problem, at: Outcome, x: Vec, f: Outcome, success: bool, best: Best, margin: real): Best
    requires pb.periods > 0 && |x| == |pb.lo| && |pb.lo| % pb.periods == 0
    requires |f.limits| == |at.limits| && |f.vals| == |at.vals|
  {
    if WaterMet(pb, x) && ForecastMet(pb, at, f) && pb.Value(f) > best.value + margin then Best(x, pb.Value(f), success)
    else best
  }

  /** Whatever the cache answers: hold-current with its reported value, or a point inside the bounds that meets the water constraint. */
  ghost predicate IsReported(pb: Problem, at: Outcome, best: Best)
    requires pb.Valid()
  {
    && |best.x| == |pb.lo| && best.value >= pb.Value(at)
    && (best.x == pb.base || (InBounds(best.x, pb.lo, pb.hi) && WaterMet(pb, best.x)))
  }

  /** One attempt: its clipped result, as the evaluator answers for it, replaces the incumbent or does not. */
  method Consider<K>(pb: Problem, ev: Evaluator<K>, at: Outcome, a: Attempt, best: Best, margin: real) returns (next: Best)
    requires pb.Valid() && ev.Valid() && SameShape(ev.eval) && margin >= 0.0 && ev.IsEvaluation(ev.key(pb.base), at)
    requires IsReported(pb, at, best) && (a.result.Some? ==> |a.result.value.x| == |pb.lo|)
    requires KeysDecide(ev.key, ev.eval) ==> IsIncumbent(pb, ev.eval, best)
    modifies ev
    ensures ev.Valid() && IsReported(pb, at, next) && next.value >= best.value
    ensures next != best ==> a.result.Some? && next.value > best.value + margin && next.converged == a.result.value.success
    ensures a.result.None? ==> next == best
    ensures a.result.Some? ==>
      var x := Clipped(a.result.value.x, pb.lo, pb.hi);
      exists f: Outcome {:trigger Answers(ev, at, x, f)} ::
        Answers(ev, at, x, f) && next == Chosen(pb, at, x, f, a.result.value.success, best, margin)
    ensures KeysDecide(ev.key, ev.eval) ==>
      IsIncumbent(pb, ev.eval, next) && NoBetter(pb, ev.eval, a, next.value, margin)
  {
    next := best;
    ev.Explore(a.probes);
    if a.result.Some? {
      var x := Clipped(a.result.value.x, pb.lo, pb.hi);
      ClippedInBounds(a.result.value.x, pb.lo, pb.hi);
      var f := ev.Forecasts(x);
      assert Answers(ev, at, x, f);
      next := Chosen(pb, at, x, f, a.result.value.success, best, margin);
    }
  }

  /** The optimiser said that it converged. */
  predicate Succeeded(a: Attempt) {
    a.result.Some? && a.result.value.success
  }

  /** Some member loses more than rounding against hold-current. */
  predicate Loses(vals: Vec, at: Vec)
    requires |vals| == |at|
  {
    exists k :: 0 <= k < |vals| && vals[k] < at[k] - 0.000000001
  }

  /** All starts in turn, then the polishing attempt from the best point. */
  method BestOf<K>(pb: Problem, ev: Evaluator<K>, at: Outcome, starts: seq<Attempt>, polish: Attempt) returns (best: Best)
    requires pb.Valid() && ev.Valid() && SameShape(ev.eval) && ev.IsEvaluation(ev.key(pb.base), at)
    requires AreAttempts(pb, starts) && (polish.result.Some? ==> |polish.result.value.x| == |pb.lo|)
    modifies ev
    ensures ev.Valid() && IsReported(pb, at, best)
    ensures best.converged ==> Succeeded(polish) || exists k :: 0 <= k < |starts| && Succeeded(starts[k])
    ensures KeysDecide(ev.key, ev.eval) ==>
      && IsIncumbent(pb, ev.eval, best)
      && (forall k :: 0 <= k < |starts| ==> NoBetter(pb, ev.eval, starts[k], best.value, IMPROVEMENT))
      && NoBetter(pb, ev.eval, polish, best.value, 0.0)
  {
    best := Best(pb.base, pb.Value(at), false);
    for n := 0 to |starts|
      invariant ev.Valid() && IsReported(pb, at, best)
      invariant best.converged ==> exists k :: 0 <= k < n && Succeeded(starts[k])
      invariant KeysDecide(ev.key, ev.eval) ==> IsIncumbent(pb, ev.eval, best)
      invariant KeysDecide(ev.key, ev.eval) ==>
        forall k :: 0 <= k < n ==> NoBetter(pb, ev.eval, starts[k], best.value, IMPROVEMENT)
    {
      best := Consider(pb, ev, at, starts[n], best, IMPROVEMENT);
    }
    best := Consider(pb, ev, at, polish, best, 0.0);
  }

  /**
   Whatever the attempts return or raise and whatever the cache answers: the plan is hold-current or inside the bounds
   and within the water constraint, its reported value is at least the reported base, and a posture that rejects
   losses reports no member that loses. When evaluation looks at the keys only, these are the real values, the plan
   meets every constraint, and no feasible attempt beats it by more than the margins.
   */
  method OptimizePlan<K>(pb: Problem, ev: Evaluator<K>, starts: seq<Attempt>, polish: Attempt)
    returns (best: Best, kept: bool, base: Outcome, plan: Outcome)
    requires pb.Valid() && ev.Valid() && SameShape(ev.eval)
    requires AreAttempts(pb, starts) && (polish.result.Some? ==> |polish.result.value.x| == |pb.lo|)
    modifies ev
    ensures ev.Valid() && IsReported(pb, base, best)
    ensures ev.IsEvaluation(ev.key(pb.base), base) && ev.IsEvaluation(ev.key(best.x), plan)
    ensures |plan.vals| == |base.vals| && (pb.rejectLoss ==> forall k :: 0 <= k < |plan.vals| ==> plan.vals[k] >= base.vals[k] - 0.000000001)
    ensures kept ==>
      exists f: Outcome, k: nat {:trigger f.vals[k]} ::
        k < |f.vals| == |base.vals| && f.vals[k] < base.vals[k] - 0.000000001 && exists y: Vec {:trigger ev.eval(y)} :: f == ev.eval(y)
    ensures best.x != pb.base ==>
      && |best.x| == |pb.lo| && (forall k :: 0 <= k < |best.x| ==> pb.lo[k] <= best.x[k] <= pb.hi[k])
      && (pb.totalWater.Some? ==> UsesWater(best.x, pb.periods, pb.totalWater.value, pb.sameWater))
    ensures KeysDecide(ev.key, ev.eval) && best.x != pb.base ==>
      && |plan.limits| == |base.limits|
      && KeepsLimits(base, plan, pb.relax, pb.rejectLoss, pb.aggregate(base.vals))
    ensures kept ==> pb.rejectLoss && best.x == pb.base && best.value == pb.Value(base) && plan == base
    ensures KeysDecide(ev.key, ev.eval) ==>
      && base == ev.eval(pb.base) && plan == ev.eval(best.x) && IsIncumbent(pb, ev.eval, best)
      && (pb.rejectLoss ==> !Loses(ev.eval(best.x).vals, ev.eval(pb.base).vals))
    ensures KeysDecide(ev.key, ev.eval) && !kept ==>
      && (forall k :: 0 <= k < |starts| ==> NoBetter(pb, ev.eval, starts[k], best.value, 0.000000000001))
      && NoBetter(pb, ev.eval, polish, best.value, 0.0)
  {
    base := ev.Forecasts(pb.base);
    best := BestOf(pb, ev, base, starts, polish);
    kept := false;
    plan := ev.Forecasts(best.x);
    if pb.rejectLoss && Loses(plan.vals, base.vals) {
      assert exists k: nat :: k < |plan.vals| && plan.vals[k] < base.vals[k] - 0.000000001;
      best, kept, plan := Best(pb.base, pb.Value(base), best.converged), true, base;
    }
    if best.x != pb.base {
      WaterMetIff(pb, best.x);
      if |plan.limits| == |base.limits| {
        ForecastMetIff(pb, base, plan);
      }
    }
  }
}
