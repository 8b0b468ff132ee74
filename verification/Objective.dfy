/**
 The weighted least-squares objective of one producer (waterflood_app/models/solver.py, _objective):
 with the time constants fixed it is an exact convex quadratic in the remaining parameters, so a point
 of the box that meets the sign conditions is a global minimum, and only such a point is.
 */
module Objective {
  import opened Common
  import opened Statistics
  import opened Crm
  import opened CrmForward

  // ---------------------------------------------------------------- value and gradient

  /** Training rows: the first n_train, or all of them. */
  function Rows(d: ProducerData): nat {
    if d.nTrain <= d.Steps() then d.nTrain else d.Steps()
  }

  function Residual(qhat: Vec, d: ProducerData, n: nat): real
    requires d.Valid() && |qhat| == d.Steps() && n < d.Steps()
  {
    Times(qhat[n] - d.q[n], d.w[n])
  }

  function SquaredError(qhat: Vec, d: ProducerData, n: nat): real
    requires d.Valid() && |qhat| == d.Steps() && n <= d.Steps()
  {
    if n == 0 then 0.0 else SquaredError(qhat, d, n - 1) + Square(Residual(qhat, d, n - 1))
  }

  /** r * w, the vector the gradient is built from. */
  function WeightedResiduals(qhat: Vec, d: ProducerData): (v: Vec)
    requires d.Valid() && |qhat| == d.Steps()
    ensures |v| == d.Steps() && forall n :: 0 <= n < |v| ==> v[n] == Times(Residual(qhat, d, n), d.w[n])
  {
    seq(d.Steps(), n requires 0 <= n < d.Steps() => Times(Residual(qhat, d, n), d.w[n]))
  }

  /** One entry of jac[:n].T @ v. */
  function GradientEntry(jac: Matrix, v: Vec, n: nat, k: nat): real
    requires n <= |v| == |jac| && forall r :: 0 <= r < |jac| ==> k < |jac[r]|
  {
    if n == 0 then 0.0 else GradientEntry(jac, v, n - 1, k) + v[n - 1] * jac[n - 1][k]
  }

  function ErrorGradient(jac: Matrix, v: Vec, n: nat, len: nat): (g: Vec)
    requires n <= |v| && Shape(jac, |v|, len)
    ensures |g| == len && forall k :: 0 <= k < len ==> g[k] == GradientEntry(jac, v, n, k)
  {
    seq(len, k requires 0 <= k < len => GradientEntry(jac, v, n, k))
  }

  /** Slope of the sparsity and distance penalties: positive on the allocations only. */
  function PenaltyEntry(d: ProducerData, lam: real, lamD: real, k: nat): real
    requires d.Valid()
  {
    if k >= d.ni then 0.0
    else
      (if lam > 0.0 then lam else 0.0)
      + (if lamD > 0.0 && d.dist.Some? then lamD * d.dist.value[k] / Max(Median(d.dist.value), 0.000000001) else 0.0)
  }

  function Penalty(d: ProducerData, lam: real, lamD: real, len: nat): (p: Vec)
    requires d.Valid()
    ensures |p| == len && forall k :: 0 <= k < len ==> p[k] == PenaltyEntry(d, lam, lamD, k)
  {
    seq(len, k requires 0 <= k < len => PenaltyEntry(d, lam, lamD, k))
  }

  function Value(qhat: Vec, theta: Vec, d: ProducerData, lam: real, lamD: real): real
    requires d.Valid() && |qhat| == d.Steps()
  {
    0.5 * SquaredError(qhat, d, Rows(d)) + Dot(Penalty(d, lam, lamD, |theta|), theta, |theta|)
  }

  function Gradient(jac: Matrix, qhat: Vec, theta: Vec, d: ProducerData, lam: real, lamD: real): (g: Vec)
    requires d.Valid() && |qhat| == d.Steps() && Shape(jac, d.Steps(), |theta|)
    ensures |g| == |theta|
    ensures forall k :: 0 <= k < |g| ==>
      g[k] == GradientEntry(jac, WeightedResiduals(qhat, d), Rows(d), k) + PenaltyEntry(d, lam, lamD, k)
  {
    seq(|theta|, k requires 0 <= k < |theta| =>
      GradientEntry(jac, WeightedResiduals(qhat, d), Rows(d), k) + PenaltyEntry(d, lam, lamD, k))
  }

  function Move(theta: Vec, target: Vec): (delta: Vec)
    requires |theta| == |target|
    ensures |delta| == |theta| && forall k :: 0 <= k < |delta| ==> delta[k] == target[k] - theta[k]
  {
    seq(|theta|, k requires 0 <= k < |theta| => target[k] - theta[k])
  }

  /** || w * (jac delta) ||^2 over the training rows: twice the exact remainder. */
  function Curvature(jac: Matrix, delta: Vec, d: ProducerData, n: nat): real
    requires d.Valid() && n <= d.Steps() && Shape(jac, d.Steps(), |delta|)
  {
    if n == 0 then 0.0
    else Curvature(jac, delta, d, n - 1) + Square(RowStep(jac, delta, d, n - 1))
  }

  // ---------------------------------------------------------------- the exact expansion

  /** The forward model is affine along delta: what holds when the time constants do not move. */
  ghost predicate MovesAlong(qhat: Vec, qhat': Vec, jac: Matrix, delta: Vec, d: ProducerData) {
    && d.Valid() && |qhat| == |qhat'| == d.Steps() && Shape(jac, d.Steps(), |delta|)
    && forall n {:trigger qhat'[n]} :: 0 <= n < d.Steps() ==> qhat'[n] == qhat[n] + Dot(jac[n], delta, |delta|)
  }

  /** How far the weighted prediction at one row moves along delta. */
  function RowStep(jac: Matrix, delta: Vec, d: ProducerData, n: nat): real
    requires d.Valid() && n < d.Steps() && Shape(jac, d.Steps(), |delta|)
  {
    Times(d.w[n], Dot(jac[n], delta, |delta|))
  }

  /** sum_n v_n (jac_n . delta) */
  function Coupling(jac: Matrix, v: Vec, delta: Vec, n: nat): real
    requires n <= |v| && Shape(jac, |v|, |delta|)
  {
    if n == 0 then 0.0 else Coupling(jac, v, delta, n - 1) + Times(v[n - 1], Dot(delta, jac[n - 1], |delta|))
  }

  lemma {:induction false} CouplingIsGradient(jac: Matrix, v: Vec, delta: Vec, n: nat)
    requires n <= |v| && Shape(jac, |v|, |delta|)
    ensures Coupling(jac, v, delta, n) == Dot(delta, ErrorGradient(jac, v, n, |delta|), |delta|)
  {
    var len := |delta|;
    var g := ErrorGradient(jac, v, n, len);
    if n == 0 {
      DotZero(delta, g, len);
    } else {
      CouplingIsGradient(jac, v, delta, n - 1);
      DotAddScaled(delta, g, ErrorGradient(jac, v, n - 1, len), jac[n - 1], v[n - 1], len);
    }
  }

  lemma SquareOfSum(r: real, w: real, m: real, step: real, sum: real)
    requires sum == r + step && step == Times(w, m)
    ensures Square(sum) == Square(r) + 2.0 * Times(Times(r, w), m) + Square(step)
  {
  }

  lemma TimesAdd(a: real, b: real, w: real, sum: real)
    requires sum == a + b
    ensures Times(sum, w) == Times(a, w) + Times(w, b)
  {
  }

  lemma ResidualShift(qhat: Vec, qhat': Vec, jac: Matrix, delta: Vec, d: ProducerData, n: nat)
    requires MovesAlong(qhat, qhat', jac, delta, d) && n < d.Steps()
    ensures Residual(qhat', d, n) == Residual(qhat, d, n) + RowStep(jac, delta, d, n)
  {
    var move := Dot(jac[n], delta, |delta|);
    assert qhat'[n] == qhat[n] + move;
    TimesAdd(qhat[n] - d.q[n], move, d.w[n], qhat'[n] - d.q[n]);
  }

  lemma RowExpansion(qhat: Vec, qhat': Vec, jac: Matrix, delta: Vec, d: ProducerData, n: nat)
    requires MovesAlong(qhat, qhat', jac, delta, d) && n < d.Steps()
    ensures Square(Residual(qhat', d, n)) ==
            Square(Residual(qhat, d, n))
            + 2.0 * Times(WeightedResiduals(qhat, d)[n], Dot(delta, jac[n], |delta|)) + Square(RowStep(jac, delta, d, n))
  {
    ResidualShift(qhat, qhat', jac, delta, d, n);
    DotSymmetric(delta, jac[n], |delta|);
    var r, step := Residual(qhat, d, n), RowStep(jac, delta, d, n);
    SquareOfSum(r, d.w[n], Dot(jac[n], delta, |delta|), step, Residual(qhat', d, n));
  }

  lemma {:induction false} ErrorExpansion(qhat: Vec, qhat': Vec, jac: Matrix, delta: Vec, d: ProducerData, n: nat)
    requires MovesAlong(qhat, qhat', jac, delta, d) && n <= d.Steps()
    ensures SquaredError(qhat', d, n) ==
            SquaredError(qhat, d, n) + 2.0 * Coupling(jac, WeightedResiduals(qhat, d), delta, n)
            + Curvature(jac, delta, d, n)
  {
    if n > 0 {
      ErrorExpansion(qhat, qhat', jac, delta, d, n - 1);
      RowExpansion(qhat, qhat', jac, delta, d, n - 1);
    }
  }

  /** val(theta + delta) = val(theta) + grad . delta + (1/2) || w * (jac delta) ||^2, penalties included. */
  lemma ExactExpansion(
      qhat: Vec, qhat': Vec, jac: Matrix, theta: Vec, theta': Vec, d: ProducerData, lam: real, lamD: real)
    requires |theta| == |theta'| && MovesAlong(qhat, qhat', jac, Move(theta, theta'), d)
    ensures Value(qhat', theta', d, lam, lamD) ==
            Value(qhat, theta, d, lam, lamD)
            + Dot(Move(theta, theta'), Gradient(jac, qhat, theta, d, lam, lamD), |theta|)
            + 0.5 * Curvature(jac, Move(theta, theta'), d, Rows(d))
  {
    var len, n, delta := |theta|, Rows(d), Move(theta, theta');
    var v := WeightedResiduals(qhat, d);
    var pen, g := Penalty(d, lam, lamD, len), ErrorGradient(jac, v, n, len);
    ErrorExpansion(qhat, qhat', jac, delta, d, n);
    CouplingIsGradient(jac, v, delta, n);
    DotAddScaled(delta, Gradient(jac, qhat, theta, d, lam, lamD), g, pen, 1.0, len);
    DotAddScaled(pen, theta', theta, delta, 1.0, len);
    DotSymmetric(pen, delta, len);
  }

  lemma {:induction false} CurvatureNonNegative(jac: Matrix, delta: Vec, d: ProducerData, n: nat)
    requires d.Valid() && n <= d.Steps() && Shape(jac, d.Steps(), |delta|)
    ensures Curvature(jac, delta, d, n) >= 0.0
  {
    if n > 0 {
      CurvatureNonNegative(jac, delta, d, n - 1);
      var s := RowStep(jac, delta, d, n - 1);
      SquareNonNegative(s, Square(s));
    }
  }

  // ---------------------------------------------------------------- what the value is made of

  /** (w (p - q))^2, entry by entry. */
  function WeightedSquares(p: Vec, q: Vec, w: Vec): (s: Vec)
    requires |p| == |q| == |w|
    ensures |s| == |p| && forall n :: 0 <= n < |s| ==> s[n] == Square(Times(w[n], p[n] - q[n]))
  {
    seq(|p|, n requires 0 <= n < |p| => Square(Times(w[n], p[n] - q[n])))
  }

  lemma {:induction false} ErrorIsSum(qhat: Vec, d: ProducerData, s: Vec, n: nat)
    requires d.Valid() && |qhat| == d.Steps() && n <= |s| <= d.Steps()
    requires forall r :: 0 <= r < |s| ==> s[r] == Square(Times(d.w[r], qhat[r] - d.q[r]))
    ensures SquaredError(qhat, d, n) == Sum(s, n)
  {
    if n > 0 {
      ErrorIsSum(qhat, d, s, n - 1);
    }
  }

  /** The training part is half the sum of the weighted squares of the first n_train rows, and of no other. */
  lemma TrainingError(qhat: Vec, d: ProducerData)
    requires d.Valid() && |qhat| == d.Steps() && d.nTrain <= d.Steps()
    ensures SquaredError(qhat, d, Rows(d)) ==
            Sum(WeightedSquares(qhat[..d.nTrain], d.q[..d.nTrain], d.w[..d.nTrain]), d.nTrain)
  {
    ErrorIsSum(qhat, d, WeightedSquares(qhat[..d.nTrain], d.q[..d.nTrain], d.w[..d.nTrain]), d.nTrain);
  }

  lemma PenaltyStep(a: real, sum: real, x: real, c: real, dot: real, y: real, entry: real)
    requires entry == a + Times(c, y)
    ensures Times(a, sum) + Times(c, dot) + Times(entry, x) == Times(a, sum + x) + Times(c, dot + Times(y, x))
  {
    assert (a + c * y) * x == a * x + c * (y * x);
    assert a * (sum + x) == a * sum + a * x;
    assert c * (dot + y * x) == c * dot + c * (y * x);
  }

  lemma DotNext(a: Vec, b: Vec, n: nat)
    requires 0 < n <= |a| && n <= |b|
    ensures Dot(a, b, n) == Dot(a, b, n - 1) + Times(a[n - 1], b[n - 1])
  {
  }

  lemma {:induction false} PenaltyTotal(pen: Vec, theta: Vec, dist: Vec, a: real, c: real, n: nat)
    requires n <= |pen| && n <= |theta| && n <= |dist| && forall k :: 0 <= k < n ==> pen[k] == a + Times(c, dist[k])
    ensures Dot(pen, theta, n) == Times(a, Sum(theta, n)) + Times(c, Dot(dist, theta, n))
  {
    if n > 0 {
      PenaltyTotal(pen, theta, dist, a, c, n - 1);
      var x, y, entry, sum, dot := theta[n - 1], dist[n - 1], pen[n - 1], Sum(theta, n - 1), Dot(dist, theta, n - 1);
      DotNext(pen, theta, n);
      DotNext(dist, theta, n);
      assert Times(a, sum) + Times(c, dot) + Times(entry, x) == Times(a, sum + x) + Times(c, dot + Times(y, x)) by {
        PenaltyStep(a, sum, x, c, dot, y, entry);
      }
    }
  }

  lemma QuotientFirst(a: real, y: real, scale: real)
    requires scale > 0.0
    ensures a * y / scale == Times(a / scale, y)
  {
    assert a * y / scale * scale == a * y;
    assert a / scale * scale == a;
    assert a / scale * y * scale == a / scale * scale * y;
  }

  /** The weight of one allocation: lam, and its distance over the scale, as far as the penalties are switched on. */
  lemma PenaltyEntryIs(d: ProducerData, lam: real, lamD: real, dist: Vec, scale: real, k: nat)
    requires d.Valid() && k < d.ni == |dist| && scale > 0.0
    requires lamD > 0.0 && d.dist.Some? ==> dist == d.dist.value && scale == Max(Median(dist), 0.000000001)
    ensures PenaltyEntry(d, lam, lamD, k) ==
            Max(lam, 0.0) + Times(if lamD > 0.0 && d.dist.Some? then lamD / scale else 0.0, dist[k])
  {
    if lamD > 0.0 && d.dist.Some? {
      QuotientFirst(lamD, dist[k], scale);
    }
  }

  lemma {:induction false} NoPenaltyBeyond(d: ProducerData, lam: real, lamD: real, theta: Vec, n: nat)
    requires d.Valid() && d.ni <= n <= |theta|
    ensures Dot(Penalty(d, lam, lamD, |theta|), theta, n) == Dot(Penalty(d, lam, lamD, |theta|), theta, d.ni)
  {
    if n > d.ni {
      NoPenaltyBeyond(d, lam, lamD, theta, n - 1);
    }
  }

  /**
   The value in full: half the weighted squares of the training rows, the allocations weighted by lam, and the
   allocations weighted by distance over the middle distance, each penalty only when its weight is positive.
   */
  lemma ValueInFull(qhat: Vec, theta: Vec, d: ProducerData, lam: real, lamD: real)
    requires d.Valid() && |qhat| == d.Steps() && d.nTrain <= d.Steps() && d.ni <= |theta|
    ensures var s := WeightedSquares(qhat[..d.nTrain], d.q[..d.nTrain], d.w[..d.nTrain]);
            && (lamD <= 0.0 || d.dist.None? || d.ni == 0 ==>
                  Value(qhat, theta, d, lam, lamD) == 0.5 * Sum(s, |s|) + Times(Max(lam, 0.0), Sum(theta, d.ni)))
            && (lamD > 0.0 && d.dist.Some? && d.ni > 0 ==>
                  exists middle: real :: IsMiddle(d.dist.value, middle)
                    && Value(qhat, theta, d, lam, lamD) ==
                       0.5 * Sum(s, |s|) + Times(Max(lam, 0.0), Sum(theta, d.ni))
                       + Times(lamD / Max(middle, 0.000000001), Dot(d.dist.value, theta, d.ni)))
  {
    TrainingError(qhat, d);
    NoPenaltyBeyond(d, lam, lamD, theta, |theta|);
    var on := lamD > 0.0 && d.dist.Some? && d.ni > 0;
    var dist := if on then d.dist.value else seq(d.ni, _ => 0.0);
    var scale := if on then Max(Median(dist), 0.000000001) else 1.0;
    var c := if lamD > 0.0 && d.dist.Some? then lamD / scale else 0.0;
    forall k | 0 <= k < d.ni
      ensures Penalty(d, lam, lamD, |theta|)[k] == Max(lam, 0.0) + Times(c, dist[k])
    {
      PenaltyEntryIs(d, lam, lamD, dist, scale, k);
    }
    PenaltyTotal(Penalty(d, lam, lamD, |theta|), theta, dist, Max(lam, 0.0), c, d.ni);
    if on {
      MedianIsMiddle(dist);
    }
  }

  lemma {:induction false} SameError(qhat: Vec, d: ProducerData, d': ProducerData, n: nat)
    requires d.Valid() && d'.Valid() && d'.Steps() == d.Steps() == |qhat| && n <= d.Steps()
    requires forall r :: 0 <= r < n ==> d'.q[r] == d.q[r] && d'.w[r] == d.w[r]
    ensures SquaredError(qhat, d, n) == SquaredError(qhat, d', n)
  {
    if n > 0 {
      SameError(qhat, d, d', n - 1);
    }
  }

  lemma {:induction false} SameEntry(jac: Matrix, v: Vec, v': Vec, n: nat, k: nat)
    requires n <= |v| == |v'| == |jac| && forall r :: 0 <= r < |jac| ==> k < |jac[r]|
    requires forall r :: 0 <= r < n ==> v[r] == v'[r]
    ensures GradientEntry(jac, v, n, k) == GradientEntry(jac, v', n, k)
  {
    if n > 0 {
      SameEntry(jac, v, v', n - 1, k);
    }
  }

  /** Neither value nor gradient looks at what was measured, or how it is weighted, from step n_train on. */
  lemma BlindRowsIgnored(jac: Matrix, qhat: Vec, theta: Vec, d: ProducerData, d': ProducerData, lam: real, lamD: real)
    requires d.Valid() && d'.Valid() && d' == d.(q := d'.q, w := d'.w)
    requires |qhat| == d.Steps() && Shape(jac, d.Steps(), |theta|)
    requires forall n :: 0 <= n < d.nTrain && n < d.Steps() ==> d'.q[n] == d.q[n] && d'.w[n] == d.w[n]
    ensures Value(qhat, theta, d, lam, lamD) == Value(qhat, theta, d', lam, lamD)
    ensures Gradient(jac, qhat, theta, d, lam, lamD) == Gradient(jac, qhat, theta, d', lam, lamD)
  {
    SameError(qhat, d, d', Rows(d));
    var pen, pen' := Penalty(d, lam, lamD, |theta|), Penalty(d', lam, lamD, |theta|);
    forall k | 0 <= k < |theta|
      ensures pen[k] == pen'[k]
    {
      assert PenaltyEntry(d, lam, lamD, k) == PenaltyEntry(d', lam, lamD, k);
    }
    assert pen == pen';
    var g, g' := Gradient(jac, qhat, theta, d, lam, lamD), Gradient(jac, qhat, theta, d', lam, lamD);
    forall k | 0 <= k < |theta|
      ensures g[k] == g'[k]
    {
      SameEntry(jac, WeightedResiduals(qhat, d), WeightedResiduals(qhat, d'), Rows(d), k);
    }
  }

  // ---------------------------------------------------------------- sign conditions

  ghost predicate InBox(theta: Vec, lo: Vec, hi: Vec) {
    |lo| == |hi| == |theta| && forall k :: 0 <= k < |theta| ==> lo[k] <= theta[k] <= hi[k]
  }

  /** The gradient points out of the box wherever it does not vanish, in every direction that may move. */
  ghost predicate SignConditions(theta: Vec, grad: Vec, lo: Vec, hi: Vec, fixed: set<nat>)
    requires |grad| == |theta| == |lo| == |hi|
  {
    forall k :: 0 <= k < |theta| && k !in fixed ==>
      (theta[k] < hi[k] ==> grad[k] >= 0.0) && (theta[k] > lo[k] ==> grad[k] <= 0.0)
  }

  lemma {:induction false} SlopeNonNegative(theta: Vec, theta': Vec, grad: Vec, lo: Vec, hi: Vec, fixed: set<nat>, n: nat)
    requires |grad| == |theta| == |theta'| && InBox(theta, lo, hi) && InBox(theta', lo, hi) && n <= |theta|
    requires SignConditions(theta, grad, lo, hi, fixed)
    requires forall k :: 0 <= k < |theta| && k in fixed ==> theta[k] == theta'[k]
    ensures Dot(Move(theta, theta'), grad, n) >= 0.0
  {
    if n > 0 {
      SlopeNonNegative(theta, theta', grad, lo, hi, fixed, n - 1);
      var k := n - 1;
      var delta := theta'[k] - theta[k];
      if delta > 0.0 {
        MulNonNegative(delta, grad[k], delta * grad[k]);
      } else if delta < 0.0 {
        MulNonNegative(-delta, -grad[k], delta * grad[k]);
      }
    }
  }

  /** Sufficiency: a box point meeting the sign conditions is no worse than any other with the same fixed entries. */
  lemma SignConditionsSuffice(
      qhat: Vec, qhat': Vec, jac: Matrix, theta: Vec, theta': Vec, d: ProducerData, lam: real, lamD: real,
      lo: Vec, hi: Vec, fixed: set<nat>)
    requires InBox(theta, lo, hi) && InBox(theta', lo, hi)
    requires forall k :: 0 <= k < |theta| && k in fixed ==> theta[k] == theta'[k]
    requires MovesAlong(qhat, qhat', jac, Move(theta, theta'), d)
    requires SignConditions(theta, Gradient(jac, qhat, theta, d, lam, lamD), lo, hi, fixed)
    ensures Value(qhat, theta, d, lam, lamD) <= Value(qhat', theta', d, lam, lamD)
  {
    ExactExpansion(qhat, qhat', jac, theta, theta', d, lam, lamD);
    SlopeNonNegative(theta, theta', Gradient(jac, qhat, theta, d, lam, lamD), lo, hi, fixed, |theta|);
    CurvatureNonNegative(jac, Move(theta, theta'), d, Rows(d));
  }
}
