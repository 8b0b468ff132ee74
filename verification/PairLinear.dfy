/**
 The CRMIP objective (waterflood_app/models/solver.py): with every pair's time constant fixed the rate moves exactly
 along its Jacobian, so the objective has the exact expansion and the box minimum of the CRMP one.
 */
module PairLinear {
  import opened Common
  import opened Crm
  import opened CrmForward
  import opened Crmip
  import opened PairForward
  import opened Objective
  import opened LinearForm
  import opened GlobalMinimum

  // ---------------------------------------------------------------- one pair

  /** The time constants of the pairs and of the primary term. */
  predicate IsPairTime(d: ProducerData, k: nat) {
    d.ni <= k < 2 * d.ni || k == 2 * d.ni + 1
  }

  ghost predicate SamePairTimes(theta: Vec, theta': Vec, d: ProducerData) {
    |theta| == |theta'| && forall k: nat :: k < |theta| && IsPairTime(d, k) ==> theta[k] == theta'[k]
  }

  /** The pair as a CRMP run of its own, in the tied layout. */
  function PairTheta(theta: Vec, d: ProducerData, i: nat): (t: Vec)
    requires d.Valid() && GoodPairTheta(theta, d) && i < d.ni
    ensures GoodTheta(t, PairData(d, i), true)
  {
    [theta[i], theta[d.ni + i]] + if d.HasJ() then [theta[2 * d.ni + 2 + i]] else []
  }

  lemma PairStateIsState(exp: Exp, theta: Vec, d: ProducerData, i: nat, n: nat)
    requires d.Valid() && GoodPairTheta(theta, d) && i < d.ni && n < d.Steps()
    ensures PairState(exp, theta, d, i, n) == State(exp, RealParams(PairTheta(theta, d, i), PairData(d, i), true), PairData(d, i), n)
  {
    var p, q := PairParams(theta, d, i, 0.0), RealParams(PairTheta(theta, d, i), PairData(d, i), true);
    assert p.f == q.f && p.tau == q.tau && p.J == q.J;
  }

  /** What pair i contributes to a move: its allocation and its productivity. */
  function PairStep(row: Vec, delta: Vec, d: ProducerData, i: nat): real
    requires |row| == |delta| == PairThetaLength(d) && i < d.ni
  {
    Times(row[i], delta[i]) + if d.HasJ() then Times(row[2 * d.ni + 2 + i], delta[2 * d.ni + 2 + i]) else 0.0
  }

  /** The entries of pair i: its allocation column and its productivity column. */
  ghost predicate HasEntries(row: Vec, exp: Exp, theta: Vec, d: ProducerData, i: nat, n: nat)
    requires d.Valid() && GoodPairTheta(theta, d) && i < d.ni && n < d.Steps() && |row| == |theta|
  {
    && row[i] == PairEntry(exp, theta, d, i, n, i)
    && (d.HasJ() ==> row[2 * d.ni + 2 + i] == PairEntry(exp, theta, d, i, n, 2 * d.ni + 2 + i))
  }

  /** row is the hand-written Jacobian row of an open step. */
  ghost predicate IsOpenRow(row: Vec, exp: Exp, theta: Vec, d: ProducerData, n: nat)
    requires d.Valid() && GoodPairTheta(theta, d) && n < d.Steps()
  {
    && |row| == |theta|
    && (forall i {:trigger HasEntries(row, exp, theta, d, i, n)} :: 0 <= i < d.ni ==> HasEntries(row, exp, theta, d, i, n))
    && row[2 * d.ni] == d.q0 * exp[-d.t[n] / theta[2 * d.ni + 1]]
  }

  lemma OpenRowOf(row: Vec, exp: Exp, theta: Vec, d: ProducerData, n: nat)
    requires d.Valid() && GoodPairTheta(theta, d) && n < d.Steps() && d.Open(n) && IsPairJacobianRow(row, exp, theta, d, n)
    ensures IsOpenRow(row, exp, theta, d, n)
  {
    forall k: nat | k < |theta|
      ensures row[k] == PairJacobianEntry(exp, theta, d, n, k)
    {
      PairJacobianIsExact(exp, theta, d, n, k);
      assert row[k] == PairSlope(exp, theta, d, n, k);
    }
    forall i: nat {:trigger HasEntries(row, exp, theta, d, i, n)} | i < d.ni
      ensures HasEntries(row, exp, theta, d, i, n)
    {
      assert row[i] == PairJacobianEntry(exp, theta, d, n, i);
      if d.HasJ() {
        assert row[2 * d.ni + 2 + i] == PairJacobianEntry(exp, theta, d, n, 2 * d.ni + 2 + i);
      }
    }
    assert row[2 * d.ni] == PairJacobianEntry(exp, theta, d, n, 2 * d.ni);
  }

  /** The three entries of pair i's own Jacobian row; the tau entry is not used. */
  function PairRow(row: Vec, d: ProducerData, i: nat): (r: Vec)
    requires |row| == PairThetaLength(d) && i < d.ni
    ensures |r| == 2 + if d.HasJ() then 1 else 0
  {
    [row[i], 0.0] + if d.HasJ() then [row[2 * d.ni + 2 + i]] else []
  }

  lemma PairStateMoves(exp: Exp, theta: Vec, theta': Vec, d: ProducerData, row: Vec, i: nat, n: nat)
    requires d.Valid() && GoodPairTheta(theta, d) && GoodPairTheta(theta', d) && n < d.Steps() && i < d.ni
    requires SamePairTimes(theta, theta', d) && IsOpenRow(row, exp, theta, d, n)
    ensures PairState(exp, theta', d, i, n) == PairState(exp, theta, d, i, n) + PairStep(row, Move(theta, theta'), d, i)
  {
    var pair := PairData(d, i);
    var t, t', r := PairTheta(theta, d, i), PairTheta(theta', d, i), PairRow(row, d, i);
    assert IsPairTime(d, d.ni + i);
    assert SameTimeConstants(t, t', pair, true);
    assert HasEntries(row, exp, theta, d, i, n);
    StateMoves(exp, t, t', pair, true, r, n);
    PairStateIsState(exp, theta, d, i, n);
    PairStateIsState(exp, theta', d, i, n);
    DotOfFirst(r, Move(t, t'));
  }

  lemma DotOfFirst(a: Vec, b: Vec)
    requires |a| > 0 && |b| > 0
    ensures Dot(a, b, 1) == Times(a[0], b[0])
  {
    assert Dot(a, b, 0) == 0.0;
  }

  // ---------------------------------------------------------------- all pairs

  /** Sum of the first m pairs' contributions. */
  function PairSteps(row: Vec, delta: Vec, d: ProducerData, m: nat): real
    requires |row| == |delta| == PairThetaLength(d) && m <= d.ni
  {
    if m == 0 then 0.0 else PairSteps(row, delta, d, m - 1) + PairStep(row, delta, d, m - 1)
  }

  lemma {:induction false} SumMoves(row: Vec, delta: Vec, d: ProducerData, m: nat, x: Vec, x': Vec)
    requires |row| == |delta| == PairThetaLength(d) && m <= d.ni == |x| == |x'|
    requires forall i :: 0 <= i < d.ni ==> x'[i] == x[i] + PairStep(row, delta, d, i)
    ensures Sum(x', m) == Sum(x, m) + PairSteps(row, delta, d, m)
  {
    if m > 0 {
      SumMoves(row, delta, d, m - 1, x, x');
    }
  }

  lemma PairStatesMove(exp: Exp, theta: Vec, theta': Vec, d: ProducerData, row: Vec, n: nat, x: Vec, x': Vec)
    requires d.Valid() && GoodPairTheta(theta, d) && GoodPairTheta(theta', d) && n < d.Steps()
    requires SamePairTimes(theta, theta', d) && IsOpenRow(row, exp, theta, d, n)
    requires x == PairStates(exp, theta, d, n) && x' == PairStates(exp, theta', d, n)
    ensures Sum(x', d.ni) == Sum(x, d.ni) + PairSteps(row, Move(theta, theta'), d, d.ni)
  {
    forall i | 0 <= i < d.ni
      ensures x'[i] == x[i] + PairStep(row, Move(theta, theta'), d, i)
    {
      EntryMoves(exp, theta, theta', d, row, n, i, x, x');
    }
    SumMoves(row, Move(theta, theta'), d, d.ni, x, x');
  }

  lemma EntryMoves(exp: Exp, theta: Vec, theta': Vec, d: ProducerData, row: Vec, n: nat, i: nat, x: Vec, x': Vec)
    requires d.Valid() && GoodPairTheta(theta, d) && GoodPairTheta(theta', d) && n < d.Steps() && i < d.ni
    requires SamePairTimes(theta, theta', d) && IsOpenRow(row, exp, theta, d, n)
    requires x == PairStates(exp, theta, d, n) && x' == PairStates(exp, theta', d, n)
    ensures x'[i] == x[i] + PairStep(row, Move(theta, theta'), d, i)
  {
    assert x[i] == PairState(exp, theta, d, i, n) by {
      StatesEntry(exp, theta, d, i, n, x);
    }
    assert x'[i] == PairState(exp, theta', d, i, n) by {
      StatesEntry(exp, theta', d, i, n, x');
    }
    PairStateMoves(exp, theta, theta', d, row, i, n);
  }

  lemma StatesEntry(exp: Exp, theta: Vec, d: ProducerData, i: nat, n: nat, x: Vec)
    requires d.Valid() && GoodPairTheta(theta, d) && n < d.Steps() && i < d.ni && x == PairStates(exp, theta, d, n)
    ensures x[i] == PairState(exp, theta, d, i, n)
  {
  }

  /** Inner product over lo <= i < lo + n. */
  function DotRange(a: Vec, b: Vec, lo: nat, n: nat): real
    requires lo + n <= |a| && lo + n <= |b|
  {
    if n == 0 then 0.0 else DotRange(a, b, lo, n - 1) + Times(a[lo + n - 1], b[lo + n - 1])
  }

  lemma {:induction false} DotSplit(a: Vec, b: Vec, lo: nat, n: nat)
    requires lo + n <= |a| && lo + n <= |b|
    ensures Dot(a, b, lo + n) == Dot(a, b, lo) + DotRange(a, b, lo, n)
  {
    if n > 0 {
      DotSplit(a, b, lo, n - 1);
    }
  }

  lemma {:induction false} RangeOfZero(a: Vec, b: Vec, lo: nat, n: nat)
    requires lo + n <= |a| && lo + n <= |b| && forall i :: lo <= i < lo + n ==> b[i] == 0.0
    ensures DotRange(a, b, lo, n) == 0.0
  {
    if n > 0 {
      RangeOfZero(a, b, lo, n - 1);
    }
  }

  lemma {:induction false} PairStepsAreRanges(row: Vec, delta: Vec, d: ProducerData, m: nat)
    requires |row| == |delta| == PairThetaLength(d) && m <= d.ni
    ensures PairSteps(row, delta, d, m) ==
            DotRange(row, delta, 0, m) + if d.HasJ() then DotRange(row, delta, 2 * d.ni + 2, m) else 0.0
  {
    if m > 0 {
      PairStepsAreRanges(row, delta, d, m - 1);
    }
  }

  /** A move that leaves the time constants alone, column by column. */
  lemma DotOfMove(row: Vec, delta: Vec, d: ProducerData)
    requires |row| == |delta| == PairThetaLength(d)
    requires forall k: nat :: k < |delta| && IsPairTime(d, k) ==> delta[k] == 0.0
    ensures Dot(row, delta, |row|) == PairSteps(row, delta, d, d.ni) + Times(row[2 * d.ni], delta[2 * d.ni])
  {
    DotSplit(row, delta, 0, d.ni);
    DotSplit(row, delta, d.ni, d.ni);
    RangeOfZero(row, delta, d.ni, d.ni);
    DotSplit(row, delta, 2 * d.ni, 2);
    assert IsPairTime(d, 2 * d.ni + 1);
    PrimaryRange(row, delta, 2 * d.ni);
    if d.HasJ() {
      DotSplit(row, delta, 2 * d.ni + 2, d.ni);
    }
    PairStepsAreRanges(row, delta, d, d.ni);
  }

  lemma PrimaryRange(row: Vec, delta: Vec, lo: nat)
    requires lo + 2 <= |row| && lo + 2 <= |delta| && delta[lo + 1] == 0.0
    ensures DotRange(row, delta, lo, 2) == Times(row[lo], delta[lo])
  {
    assert DotRange(row, delta, lo, 0) == 0.0;
    assert DotRange(row, delta, lo, 1) == Times(row[lo], delta[lo]);
  }

  lemma PairPrimaryMoves(exp: Exp, theta: Vec, theta': Vec, d: ProducerData, row: Vec, n: nat)
    requires d.Valid() && GoodPairTheta(theta, d) && GoodPairTheta(theta', d) && n < d.Steps()
    requires SamePairTimes(theta, theta', d) && IsOpenRow(row, exp, theta, d, n)
    ensures Primary(exp, theta', d, n) == Primary(exp, theta, d, n) + Times(row[2 * d.ni], Move(theta, theta')[2 * d.ni])
  {
    assert IsPairTime(d, 2 * d.ni + 1);
    PrimaryMoves(theta[2 * d.ni], theta'[2 * d.ni], d.q0, exp[-d.t[n] / theta[2 * d.ni + 1]], Move(theta, theta')[2 * d.ni]);
  }

  lemma PairRateParts(exp: Exp, theta: Vec, d: ProducerData, n: nat, primary: real, x: Vec)
    requires d.Valid() && GoodPairTheta(theta, d) && n < d.Steps() && d.Open(n)
    requires primary == Primary(exp, theta, d, n) && x == PairStates(exp, theta, d, n)
    ensures PairRate(exp, theta, d, n) == primary + Sum(x, d.ni)
  {
  }

  /** qhat(theta + delta) = qhat(theta) + jac . delta, exactly, while the time constants stay. */
  lemma PairRateMoves(exp: Exp, theta: Vec, theta': Vec, d: ProducerData, row: Vec, n: nat)
    requires d.Valid() && GoodPairTheta(theta, d) && GoodPairTheta(theta', d) && n < d.Steps()
    requires SamePairTimes(theta, theta', d) && IsPairJacobianRow(row, exp, theta, d, n)
    ensures PairRate(exp, theta', d, n) == PairRate(exp, theta, d, n) + Dot(row, Move(theta, theta'), |theta|)
  {
    var delta := Move(theta, theta');
    if d.Open(n) {
      OpenRowOf(row, exp, theta, d, n);
      var x, x' := PairStates(exp, theta, d, n), PairStates(exp, theta', d, n);
      var p, p' := Primary(exp, theta, d, n), Primary(exp, theta', d, n);
      PairStatesMove(exp, theta, theta', d, row, n, x, x');
      PairPrimaryMoves(exp, theta, theta', d, row, n);
      PairRateParts(exp, theta, d, n, p, x);
      PairRateParts(exp, theta', d, n, p', x');
      DotOfMove(row, delta, d);
    } else {
      forall k | 0 <= k < |theta|
        ensures row[k] == 0.0
      {
        assert row[k] == PairSlope(exp, theta, d, n, k);
      }
      DotZero(delta, row, |theta|);
      DotSymmetric(delta, row, |theta|);
    }
  }

  // ---------------------------------------------------------------- the objective

  function PairRates(exp: Exp, theta: Vec, d: ProducerData): (q: Vec)
    requires d.Valid() && GoodPairTheta(theta, d)
    ensures |q| == d.Steps()
    ensures forall n {:trigger q[n]} :: 0 <= n < |q| ==> q[n] == PairRate(exp, theta, d, n)
  {
    seq(d.Steps(), n requires 0 <= n < d.Steps() => PairRate(exp, theta, d, n))
  }

  function PairSlopes(exp: Exp, theta: Vec, d: ProducerData): (jac: Matrix)
    requires d.Valid() && GoodPairTheta(theta, d)
    ensures Shape(jac, d.Steps(), |theta|)
    ensures forall n, k {:trigger jac[n][k]} :: 0 <= n < d.Steps() && 0 <= k < |theta| ==>
      jac[n][k] == PairSlope(exp, theta, d, n, k)
  {
    seq(d.Steps(), n requires 0 <= n < d.Steps() =>
      seq(|theta|, k requires 0 <= k < |theta| => PairSlope(exp, theta, d, n, k)))
  }

  function PairObjective(exp: Exp, theta: Vec, d: ProducerData, lam: real, lamD: real): real
    requires d.Valid() && GoodPairTheta(theta, d)
  {
    Value(PairRates(exp, theta, d), theta, d, lam, lamD)
  }

  function PairGradient(exp: Exp, theta: Vec, d: ProducerData, lam: real, lamD: real): (g: Vec)
    requires d.Valid() && GoodPairTheta(theta, d)
    ensures |g| == |theta|
  {
    Gradient(PairSlopes(exp, theta, d), PairRates(exp, theta, d), theta, d, lam, lamD)
  }

  /** The objective and its gradient, assembled from the CRMIP forward model's own outputs. */
  method EvaluatePairObjective(exp: Exp, theta: Vec, d: ProducerData, lam: real, lamD: real) returns (val: real, grad: Vec)
    requires d.Valid() && GoodPairTheta(theta, d)
    ensures val == PairObjective(exp, theta, d, lam, lamD)
    ensures grad == PairGradient(exp, theta, d, lam, lamD)
  {
    var qhat, jac := CrmipForward(exp, theta, d, true);
    assert qhat == PairRates(exp, theta, d) by {
      forall n | 0 <= n < d.Steps()
        ensures qhat[n] == PairRates(exp, theta, d)[n]
      {
        assert qhat[n] == PairRate(exp, theta, d, n);
      }
    }
    assert jac.value == PairSlopes(exp, theta, d) by {
      forall n | 0 <= n < d.Steps()
        ensures jac.value[n] == PairSlopes(exp, theta, d)[n]
      {
        SamePairRow(exp, theta, d, jac.value[n], n);
      }
    }
    val := Value(qhat, theta, d, lam, lamD);
    grad := Gradient(jac.value, qhat, theta, d, lam, lamD);
  }

  lemma SamePairRow(exp: Exp, theta: Vec, d: ProducerData, row: Vec, n: nat)
    requires d.Valid() && GoodPairTheta(theta, d) && n < d.Steps() && IsPairJacobianRow(row, exp, theta, d, n)
    ensures row == PairSlopes(exp, theta, d)[n]
  {
    forall k | 0 <= k < |theta|
      ensures row[k] == PairSlopes(exp, theta, d)[n][k]
    {
      assert row[k] == PairSlope(exp, theta, d, n, k);
    }
  }

  lemma PairsMoveAlong(exp: Exp, theta: Vec, theta': Vec, d: ProducerData)
    requires d.Valid() && GoodPairTheta(theta, d) && GoodPairTheta(theta', d) && SamePairTimes(theta, theta', d)
    ensures MovesAlong(PairRates(exp, theta, d), PairRates(exp, theta', d), PairSlopes(exp, theta, d), Move(theta, theta'), d)
  {
    var jac := PairSlopes(exp, theta, d);
    forall n | 0 <= n < d.Steps()
      ensures PairRates(exp, theta', d)[n] == PairRates(exp, theta, d)[n] + Dot(jac[n], Move(theta, theta'), |theta|)
    {
      assert IsPairJacobianRow(jac[n], exp, theta, d, n);
      PairRateMoves(exp, theta, theta', d, jac[n], n);
    }
  }

  /** val(theta + delta) = val(theta) + grad . delta + (1/2) || w * (jac delta) ||^2 for fixed time constants. */
  lemma PairObjectiveExpansion(exp: Exp, theta: Vec, theta': Vec, d: ProducerData, lam: real, lamD: real)
    requires d.Valid() && GoodPairTheta(theta, d) && GoodPairTheta(theta', d) && SamePairTimes(theta, theta', d)
    ensures PairObjective(exp, theta', d, lam, lamD) ==
            PairObjective(exp, theta, d, lam, lamD)
            + Dot(Move(theta, theta'), PairGradient(exp, theta, d, lam, lamD), |theta|)
            + 0.5 * Curvature(PairSlopes(exp, theta, d), Move(theta, theta'), d, Rows(d))
  {
    PairsMoveAlong(exp, theta, theta', d);
    ExactExpansion(PairRates(exp, theta, d), PairRates(exp, theta', d), PairSlopes(exp, theta, d), theta, theta', d, lam, lamD);
  }

  // ---------------------------------------------------------------- the box minimum

  /** The entries that stay. */
  function PairTimes(d: ProducerData): (s: set<nat>)
    ensures forall k: nat :: k in s <==> IsPairTime(d, k)
  {
    set k: nat | k < 2 * d.ni + 2 && IsPairTime(d, k)
  }

  /** No point of the box with the same time constants has a smaller objective. */
  ghost predicate IsPairMinimum(exp: Exp, theta: Vec, d: ProducerData, lam: real, lamD: real, lo: Vec, hi: Vec)
    requires d.Valid() && GoodPairTheta(theta, d)
  {
    forall theta' {:trigger InBox(theta', lo, hi)} ::
      InBox(theta', lo, hi) && SamePairTimes(theta, theta', d) && GoodPairTheta(theta', d) ==>
        PairObjective(exp, theta, d, lam, lamD) <= PairObjective(exp, theta', d, lam, lamD)
  }

  lemma SufficientForPairs(exp: Exp, theta: Vec, d: ProducerData, lam: real, lamD: real, lo: Vec, hi: Vec)
    requires d.Valid() && GoodPairTheta(theta, d) && InBox(theta, lo, hi)
    requires SignConditions(theta, PairGradient(exp, theta, d, lam, lamD), lo, hi, PairTimes(d))
    ensures IsPairMinimum(exp, theta, d, lam, lamD, lo, hi)
  {
    forall theta' | InBox(theta', lo, hi) && SamePairTimes(theta, theta', d) && GoodPairTheta(theta', d)
      ensures PairObjective(exp, theta, d, lam, lamD) <= PairObjective(exp, theta', d, lam, lamD)
    {
      PairsMoveAlong(exp, theta, theta', d);
      SignConditionsSuffice(PairRates(exp, theta, d), PairRates(exp, theta', d), PairSlopes(exp, theta, d),
                            theta, theta', d, lam, lamD, lo, hi, PairTimes(d));
    }
  }

  function PairCurvatures(exp: Exp, theta: Vec, d: ProducerData): (c: Vec)
    requires d.Valid() && GoodPairTheta(theta, d)
    ensures |c| == |theta|
  {
    var jac := PairSlopes(exp, theta, d);
    seq(|theta|, k requires 0 <= k < |theta| => ColumnCurvature(jac, d, |theta|, k, Rows(d)))
  }

  /** One free coordinate may take any value without touching the time constants. */
  lemma FreeCoordinate(theta: Vec, d: ProducerData, k: nat, x: real)
    requires d.Valid() && GoodPairTheta(theta, d) && k < |theta| && !IsPairTime(d, k)
    ensures GoodPairTheta(theta[k := x], d) && SamePairTimes(theta, theta[k := x], d)
    ensures Move(theta, theta[k := x]) == Along(|theta|, k, x - theta[k])
  {
  }

  lemma ExpansionAlong(
      exp: Exp, theta: Vec, theta': Vec, d: ProducerData, lam: real, lamD: real, k: nat, s: real, grad: Vec, jac: Matrix)
    requires d.Valid() && GoodPairTheta(theta, d) && GoodPairTheta(theta', d) && SamePairTimes(theta, theta', d)
    requires k < |theta| && Move(theta, theta') == Along(|theta|, k, s)
    requires grad == PairGradient(exp, theta, d, lam, lamD) && jac == PairSlopes(exp, theta, d)
    ensures PairObjective(exp, theta', d, lam, lamD) ==
            PairObjective(exp, theta, d, lam, lamD) + Times(grad[k], s)
            + 0.5 * Times(Square(s), ColumnCurvature(jac, d, |theta|, k, Rows(d)))
  {
    var along, len := Along(|theta|, k, s), |theta|;
    PairObjectiveExpansion(exp, theta, theta', d, lam, lamD);
    assert Dot(along, grad, len) == Times(grad[k], s) by {
      DotSymmetric(along, grad, len);
      DotAlong(grad, k, s, len, len);
    }
    assert Curvature(jac, along, d, Rows(d)) == Times(Square(s), ColumnCurvature(jac, d, len, k, Rows(d))) by {
      CurvatureAlong(jac, d, len, k, s, Rows(d));
    }
  }

  /** Moving one free coordinate changes the objective by slope and curvature of that coordinate alone. */
  lemma PairCoordinateMove(exp: Exp, theta: Vec, d: ProducerData, lam: real, lamD: real, k: nat, x: real)
    requires d.Valid() && GoodPairTheta(theta, d) && k < |theta| && !IsPairTime(d, k)
    ensures GoodPairTheta(theta[k := x], d) && SamePairTimes(theta, theta[k := x], d)
    ensures PairObjective(exp, theta[k := x], d, lam, lamD) ==
            PairObjective(exp, theta, d, lam, lamD)
            + Times(PairGradient(exp, theta, d, lam, lamD)[k], x - theta[k])
            + 0.5 * Times(Square(x - theta[k]), PairCurvatures(exp, theta, d)[k])
  {
    FreeCoordinate(theta, d, k, x);
    ExpansionAlong(exp, theta, theta[k := x], d, lam, lamD, k, x - theta[k],
                   PairGradient(exp, theta, d, lam, lamD), PairSlopes(exp, theta, d));
  }

  lemma PairCurvaturesNonNegative(exp: Exp, theta: Vec, d: ProducerData)
    requires d.Valid() && GoodPairTheta(theta, d)
    ensures forall k :: 0 <= k < |theta| ==> PairCurvatures(exp, theta, d)[k] >= 0.0
  {
    forall k | 0 <= k < |theta|
      ensures PairCurvatures(exp, theta, d)[k] >= 0.0
    {
      CurvatureAlong(PairSlopes(exp, theta, d), d, |theta|, k, 0.0, Rows(d));
    }
  }

  lemma NecessaryForPairs(exp: Exp, theta: Vec, d: ProducerData, lam: real, lamD: real, lo: Vec, hi: Vec)
    requires d.Valid() && GoodPairTheta(theta, d) && InBox(theta, lo, hi)
    requires IsPairMinimum(exp, theta, d, lam, lamD, lo, hi)
    ensures SignConditions(theta, PairGradient(exp, theta, d, lam, lamD), lo, hi, PairTimes(d))
  {
    ghost var F := (th: Vec) => if GoodPairTheta(th, d) then PairObjective(exp, th, d, lam, lamD) else 0.0;
    var g, c := PairGradient(exp, theta, d, lam, lamD), PairCurvatures(exp, theta, d);
    forall k: nat, x {:trigger IsQuadraticAt(F, theta, g[k], c[k], k, x)} | k < |theta| && k !in PairTimes(d)
      ensures IsQuadraticAt(F, theta, g[k], c[k], k, x)
    {
      PairCoordinateMove(exp, theta, d, lam, lamD, k, x);
    }
    forall k: nat, x {:trigger theta[k := x]} | k < |theta| && k !in PairTimes(d) && lo[k] <= x <= hi[k]
      ensures F(theta) <= F(theta[k := x])
    {
      PairCoordinateMove(exp, theta, d, lam, lamD, k, x);
      StaysInBox(theta, lo, hi, k, x);
    }
    PairCurvaturesNonNegative(exp, theta, d);
    NecessaryForQuadratic(F, theta, g, c, lo, hi, PairTimes(d));
  }

  /** Meeting the sign conditions is the same as being a global minimum of the box at these time constants. */
  lemma PairSignConditionsIffMinimum(exp: Exp, theta: Vec, d: ProducerData, lam: real, lamD: real, lo: Vec, hi: Vec)
    requires d.Valid() && GoodPairTheta(theta, d) && InBox(theta, lo, hi)
    ensures SignConditions(theta, PairGradient(exp, theta, d, lam, lamD), lo, hi, PairTimes(d))
            <==> IsPairMinimum(exp, theta, d, lam, lamD, lo, hi)
  {
    if SignConditions(theta, PairGradient(exp, theta, d, lam, lamD), lo, hi, PairTimes(d)) {
      SufficientForPairs(exp, theta, d, lam, lamD, lo, hi);
    }
    if IsPairMinimum(exp, theta, d, lam, lamD, lo, hi) {
      NecessaryForPairs(exp, theta, d, lam, lamD, lo, hi);
    }
  }
}
