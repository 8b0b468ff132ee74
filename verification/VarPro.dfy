/**
 Variable projection (waterflood_app/models/solver.py, _design_crmp and _varpro_solve): for fixed time
 constants the linear parameters solve a bounded least-squares problem. The solver itself is an oracle;
 whatever coefficients it returns, the reported error is the model's own on an always-open history.
 */
module VarPro {
  import opened Common
  import opened Crm
  import opened CrmForward
  import opened Objective
  import opened LinearForm
  import opened GlobalMinimum

  type Mask = seq<bool>

  function AllOpen(m: nat): (o: Mask)
    ensures |o| == m && forall n :: 0 <= n < m ==> o[n]
  {
    seq(m, _ => true)
  }

  /** Every step after the first is a producing step: the condition the design relies on. */
  ghost predicate AlwaysOpen(d: ProducerData)
    requires d.Valid()
  {
    forall n :: 0 <= n < d.Steps() ==> d.Open(n)
  }

  // ---------------------------------------------------------------- the design columns

  ghost predicate IsDesign(c: Matrix, b: Option<Vec>, exp: Exp, tau: real, d: ProducerData)
    requires d.Valid() && tau != 0.0
  {
    && AreFilters(c, d.ni, Decays(exp, d.dt, tau), d.inj, AllOpen(d.Steps()))
    && b.Some? == d.HasJ()
    && (b.Some? ==> IsFilter(b.value, Decays(exp, d.dt, tau), PressureSource(tau, d), AllOpen(d.Steps())))
  }

  /** Filtered injections and pressure column for tau; shut-in steps are not looked at. */
  method DesignCrmp(exp: Exp, tau: real, d: ProducerData)
    returns (c: Matrix, b: Option<Vec>)
    requires d.Valid() && tau != 0.0
    ensures IsDesign(c, b, exp, tau, d)
  {
    var m, ni := d.Steps(), d.ni;
    var e := Decays(exp, d.dt, tau);
    var press := PressureSource(tau, d);
    ghost var C, B := DesignColumns(ni, e, d.inj, press);
    if m == 0 {
      return [], if d.HasJ() then Some([]) else None;
    }
    var ca := new Vec[m](_ => seq(ni, _ => 0.0));
    var ba := new real[m](_ => 0.0);
    DesignRow(C, B, ni, e, d.inj, press, 0);
    for n := 1 to m
      invariant forall r :: 0 <= r < n ==> ca[r] == C[r]
      invariant d.HasJ() ==> forall r :: 0 <= r < n ==> ba[r] == B[r]
    {
      DesignRow(C, B, ni, e, d.inj, press, n);
      ca[n] := LeakRow(ca[n - 1], e[n], d.inj[n]);
      if d.HasJ() {
        ba[n] := Leak(ba[n - 1], e[n], press[n]);
      }
    }
    c := ca[..];
    b := if d.HasJ() then Some(ba[..]) else None;
    assert c == C && (d.HasJ() ==> b.value == B);
  }

  lemma DesignColumns(ni: nat, e: Vec, inj: Matrix, press: Vec) returns (c: Matrix, b: Vec)
    requires |press| == |e| && Shape(inj, |e|, ni)
    ensures |c| == |b| == |e| && Shape(c, |e|, ni)
    ensures AreFilters(c, ni, e, inj, AllOpen(|e|)) && IsFilter(b, e, press, AllOpen(|e|))
  {
    c := FilterColumns(ni, e, inj, AllOpen(|e|));
    b := FilterColumn(e, press, AllOpen(|e|));
  }

  lemma DesignRow(c: Matrix, b: Vec, ni: nat, e: Vec, inj: Matrix, press: Vec, n: nat)
    requires |press| == |c| == |b| == |e| && Shape(inj, |e|, ni) && Shape(c, |e|, ni) && n < |e|
    requires AreFilters(c, ni, e, inj, AllOpen(|e|)) && IsFilter(b, e, press, AllOpen(|e|))
    ensures n == 0 ==> c[n] == seq(ni, _ => 0.0) && b[n] == 0.0
    ensures n > 0 ==> c[n] == LeakRow(c[n - 1], e[n], inj[n]) && b[n] == Leak(b[n - 1], e[n], press[n])
  {
    FilterRows(c, ni, e, inj, AllOpen(|e|), n);
    FilterRow(b, e, press, AllOpen(|e|), n);
  }

  lemma {:induction false} SameFilterWhenOpen(e: Vec, u: Vec, open: Mask, n: nat)
    requires |u| == |e| == |open| && n < |e| && forall r :: 0 < r <= n ==> open[r]
    ensures Filter(e, u, AllOpen(|e|), n) == Filter(e, u, open, n)
  {
    if n > 0 {
      SameFilterWhenOpen(e, u, open, n - 1);
    }
  }

  /** The vector with a one at k. */
  function Pulse(m: nat, k: nat): (u: Vec)
    ensures |u| == m && forall r :: 0 <= r < m ==> u[r] == if r == k then 1.0 else 0.0
  {
    seq(m, r => if r == k then 1.0 else 0.0)
  }

  /** The design column of u is the model's sensitivity at every step. */
  ghost predicate DesignAgrees(e: Vec, open: Mask, u: Vec)
    requires |e| == |open|
  {
    |u| == |e| ==> forall n :: 0 <= n < |e| ==> Filter(e, u, AllOpen(|e|), n) == Filter(e, u, open, n)
  }

  /** The design reproduces the model's sensitivities for every injection history exactly when no step is shut in. */
  lemma DesignAgreesIffOpen(e: Vec, open: Mask)
    requires |e| == |open| && forall n :: 0 < n < |e| ==> e[n] != 1.0
    ensures (forall u :: DesignAgrees(e, open, u)) <==> (forall n :: 0 < n < |e| ==> open[n])
  {
    if forall n :: 0 < n < |e| ==> open[n] {
      forall u
        ensures DesignAgrees(e, open, u)
      {
        if |u| == |e| {
          forall n | 0 <= n < |e|
            ensures Filter(e, u, AllOpen(|e|), n) == Filter(e, u, open, n)
          {
            SameFilterWhenOpen(e, u, open, n);
          }
        }
      }
    }
    forall n | 0 < n < |e| && !open[n]
      ensures !DesignAgrees(e, open, Pulse(|e|, n))
    {
      var u := Pulse(|e|, n);
      FilterOfZero(e, u, AllOpen(|e|), n - 1);
      FilterOfZero(e, u, open, n - 1);
      assert Filter(e, u, AllOpen(|e|), n) == Leak(0.0, e[n], 1.0);
      assert Filter(e, u, open, n) == 0.0;
    }
  }

  // ---------------------------------------------------------------- allowed pairs

  function Allowed(d: ProducerData): (a: Mask)
    requires d.Valid()
    ensures |a| == d.ni
  {
    if d.allowed.None? then AllOpen(d.ni) else d.allowed.value
  }

  function Count(a: Mask, n: nat): (k: nat)
    requires n <= |a|
  {
    if n == 0 then 0 else Count(a, n - 1) + if a[n - 1] then 1 else 0
  }

  /** The entries of allowed pairs. */
  function Select(v: Vec, a: Mask, n: nat): (s: Vec)
    requires n <= |a| && n <= |v|
    ensures |s| == Count(a, n)
  {
    if n == 0 then [] else if a[n - 1] then Select(v, a, n - 1) + [v[n - 1]] else Select(v, a, n - 1)
  }

  /** Coefficients put back in place, zero for disallowed pairs. */
  function Spread(beta: Vec, a: Mask, n: nat): (f: Vec)
    requires n <= |a| && Count(a, n) <= |beta|
    ensures |f| == n
  {
    if n == 0 then [] else Spread(beta, a, n - 1) + [if a[n - 1] then beta[Count(a, n - 1)] else 0.0]
  }

  /** Dropping the disallowed columns or zeroing their coefficients gives the same prediction. */
  lemma {:induction false} SelectSpread(c: Vec, beta: Vec, a: Mask, n: nat)
    requires n <= |a| && n <= |c| && Count(a, n) <= |beta|
    ensures Dot(Select(c, a, n), beta, Count(a, n)) == Dot(Spread(beta, a, n), c, n)
  {
    if n > 0 {
      SelectSpread(c, beta, a, n - 1);
      DotPrefix(Select(c, a, n), beta, Select(c, a, n - 1), beta, Count(a, n - 1));
      DotPrefix(Spread(beta, a, n), c, Spread(beta, a, n - 1), c, n - 1);
    }
  }

  // ---------------------------------------------------------------- the least-squares step

  function Columns(d: ProducerData, free: bool): nat
    requires d.Valid()
  {
    Count(Allowed(d), d.ni) + (if free then 1 else 0) + (if d.HasJ() then 1 else 0)
  }

  /** The coefficient vector in the layout of the fit. */
  function AssembleTheta(tau: real, tauP: real, d: ProducerData, free: bool, beta: Vec): (theta: Vec)
    requires d.Valid() && |beta| == Columns(d, free)
    ensures |theta| == ThetaLength(d, !free)
    ensures tau != 0.0 && tauP != 0.0 ==> GoodTheta(theta, d, !free)
  {
    var k := Count(Allowed(d), d.ni);
    var f := Spread(beta, Allowed(d), d.ni);
    if free then f + [tau, beta[k], tauP] + beta[k + 1..] else f + [tau] + beta[k..]
  }

  /** Disallowed pairs get nothing, allowed ones their coefficients in order. */
  lemma {:induction false} SpreadAt(beta: Vec, a: Mask, n: nat, i: nat)
    requires i < n <= |a| && Count(a, n) <= |beta|
    ensures Count(a, i) <= Count(a, n) && (a[i] ==> Count(a, i) < Count(a, n))
    ensures Spread(beta, a, n)[i] == if a[i] then beta[Count(a, i)] else 0.0
  {
    if i < n - 1 {
      SpreadAt(beta, a, n - 1, i);
    }
  }

  /** The fitted allocation of a disallowed pair is zero, that of an allowed one its own coefficient. */
  lemma ThetaOfAllowed(tau: real, tauP: real, d: ProducerData, free: bool, beta: Vec, i: nat)
    requires d.Valid() && |beta| == Columns(d, free) && i < d.ni
    ensures var theta := AssembleTheta(tau, tauP, d, free, beta);
            && i < |theta|
            && (d.allowed.None? ==> i < |beta| && theta[i] == beta[i])
            && (d.allowed.Some? && !d.allowed.value[i] ==> theta[i] == 0.0)
            && (d.allowed.Some? && d.allowed.value[i] ==>
                  Count(d.allowed.value, i) < |beta| && theta[i] == beta[Count(d.allowed.value, i)])
  {
    SpreadAt(beta, Allowed(d), d.ni, i);
    if d.allowed.None? {
      AllCounted(Allowed(d), i);
    }
  }

  lemma {:induction false} AllCounted(a: Mask, n: nat)
    requires n <= |a| && forall k :: 0 <= k < |a| ==> a[k]
    ensures Count(a, n) == n
  {
    if n > 0 {
      AllCounted(a, n - 1);
    }
  }

  /** What one row's linear terms add up to: allocations, free gain, J. */
  function RowPrediction(exp: Exp, tauP: real, d: ProducerData, free: bool, beta: Vec, c: Vec, b: real, n: nat): real
    requires d.Valid() && |beta| == Columns(d, free) && tauP != 0.0 && n < d.Steps() && |c| == d.ni
  {
    var k := Count(Allowed(d), d.ni);
    Dot(Select(c, Allowed(d), d.ni), beta, k)
    + (if free then Times(d.q0 * exp[-d.t[n] / tauP], beta[k]) else 0.0)
    + (if d.HasJ() then Times(beta[|beta| - 1], b) else 0.0)
  }

  /** The right-hand side: observations, less the tied primary term. */
  function Target(exp: Exp, tau: real, d: ProducerData, free: bool, n: nat): real
    requires d.Valid() && tau != 0.0 && n < d.Steps()
  {
    if free then d.q[n] else d.q[n] - d.q0 * exp[-d.t[n] / tau]
  }

  /** One row of A beta - y. */
  function Misfit(
      exp: Exp, tau: real, tauP: real, d: ProducerData, free: bool, beta: Vec, c: Vec, b: real, n: nat): real
    requires d.Valid() && |beta| == Columns(d, free) && tau != 0.0 && tauP != 0.0 && n < d.Steps() && |c| == d.ni
  {
    RowPrediction(exp, tauP, d, free, beta, c, b, n) - Target(exp, tau, d, free, n)
  }

  /** Bounded least squares for the linear parameters, for any coefficients the solver returns. */
  method VarproSolve(exp: Exp, tau: real, tauP: real, d: ProducerData, free: bool, beta: Vec)
    returns (sse: real, theta: Vec)
    requires d.Valid() && |beta| == Columns(d, free) && tau != 0.0 && tauP != 0.0
    ensures theta == AssembleTheta(tau, tauP, d, free, beta) && GoodTheta(theta, d, !free)
    ensures AlwaysOpen(d) ==> sse == 2.0 * ObjectiveAt(exp, theta, d, !free, 0.0, 0.0)
  {
    theta := AssembleTheta(tau, tauP, d, free, beta);
    var c, b := DesignCrmp(exp, tau, d);
    var r := Residuals(exp, tau, tauP, d, free, beta, c, b);
    sse := Dot(r, r, |r|);
    if AlwaysOpen(d) {
      ResidualsAreExact(exp, tau, tauP, d, free, beta, c, b);
      DotIsSquaredError(r, Rates(exp, theta, d, !free), d, Rows(d));
      NoPenalty(Rates(exp, theta, d, !free), theta, d);
    }
  }

  /** r = Aw beta - yw */
  function Residuals(
      exp: Exp, tau: real, tauP: real, d: ProducerData, free: bool, beta: Vec, c: Matrix, b: Option<Vec>): (r: Vec)
    requires d.Valid() && |beta| == Columns(d, free) && tau != 0.0 && tauP != 0.0
    requires Shape(c, d.Steps(), d.ni) && (b.Some? ==> |b.value| == d.Steps())
    ensures |r| == Rows(d)
  {
    seq(Rows(d), n requires 0 <= n < Rows(d) =>
      Times(Misfit(exp, tau, tauP, d, free, beta, c[n], if b.Some? then b.value[n] else 0.0, n), d.w[n]))
  }

  lemma ResidualsAreExact(
      exp: Exp, tau: real, tauP: real, d: ProducerData, free: bool, beta: Vec, c: Matrix, b: Option<Vec>)
    requires d.Valid() && |beta| == Columns(d, free) && tau != 0.0 && tauP != 0.0 && AlwaysOpen(d)
    requires IsDesign(c, b, exp, tau, d)
    ensures var qhat := Rates(exp, AssembleTheta(tau, tauP, d, free, beta), d, !free);
            var r := Residuals(exp, tau, tauP, d, free, beta, c, b);
            forall n :: 0 <= n < |r| ==> r[n] == Residual(qhat, d, n)
  {
    var qhat := Rates(exp, AssembleTheta(tau, tauP, d, free, beta), d, !free);
    var r := Residuals(exp, tau, tauP, d, free, beta, c, b);
    forall n | 0 <= n < |r|
      ensures r[n] == Residual(qhat, d, n)
    {
      MisfitIsResidual(exp, tau, tauP, d, free, beta, c, b, n);
    }
  }

  lemma {:induction false} DotIsSquaredError(r: Vec, qhat: Vec, d: ProducerData, n: nat)
    requires d.Valid() && |qhat| == d.Steps() && n <= |r| <= d.Steps()
    requires forall i :: 0 <= i < |r| ==> r[i] == Residual(qhat, d, i)
    ensures Dot(r, r, n) == SquaredError(qhat, d, n)
  {
    if n > 0 {
      DotIsSquaredError(r, qhat, d, n - 1);
      SquareOfEntry(r[n - 1]);
    }
  }

  lemma SquareOfEntry(x: real)
    ensures x * x == Square(x)
  {
  }

  /** Without penalties the objective is half the squared error. */
  lemma NoPenalty(qhat: Vec, theta: Vec, d: ProducerData)
    requires d.Valid() && |qhat| == d.Steps()
    ensures 2.0 * Value(qhat, theta, d, 0.0, 0.0) == SquaredError(qhat, d, Rows(d))
  {
    DotZero(theta, Penalty(d, 0.0, 0.0, |theta|), |theta|);
    DotSymmetric(theta, Penalty(d, 0.0, 0.0, |theta|), |theta|);
  }

  lemma DesignRowIsFiltered(exp: Exp, tau: real, d: ProducerData, c: Matrix, b: Option<Vec>, n: nat)
    requires d.Valid() && tau != 0.0 && n < d.Steps() && IsDesign(c, b, exp, tau, d)
    ensures c[n] == FilteredInjection(Decays(exp, d.dt, tau), d.inj, d.ni, AllOpen(d.Steps()), n)
    ensures b.Some? ==> b.value[n] == Filter(Decays(exp, d.dt, tau), PressureSource(tau, d), AllOpen(d.Steps()), n)
  {
    var e, open := Decays(exp, d.dt, tau), AllOpen(d.Steps());
    forall i | 0 <= i < d.ni
      ensures c[n][i] == Filter(e, Column(d.inj, i), open, n)
    {
      assert IsFilter(Column(c, i), e, Column(d.inj, i), open);
      assert Column(c, i)[n] == Filter(e, Column(d.inj, i), open, n);
    }
  }

  lemma TimesZero(b: real)
    ensures Times(0.0, b) == 0.0
  {
  }

  /** The design columns reproduce the model's state. */
  lemma DesignState(exp: Exp, p: Params<real>, d: ProducerData, beta: Vec, c: Matrix, b: Option<Vec>, n: nat)
    requires d.Valid() && n < d.Steps() && AlwaysOpen(d) && p.tau != 0.0
    requires Count(Allowed(d), d.ni) <= |beta| && p.f == Spread(beta, Allowed(d), d.ni)
    requires IsDesign(c, b, exp, p.tau, d) && (b.None? ==> p.J == 0.0)
    ensures State(exp, p, d, n) ==
            Dot(Select(c[n], Allowed(d), d.ni), beta, Count(Allowed(d), d.ni))
            + if d.HasJ() then Times(p.J, b.value[n]) else 0.0
  {
    var e := Decays(exp, d.dt, p.tau);
    assert OpenSteps(d) == AllOpen(d.Steps());
    DesignRowIsFiltered(exp, p.tau, d, c, b, n);
    SelectSpread(c[n], beta, Allowed(d), d.ni);
    StateIsLinear(p.f, p.tau, p.J, d, e, OpenSteps(d), n);
    TimesZero(Filter(e, PressureSource(p.tau, d), OpenSteps(d), n));
  }

  /** The tied primary term moved to the right-hand side, or the free one kept as a column. */
  lemma DesignPrimary(exp: Exp, tau: real, tauP: real, d: ProducerData, free: bool, beta: Vec, n: nat)
    requires d.Valid() && |beta| == Columns(d, free) && tau != 0.0 && tauP != 0.0 && n < d.Steps()
    ensures var p := RealParams(AssembleTheta(tau, tauP, d, free, beta), d, !free);
            PrimaryTerm(exp, p, d, n) ==
            (if free then Times(d.q0 * exp[-d.t[n] / tauP], beta[Count(Allowed(d), d.ni)]) else 0.0)
            + d.q[n] - Target(exp, tau, d, free, n)
  {
    if free {
      GainFirst(beta[Count(Allowed(d), d.ni)], d.q0, exp[-d.t[n] / tauP]);
    }
  }

  lemma GainFirst(g: real, q0: real, decay: real)
    ensures Times(q0 * decay, g) == g * q0 * decay
  {
  }

  /** On an always-open history the row misfit is prediction minus observation. */
  lemma MisfitIsResidual(
      exp: Exp, tau: real, tauP: real, d: ProducerData, free: bool, beta: Vec, c: Matrix, b: Option<Vec>, n: nat)
    requires d.Valid() && |beta| == Columns(d, free) && tau != 0.0 && tauP != 0.0 && n < d.Steps() && AlwaysOpen(d)
    requires IsDesign(c, b, exp, tau, d)
    ensures Misfit(exp, tau, tauP, d, free, beta, c[n], if b.Some? then b.value[n] else 0.0, n)
            == Rates(exp, AssembleTheta(tau, tauP, d, free, beta), d, !free)[n] - d.q[n]
  {
    var p := RealParams(AssembleTheta(tau, tauP, d, free, beta), d, !free);
    assert p.f == Spread(beta, Allowed(d), d.ni);
    DesignState(exp, p, d, beta, c, b, n);
    DesignPrimary(exp, tau, tauP, d, free, beta, n);
  }
}
