/**
 With its time constants fixed the CRMP model is linear in the allocations, the primary gain and J
 (waterflood_app/models/solver.py): the state is sum_i f_i c_i + J b with c and b the filtered injections
 and pressures. That linear form is what the sensitivities report and what variable projection solves.
 */
module LinearForm {
  import opened Common
  import opened Crm
  import opened CrmForward
  import opened Objective

  /** The filtered injections at step n, one per injector. */
  function FilteredInjection(e: Vec, inj: Matrix, ni: nat, open: seq<bool>, n: nat): (c: Vec)
    requires n < |e| && n < |open| && Shape(inj, |e|, ni)
    ensures |c| == ni && forall i :: 0 <= i < ni ==> c[i] == Filter(e, Column(inj, i), open, n)
  {
    seq(ni, i requires 0 <= i < ni => Filter(e, Column(inj, i), open, n))
  }

  lemma LeakScale(f: real, c: real, e: real, u: real, r: real)
    requires r == Leak(c, e, u)
    ensures f * r == Leak(f * c, e, f * u)
  {
  }

  lemma LeakAdd(a: real, b: real, e: real, u: real, v: real)
    ensures Leak(a, e, u) + Leak(b, e, v) == Leak(a + b, e, u + v)
  {
  }

  lemma {:induction false} DotLeak(f: Vec, c: Vec, e: real, u: Vec, r: Vec, n: nat)
    requires n <= |f| && n <= |c| && n <= |u| && n <= |r|
    requires forall i :: 0 <= i < n ==> r[i] == Leak(c[i], e, u[i])
    ensures Dot(f, r, n) == Leak(Dot(f, c, n), e, Dot(f, u, n))
  {
    if n > 0 {
      DotLeak(f, c, e, u, r, n - 1);
      LeakScale(f[n - 1], c[n - 1], e, u[n - 1], r[n - 1]);
      LeakAdd(Dot(f, c, n - 1), f[n - 1] * c[n - 1], e, Dot(f, u, n - 1), f[n - 1] * u[n - 1]);
    }
  }

  lemma LeakSum(a: real, b: real, e: real, u: real, v: real, j: real, source: real)
    requires source == u + Times(j, v)
    ensures Leak(a + Times(j, b), e, source) == Leak(a, e, u) + Times(j, Leak(b, e, v))
  {
  }

  lemma SourceSplits(f: Vec, tau: real, J: real, d: ProducerData, n: nat)
    requires d.Valid() && |f| == d.ni && n < d.Steps()
    ensures Source(f, tau, J, d)[n] == Dot(f, d.inj[n], d.ni) + Times(J, PressureSource(tau, d)[n])
  {
  }

  /** x = sum_i f_i c_i + J b, at every step and for any pattern of shut-ins. */
  lemma {:induction false} StateIsLinear(f: Vec, tau: real, J: real, d: ProducerData, e: Vec, open: seq<bool>, n: nat)
    requires d.Valid() && |f| == d.ni && |e| == |open| == d.Steps() && n < d.Steps()
    ensures Filter(e, Source(f, tau, J, d), open, n) ==
            Dot(f, FilteredInjection(e, d.inj, d.ni, open, n), d.ni)
            + Times(J, Filter(e, PressureSource(tau, d), open, n))
  {
    var c := FilteredInjection(e, d.inj, d.ni, open, n);
    var press := PressureSource(tau, d);
    if n == 0 {
      DotZero(f, c, d.ni);
    } else {
      StateIsLinear(f, tau, J, d, e, open, n - 1);
      var c' := FilteredInjection(e, d.inj, d.ni, open, n - 1);
      if open[n] {
        DotLeak(f, c', e[n], d.inj[n], c, d.ni);
        SourceSplits(f, tau, J, d, n);
        LeakSum(Dot(f, c', d.ni), Filter(e, press, open, n - 1), e[n], Dot(f, d.inj[n], d.ni), press[n], J,
                Source(f, tau, J, d)[n]);
      } else {
        assert c == c';
      }
    }
  }

  // ---------------------------------------------------------------- the forward model moves along its Jacobian

  /** The entries a variable-projection step keeps: tau, and tau_p when the primary term is free. */
  function TimeConstants(d: ProducerData, tied: bool): set<nat> {
    if tied then {d.ni} else {d.ni, d.ni + 2}
  }

  ghost predicate SameTimeConstants(theta: Vec, theta': Vec, d: ProducerData, tied: bool) {
    |theta| == |theta'| && forall k :: 0 <= k < |theta| && k in TimeConstants(d, tied) ==> theta[k] == theta'[k]
  }

  function Rates(exp: Exp, theta: Vec, d: ProducerData, tied: bool): (q: Vec)
    requires d.Valid() && GoodTheta(theta, d, tied)
    ensures |q| == d.Steps()
    ensures forall n {:trigger q[n]} :: 0 <= n < |q| ==> q[n] == Rate(exp, RealParams(theta, d, tied), d, n)
  {
    seq(d.Steps(), n requires 0 <= n < d.Steps() => Rate(exp, RealParams(theta, d, tied), d, n))
  }

  function SlopeMatrix(exp: Exp, theta: Vec, d: ProducerData, tied: bool): (jac: Matrix)
    requires d.Valid() && GoodTheta(theta, d, tied)
    ensures Shape(jac, d.Steps(), |theta|)
    ensures forall n, k {:trigger jac[n][k]} :: 0 <= n < d.Steps() && 0 <= k < |theta| ==>
      jac[n][k] == Slope(exp, theta, d, tied, n, k)
  {
    seq(d.Steps(), n requires 0 <= n < d.Steps() =>
      seq(|theta|, k requires 0 <= k < |theta| => Slope(exp, theta, d, tied, n, k)))
  }

  /** The allocation entries of a row account for the change of sum_i f_i c_i. */
  lemma AllocationMove(row: Vec, c: Vec, theta: Vec, theta': Vec, ni: nat)
    requires |c| == ni <= |row| == |theta| == |theta'|
    requires forall i :: 0 <= i < ni ==> row[i] == c[i]
    ensures Dot(theta'[..ni], c, ni) == Dot(theta[..ni], c, ni) + Dot(row, Move(theta, theta'), ni)
  {
    var delta := Move(theta, theta');
    DotPrefix(row, delta, c, delta, ni);
    DotAddScaled(c, theta'[..ni], theta[..ni], delta, 1.0, ni);
    DotSymmetric(theta'[..ni], c, ni);
    DotSymmetric(theta[..ni], c, ni);
  }

  /** What a parameter vector contributes after the allocations: tau, (gain, tau_p), (J). */
  lemma TailMove(row: Vec, delta: Vec, d: ProducerData, tied: bool)
    requires |row| == |delta| == ThetaLength(d, tied)
    requires delta[d.ni] == 0.0 && (!tied ==> delta[d.ni + 2] == 0.0)
    ensures Dot(row, delta, |row|) ==
            Dot(row, delta, d.ni)
            + (if tied then 0.0 else Times(row[d.ni + 1], delta[d.ni + 1]))
            + (if d.HasJ() then Times(row[|row| - 1], delta[|row| - 1]) else 0.0)
  {
    assert Dot(row, delta, d.ni + 1) == Dot(row, delta, d.ni) + row[d.ni] * delta[d.ni];
    if !tied {
      assert Dot(row, delta, d.ni + 2) == Dot(row, delta, d.ni + 1) + row[d.ni + 1] * delta[d.ni + 1];
      assert Dot(row, delta, d.ni + 3) == Dot(row, delta, d.ni + 2) + row[d.ni + 2] * delta[d.ni + 2];
    }
  }

  /** The state moves by the allocation columns and the J column. */
  lemma StateMoves(exp: Exp, theta: Vec, theta': Vec, d: ProducerData, tied: bool, row: Vec, n: nat)
    requires d.Valid() && GoodTheta(theta, d, tied) && GoodTheta(theta', d, tied) && n < d.Steps()
    requires SameTimeConstants(theta, theta', d, tied) && |row| == |theta|
    requires forall i :: 0 <= i < d.ni ==> row[i] == Filter(Decays(exp, d.dt, theta[d.ni]), Column(d.inj, i), OpenSteps(d), n)
    requires d.HasJ() ==>
      row[|row| - 1] == Filter(Decays(exp, d.dt, theta[d.ni]), PressureSource(theta[d.ni], d), OpenSteps(d), n)
    ensures State(exp, RealParams(theta', d, tied), d, n) ==
            State(exp, RealParams(theta, d, tied), d, n) + Dot(row, Move(theta, theta'), d.ni)
            + (if d.HasJ() then Times(row[|row| - 1], Move(theta, theta')[|row| - 1]) else 0.0)
  {
    var p, p' := RealParams(theta, d, tied), RealParams(theta', d, tied);
    var e, open := Decays(exp, d.dt, p.tau), OpenSteps(d);
    assert d.ni in TimeConstants(d, tied);
    StateIsLinear(p.f, p.tau, p.J, d, e, open, n);
    StateIsLinear(p'.f, p'.tau, p'.J, d, e, open, n);
    AllocationMove(row, FilteredInjection(e, d.inj, d.ni, open, n), theta, theta', d.ni);
    if d.HasJ() {
      TimesMove(row[|row| - 1], p.J, p'.J, Move(theta, theta')[|row| - 1]);
    }
  }

  lemma TimesMove(b: real, j: real, j': real, delta: real)
    requires delta == j' - j
    ensures Times(j', b) == Times(j, b) + Times(b, delta)
  {
  }

  lemma PrimaryMoves(gain: real, gain': real, q0: real, decay: real, delta: real)
    requires delta == gain' - gain
    ensures gain' * q0 * decay == gain * q0 * decay + Times(q0 * decay, delta)
  {
  }

  /** The primary term moves by the gain column. */
  lemma PrimaryTermMoves(exp: Exp, theta: Vec, theta': Vec, d: ProducerData, tied: bool, n: nat)
    requires d.Valid() && GoodTheta(theta, d, tied) && GoodTheta(theta', d, tied) && n < d.Steps()
    requires SameTimeConstants(theta, theta', d, tied)
    ensures PrimaryTerm(exp, RealParams(theta', d, tied), d, n) ==
            PrimaryTerm(exp, RealParams(theta, d, tied), d, n)
            + if tied then 0.0
              else Times(GainSlope(exp, RealParams(theta, d, tied), d, n), Move(theta, theta')[d.ni + 1])
  {
    if tied {
      assert d.ni in TimeConstants(d, tied);
    } else {
      assert d.ni + 2 in TimeConstants(d, tied);
      PrimaryMoves(theta[d.ni + 1], theta'[d.ni + 1], d.q0, exp[-d.t[n] / theta[d.ni + 2]], Move(theta, theta')[d.ni + 1]);
    }
  }

  /** An open row of the Jacobian, without the tau columns. */
  lemma OpenRow(exp: Exp, theta: Vec, d: ProducerData, tied: bool, row: Vec, n: nat)
    requires d.Valid() && GoodTheta(theta, d, tied) && n < d.Steps() && d.Open(n)
    requires IsJacobianRow(row, exp, theta, d, tied, n)
    ensures forall i :: 0 <= i < d.ni ==> row[i] == Filter(Decays(exp, d.dt, theta[d.ni]), Column(d.inj, i), OpenSteps(d), n)
    ensures d.HasJ() ==>
      row[|row| - 1] == Filter(Decays(exp, d.dt, theta[d.ni]), PressureSource(theta[d.ni], d), OpenSteps(d), n)
    ensures !tied ==> row[d.ni + 1] == GainSlope(exp, RealParams(theta, d, tied), d, n)
  {
    forall k | 0 <= k < |theta|
      ensures row[k] == JacobianEntry(exp, theta, d, tied, n, k)
    {
      JacobianIsExact(exp, theta, d, tied, n, k);
      assert row[k] == Slope(exp, theta, d, tied, n, k);
    }
    forall i | 0 <= i < d.ni
      ensures row[i] == Filter(Decays(exp, d.dt, theta[d.ni]), Column(d.inj, i), OpenSteps(d), n)
    {
      assert row[i] == JacobianEntry(exp, theta, d, tied, n, i);
    }
    assert d.HasJ() ==> row[|row| - 1] == JacobianEntry(exp, theta, d, tied, n, |row| - 1);
    assert !tied ==> row[d.ni + 1] == JacobianEntry(exp, theta, d, tied, n, d.ni + 1);
  }

  /** qhat(theta + delta) = qhat(theta) + jac . delta, exactly, while the time constants stay. */
  lemma RateMoves(exp: Exp, theta: Vec, theta': Vec, d: ProducerData, tied: bool, row: Vec, n: nat)
    requires d.Valid() && GoodTheta(theta, d, tied) && GoodTheta(theta', d, tied) && n < d.Steps()
    requires SameTimeConstants(theta, theta', d, tied)
    requires IsJacobianRow(row, exp, theta, d, tied, n)
    ensures Rate(exp, RealParams(theta', d, tied), d, n) ==
            Rate(exp, RealParams(theta, d, tied), d, n) + Dot(row, Move(theta, theta'), |theta|)
  {
    var delta := Move(theta, theta');
    if d.Open(n) {
      assert d.ni in TimeConstants(d, tied) && (!tied ==> d.ni + 2 in TimeConstants(d, tied));
      OpenRow(exp, theta, d, tied, row, n);
      StateMoves(exp, theta, theta', d, tied, row, n);
      PrimaryTermMoves(exp, theta, theta', d, tied, n);
      TailMove(row, delta, d, tied);
    } else {
      forall k | 0 <= k < |theta|
        ensures row[k] == 0.0
      {
        assert row[k] == Slope(exp, theta, d, tied, n, k);
      }
      DotZero(delta, row, |theta|);
      DotSymmetric(delta, row, |theta|);
    }
  }
}
