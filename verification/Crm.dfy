/**
 The capacitance-resistance recursion of one producer (waterflood_app/models/solver.py):

   x_n = x_(n-1) e_n + (1 - e_n) [ sum_i f_i i_i(n) - J tau dp_n/dt_n ],   x_0 = 0
   q_n = g_p q(0) exp[-t_n / tau_p] + x_n

 with the state frozen and the rate zero while the producer is shut in. CRMIP keeps one state per
 injector-producer pair. The exponential is a parameter: nothing here depends on its values.
 */
module Crm {
  import opened Common
  import opened Duals

  /** Everything the per-producer forward model and objective need. */
  datatype ProducerData = ProducerData(
    ni: nat,  // number of injectors
    inj: Matrix,  // (M, Ni)
    q: Vec,  // (M) observed liquid
    w: Vec,  // (M) weights
    t: Vec,  // (M) days since the first producing step
    dt: Vec,  // (M) step lengths
    dpdt: Option<Vec>,  // (M) pressure change per day; None: constant bottom-hole pressure
    q0: real,
    nTrain: nat,
    dist: Option<Vec>,
    allowed: Option<seq<bool>>,
    start: nat,
    open: Option<seq<bool>>)  // (M) producing steps; None: always open
  {
    function Steps(): nat {
      |t|
    }

    function HasJ(): bool {
      dpdt.Some?
    }

    ghost predicate Valid() {
      && Shape(inj, Steps(), ni)
      && |q| == |w| == |dt| == Steps()
      && (dpdt.Some? ==> |dpdt.value| == Steps())
      && (dist.Some? ==> |dist.value| == ni)
      && (allowed.Some? ==> |allowed.value| == ni)
      && (open.Some? ==> |open.value| == Steps())
    }

    function Open(n: nat): bool
      requires Valid() && n < Steps()
    {
      open.None? || open.value[n]
    }

    function Pressure(n: nat): real
      requires Valid() && n < Steps()
    {
      if dpdt.None? then 0.0 else dpdt.value[n]
    }
  }

  // ---------------------------------------------------------------- the leaky filter

  /** One open step: the state decays and the source fills the rest. */
  function Leak(x: real, e: real, u: real): real {
    x * e + (1.0 - e) * u
  }

  /** The exponential filter every column of the model runs through; a closed step freezes it. */
  function Filter(e: Vec, u: Vec, open: seq<bool>, n: nat): real
    requires n < |e| && n < |u| && n < |open|
  {
    if n == 0 then 0.0
    else if !open[n] then Filter(e, u, open, n - 1)
    else Leak(Filter(e, u, open, n - 1), e[n], u[n])
  }

  function Decays(exp: Exp, dt: Vec, tau: real): (e: Vec)
    requires tau != 0.0
    ensures |e| == |dt|
  {
    seq(|dt|, n requires 0 <= n < |dt| => exp[-dt[n] / tau])
  }

  function OpenSteps(d: ProducerData): (o: seq<bool>)
    requires d.Valid()
    ensures |o| == d.Steps()
  {
    seq(d.Steps(), n requires 0 <= n < d.Steps() => d.Open(n))
  }

  /** What drives the state at each step: allocated injection and the pressure term. */
  function Source(f: Vec, tau: real, J: real, d: ProducerData): (s: Vec)
    requires d.Valid() && |f| == d.ni
    ensures |s| == d.Steps()
  {
    seq(d.Steps(), n requires 0 <= n < d.Steps() => Dot(f, d.inj[n], d.ni) + -J * tau * d.Pressure(n))
  }

  /** The pressure column: what multiplies J. */
  function PressureSource(tau: real, d: ProducerData): (s: Vec)
    requires d.Valid()
    ensures |s| == d.Steps()
  {
    seq(d.Steps(), n requires 0 <= n < d.Steps() => -tau * d.Pressure(n))
  }

  // ---------------------------------------------------------------- parameters and layout

  /** CRMP parameters over any kind of number: reals for the model, dual numbers for its derivative. */
  datatype Params<T> = Params(f: seq<T>, tau: T, gainP: T, tauP: T, J: T)

  /** [f, tau, (J)] when the primary term is tied to tau, [f, tau, gainP, tauP, (J)] otherwise. */
  function ThetaLength(d: ProducerData, tied: bool): nat {
    d.ni + (if tied then 1 else 3) + (if d.HasJ() then 1 else 0)
  }

  function Unpack<T>(theta: seq<T>, d: ProducerData, tied: bool, zero: T, one: T): Params<T>
    requires |theta| == ThetaLength(d, tied)
  {
    if tied then
      Params(theta[..d.ni], theta[d.ni], one, theta[d.ni], if d.HasJ() then theta[d.ni + 1] else zero)
    else
      Params(theta[..d.ni], theta[d.ni], theta[d.ni + 1], theta[d.ni + 2], if d.HasJ() then theta[d.ni + 3] else zero)
  }

  function RealParams(theta: Vec, d: ProducerData, tied: bool): Params<real>
    requires |theta| == ThetaLength(d, tied)
  {
    Unpack(theta, d, tied, 0.0, 1.0)
  }

  function SeededParams(theta: Vec, k: nat, d: ProducerData, tied: bool): Params<Dual>
    requires |theta| == ThetaLength(d, tied)
  {
    Unpack(Seed(theta, k), d, tied, Lift(0.0), Lift(1.0))
  }

  /** What the source demands of a parameter vector: the layout length and non-zero time constants. */
  ghost predicate GoodTheta(theta: Vec, d: ProducerData, tied: bool) {
    && |theta| == ThetaLength(d, tied)
    && RealParams(theta, d, tied).tau != 0.0
    && RealParams(theta, d, tied).tauP != 0.0
  }

  // ---------------------------------------------------------------- the model

  function State(exp: Exp, p: Params<real>, d: ProducerData, n: nat): real
    requires d.Valid() && |p.f| == d.ni && p.tau != 0.0 && n < d.Steps()
  {
    Filter(Decays(exp, d.dt, p.tau), Source(p.f, p.tau, p.J, d), OpenSteps(d), n)
  }

  function Rate(exp: Exp, p: Params<real>, d: ProducerData, n: nat): real
    requires d.Valid() && |p.f| == d.ni && p.tau != 0.0 && p.tauP != 0.0 && n < d.Steps()
  {
    if !d.Open(n) then 0.0
    else p.gainP * d.q0 * exp[-d.t[n] / p.tauP] + State(exp, p, d, n)
  }

  // ---------------------------------------------------------------- the same model over dual numbers

  function DualStep(x: Dual, e: Dual, src: Dual): Dual {
    x.Mul(e).Add(Lift(1.0).Sub(e).Mul(src))
  }

  function DualFilter(e: seq<Dual>, u: seq<Dual>, open: seq<bool>, n: nat): Dual
    requires n < |e| && n < |u| && n < |open|
  {
    if n == 0 then Lift(0.0)
    else if !open[n] then DualFilter(e, u, open, n - 1)
    else DualStep(DualFilter(e, u, open, n - 1), e[n], u[n])
  }

  /** exp[-span / tau] */
  function DualDecay(exp: Exp, span: real, tau: Dual): Dual
    requires tau.re != 0.0
  {
    Lift(-span).Div(tau).Exp(exp)
  }

  function DualDecays(exp: Exp, dt: Vec, tau: Dual): (e: seq<Dual>)
    requires tau.re != 0.0
    ensures |e| == |dt|
  {
    seq(|dt|, n requires 0 <= n < |dt| => DualDecay(exp, dt[n], tau))
  }

  function DualSourceAt(f: seq<Dual>, tau: Dual, J: Dual, d: ProducerData, n: nat): Dual
    requires d.Valid() && |f| == d.ni && n < d.Steps()
  {
    DualDot(f, d.inj[n], d.ni).Add(Lift(0.0).Sub(J).Mul(tau).Mul(Lift(d.Pressure(n))))
  }

  function DualSource(f: seq<Dual>, tau: Dual, J: Dual, d: ProducerData): (s: seq<Dual>)
    requires d.Valid() && |f| == d.ni
    ensures |s| == d.Steps()
  {
    seq(d.Steps(), n requires 0 <= n < d.Steps() => DualSourceAt(f, tau, J, d, n))
  }

  function DualState(exp: Exp, p: Params<Dual>, d: ProducerData, n: nat): Dual
    requires d.Valid() && |p.f| == d.ni && p.tau.re != 0.0 && n < d.Steps()
  {
    DualFilter(DualDecays(exp, d.dt, p.tau), DualSource(p.f, p.tau, p.J, d), OpenSteps(d), n)
  }

  function DualPrimary(exp: Exp, gain: Dual, q0: real, t: real, tauP: Dual): Dual
    requires tauP.re != 0.0
  {
    gain.Mul(Lift(q0)).Mul(DualDecay(exp, t, tauP))
  }

  function DualRate(exp: Exp, p: Params<Dual>, d: ProducerData, n: nat): Dual
    requires d.Valid() && |p.f| == d.ni && p.tau.re != 0.0 && p.tauP.re != 0.0 && n < d.Steps()
  {
    if !d.Open(n) then Lift(0.0)
    else DualPrimary(exp, p.gainP, d.q0, d.t[n], p.tauP).Add(DualState(exp, p, d, n))
  }

  /** Sensitivity of the rate at step n to parameter k: the reference the Jacobian is held to. */
  function Slope(exp: Exp, theta: Vec, d: ProducerData, tied: bool, n: nat, k: nat): real
    requires d.Valid() && GoodTheta(theta, d, tied) && n < d.Steps()
  {
    DualRate(exp, SeededParams(theta, k, d, tied), d, n).eps
  }

  // ---------------------------------------------------------------- the two parts of a dual filter

  lemma DualStepParts(x: Dual, e: Dual, src: Dual)
    ensures DualStep(x, e, src).re == Leak(x.re, e.re, src.re)
    ensures e.eps == 0.0 ==> DualStep(x, e, src).eps == Leak(x.eps, e.re, src.eps)
  {
  }

  /** The real part of a dual run is the run on the real parts. */
  lemma {:induction false} DualFilterReal(e: seq<Dual>, u: seq<Dual>, re: Vec, ru: Vec, open: seq<bool>, n: nat)
    requires n < |e| && n < |u| && n < |open| && n < |re| && n < |ru|
    requires forall r :: 0 <= r <= n ==> e[r].re == re[r] && u[r].re == ru[r]
    ensures DualFilter(e, u, open, n).re == Filter(re, ru, open, n)
  {
    if n > 0 {
      DualFilterReal(e, u, re, ru, open, n - 1);
      DualStepParts(DualFilter(e, u, open, n - 1), e[n], u[n]);
    }
  }

  /** With unperturbed decays the perturbation of the source passes through the same filter. */
  lemma {:induction false} DualFilterLinear(e: seq<Dual>, u: seq<Dual>, re: Vec, v: Vec, open: seq<bool>, n: nat)
    requires n < |e| && n < |u| && n < |open| && n < |re| && n < |v|
    requires forall r :: 0 <= r <= n ==> e[r] == Lift(re[r]) && u[r].eps == v[r]
    ensures DualFilter(e, u, open, n).eps == Filter(re, v, open, n)
  {
    if n > 0 {
      DualFilterLinear(e, u, re, v, open, n - 1);
      DualStepParts(DualFilter(e, u, open, n - 1), e[n], u[n]);
    }
  }

  /** One open step of the hand-written sensitivity: s' e + x e' - e' u + (1 - e) u'. */
  function LeakSlope(s: real, x: real, e: real, de: real, u: real, du: real): real {
    s * e + x * de - de * u + (1.0 - e) * du
  }

  /** The hand-written sensitivity recursion for a parameter that moves both decays and sources. */
  function SlopeFilter(e: Vec, de: Vec, u: Vec, du: Vec, open: seq<bool>, n: nat): real
    requires n < |e| && n < |de| && n < |u| && n < |du| && n < |open|
  {
    if n == 0 then 0.0
    else if !open[n] then SlopeFilter(e, de, u, du, open, n - 1)
    else LeakSlope(SlopeFilter(e, de, u, du, open, n - 1), Filter(e, u, open, n - 1), e[n], de[n], u[n], du[n])
  }

  lemma DualStepSlope(x: Dual, e: Dual, src: Dual, xr: real, dx: real, er: real, de: real, sr: real, ds: real)
    requires x == Dual(xr, dx) && e == Dual(er, de) && src == Dual(sr, ds)
    ensures DualStep(x, e, src) == Dual(Leak(xr, er, sr), LeakSlope(dx, xr, er, de, sr, ds))
  {
  }

  /** The hand-written recursion is the perturbation of the dual run. */
  lemma {:induction false} DualFilterSlope(
      E: seq<Dual>, U: seq<Dual>, e: Vec, de: Vec, u: Vec, du: Vec, open: seq<bool>, n: nat)
    requires n < |E| && n < |U| && n < |e| && n < |de| && n < |u| && n < |du| && n < |open|
    requires forall r :: 0 <= r <= n ==> E[r] == Dual(e[r], de[r]) && U[r] == Dual(u[r], du[r])
    ensures DualFilter(E, U, open, n) == Dual(Filter(e, u, open, n), SlopeFilter(e, de, u, du, open, n))
  {
    DualFilterReal(E, U, e, u, open, n);
    if n > 0 {
      DualFilterSlope(E, U, e, de, u, du, open, n - 1);
      DualStepSlope(DualFilter(E, U, open, n - 1), E[n], U[n], Filter(e, u, open, n - 1),
                    SlopeFilter(e, de, u, du, open, n - 1), e[n], de[n], u[n], du[n]);
    }
  }

  lemma {:induction false} FilterOfZero(e: Vec, u: Vec, open: seq<bool>, n: nat)
    requires n < |e| && n < |u| && n < |open|
    requires forall r :: 0 <= r <= n ==> u[r] == 0.0
    ensures Filter(e, u, open, n) == 0.0
  {
    if n > 0 {
      FilterOfZero(e, u, open, n - 1);
    }
  }

  // ---------------------------------------------------------------- decays and sources of a seeded run

  /** d/dtau exp[-span / tau] = exp[-span / tau] span / tau^2. */
  function DecaySlope(exp: Exp, span: real, tau: real): real
    requires tau != 0.0
  {
    exp[-span / tau] * (span / tau / tau)
  }

  lemma DualDecayParts(exp: Exp, span: real, tau: Dual)
    requires tau.re != 0.0
    ensures tau.eps == 0.0 ==> DualDecay(exp, span, tau) == Lift(exp[-span / tau.re])
    ensures tau.eps == 1.0 ==>
      DualDecay(exp, span, tau) == Dual(exp[-span / tau.re], DecaySlope(exp, span, tau.re))
  {
    var z := Lift(-span).Div(tau);
    assert z.re == -(span / tau.re);
    if tau.eps == 1.0 {
      assert z.eps == span / tau.re / tau.re;
    } else if tau.eps == 0.0 {
      assert z.eps == 0.0;
    }
  }

  lemma DualSourceParts(f: Vec, s: seq<Dual>, k: nat, tau: Dual, J: Dual, d: ProducerData, n: nat)
    requires d.Valid() && n < d.Steps() && |f| == |s| == d.ni
    requires forall i :: 0 <= i < d.ni ==> s[i] == Dual(f[i], if i == k then 1.0 else 0.0)
    ensures DualSourceAt(s, tau, J, d, n).re == Source(f, tau.re, J.re, d)[n]
    ensures DualSourceAt(s, tau, J, d, n).eps ==
            (if k < d.ni then d.inj[n][k] else 0.0) + (-J.re * tau.eps - J.eps * tau.re) * d.Pressure(n)
  {
    DualDotParts(s, f, k, d.inj[n], d.ni);
  }

  // ---------------------------------------------------------------- what each column of the Jacobian is

  function LiftAll(f: Vec): (s: seq<Dual>)
    ensures |s| == |f|
  {
    seq(|f|, i requires 0 <= i < |f| => Lift(f[i]))
  }

  function DecaySlopes(exp: Exp, dt: Vec, tau: real): (s: Vec)
    requires tau != 0.0
    ensures |s| == |dt|
  {
    seq(|dt|, n requires 0 <= n < |dt| => DecaySlope(exp, dt[n], tau))
  }

  /** d/dtau of the source: only the pressure term depends on tau. */
  function SourceSlopes(J: real, d: ProducerData): (s: Vec)
    requires d.Valid()
    ensures |s| == d.Steps()
  {
    seq(d.Steps(), n requires 0 <= n < d.Steps() => -J * d.Pressure(n))
  }

  /** Sensitivity of the state to tau. */
  function TauSlope(exp: Exp, f: Vec, tau: real, J: real, d: ProducerData, n: nat): real
    requires d.Valid() && |f| == d.ni && tau != 0.0 && n < d.Steps()
  {
    SlopeFilter(Decays(exp, d.dt, tau), DecaySlopes(exp, d.dt, tau), Source(f, tau, J, d), SourceSlopes(J, d),
                OpenSteps(d), n)
  }

  lemma TauRunParts(exp: Exp, f: Vec, tau: real, J: real, d: ProducerData, n: nat)
    requires d.Valid() && |f| == d.ni && tau != 0.0 && n < d.Steps()
    ensures DualDecays(exp, d.dt, Dual(tau, 1.0))[n] == Dual(Decays(exp, d.dt, tau)[n], DecaySlopes(exp, d.dt, tau)[n])
    ensures DualSource(LiftAll(f), Dual(tau, 1.0), Lift(J), d)[n] == Dual(Source(f, tau, J, d)[n], SourceSlopes(J, d)[n])
  {
    DualDecayParts(exp, d.dt[n], Dual(tau, 1.0));
    DualSourceParts(f, LiftAll(f), d.ni, Dual(tau, 1.0), Lift(J), d, n);
  }

  /** The tau-sensitivity is the run with tau perturbed and everything else fixed. */
  lemma TauSlopeIsDual(exp: Exp, f: Vec, tau: real, J: real, d: ProducerData, n: nat)
    requires d.Valid() && |f| == d.ni && tau != 0.0 && n < d.Steps()
    ensures TauSlope(exp, f, tau, J, d, n) ==
            DualFilter(DualDecays(exp, d.dt, Dual(tau, 1.0)), DualSource(LiftAll(f), Dual(tau, 1.0), Lift(J), d),
                       OpenSteps(d), n).eps
  {
    forall r | 0 <= r <= n
      ensures DualDecays(exp, d.dt, Dual(tau, 1.0))[r] == Dual(Decays(exp, d.dt, tau)[r], DecaySlopes(exp, d.dt, tau)[r])
      ensures DualSource(LiftAll(f), Dual(tau, 1.0), Lift(J), d)[r] == Dual(Source(f, tau, J, d)[r], SourceSlopes(J, d)[r])
    {
      TauRunParts(exp, f, tau, J, d, r);
    }
    DualFilterSlope(DualDecays(exp, d.dt, Dual(tau, 1.0)), DualSource(LiftAll(f), Dual(tau, 1.0), Lift(J), d),
                    Decays(exp, d.dt, tau), DecaySlopes(exp, d.dt, tau), Source(f, tau, J, d), SourceSlopes(J, d),
                    OpenSteps(d), n);
  }

  /** With tau unperturbed, the state moves by the filtered column of the perturbed parameter. */
  lemma StateSlopeLinear(exp: Exp, p: Params<real>, s: Params<Dual>, k: nat, d: ProducerData, u: Vec, n: nat)
    requires d.Valid() && n < d.Steps() && p.tau != 0.0 && |p.f| == |s.f| == d.ni
    requires forall i :: 0 <= i < d.ni ==> s.f[i] == Dual(p.f[i], if i == k then 1.0 else 0.0)
    requires s.tau == Lift(p.tau) && s.J.re == p.J
    requires |u| == d.Steps()
    requires forall r :: 0 <= r < |u| ==>
      u[r] == (if k < d.ni then d.inj[r][k] else 0.0) + -s.J.eps * p.tau * d.Pressure(r)
    ensures DualState(exp, s, d, n).eps == Filter(Decays(exp, d.dt, p.tau), u, OpenSteps(d), n)
  {
    var de := DualDecays(exp, d.dt, s.tau);
    var du := DualSource(s.f, s.tau, s.J, d);
    var e := Decays(exp, d.dt, p.tau);
    forall r | 0 <= r <= n
      ensures de[r] == Lift(e[r]) && du[r].eps == u[r]
    {
      DualDecayParts(exp, d.dt[r], s.tau);
      DualSourceParts(p.f, s.f, k, s.tau, s.J, d, r);
    }
    DualFilterLinear(de, du, e, u, OpenSteps(d), n);
  }

  lemma PrimaryParts(exp: Exp, gain: Dual, q0: real, t: real, tauP: Dual)
    requires tauP.re != 0.0
    ensures tauP.eps == 0.0 ==> DualPrimary(exp, gain, q0, t, tauP).re == gain.re * q0 * exp[-t / tauP.re]
    ensures gain.eps == 0.0 && tauP.eps == 0.0 ==> DualPrimary(exp, gain, q0, t, tauP).eps == 0.0
    ensures gain.eps == 1.0 && tauP.eps == 0.0 ==>
      DualPrimary(exp, gain, q0, t, tauP).eps == q0 * exp[-t / tauP.re]
    ensures gain.eps == 0.0 && tauP.eps == 1.0 ==>
      DualPrimary(exp, gain, q0, t, tauP).eps == gain.re * q0 * DecaySlope(exp, t, tauP.re)
  {
    DualDecayParts(exp, t, tauP);
    var decay := DualDecay(exp, t, tauP);
    var level := gain.Mul(Lift(q0));
    assert level == Dual(gain.re * q0, gain.re * 0.0 + gain.eps * q0);
    assert level.Mul(decay) == Dual(level.re * decay.re, level.re * decay.eps + level.eps * decay.re);
  }

  function PrimaryTerm(exp: Exp, p: Params<real>, d: ProducerData, n: nat): real
    requires d.Valid() && p.tauP != 0.0 && n < d.Steps()
  {
    p.gainP * d.q0 * exp[-d.t[n] / p.tauP]
  }

  /** Sensitivity of the primary term to its gain. */
  function GainSlope(exp: Exp, p: Params<real>, d: ProducerData, n: nat): real
    requires d.Valid() && p.tauP != 0.0 && n < d.Steps()
  {
    d.q0 * exp[-d.t[n] / p.tauP]
  }

  /** Sensitivity of the primary term to its time constant. */
  function PrimaryTauSlope(exp: Exp, p: Params<real>, d: ProducerData, n: nat): real
    requires d.Valid() && p.tauP != 0.0 && n < d.Steps()
  {
    p.gainP * d.q0 * DecaySlope(exp, d.t[n], p.tauP)
  }

  /** Sensitivity of the whole rate to tau when the primary term shares it. */
  function TiedTauSlope(exp: Exp, p: Params<real>, d: ProducerData, n: nat): real
    requires d.Valid() && |p.f| == d.ni && p.tau != 0.0 && p.tauP != 0.0 && n < d.Steps()
  {
    PrimaryTauSlope(exp, p, d, n) + TauSlope(exp, p.f, p.tau, p.J, d, n)
  }

  /** The hand-written Jacobian entry for parameter k at step n. */
  function JacobianEntry(exp: Exp, theta: Vec, d: ProducerData, tied: bool, n: nat, k: nat): real
    requires d.Valid() && GoodTheta(theta, d, tied) && n < d.Steps() && k < |theta|
  {
    var p := RealParams(theta, d, tied);
    var e := Decays(exp, d.dt, p.tau);
    var open := OpenSteps(d);
    if !d.Open(n) then 0.0
    else if k < d.ni then Filter(e, Column(d.inj, k), open, n)
    else if k == d.ni then
      if tied then TiedTauSlope(exp, p, d, n) else TauSlope(exp, p.f, p.tau, p.J, d, n)
    else if !tied && k == d.ni + 1 then GainSlope(exp, p, d, n)
    else if !tied && k == d.ni + 2 then PrimaryTauSlope(exp, p, d, n)
    else Filter(e, PressureSource(p.tau, d), open, n)
  }

  lemma RateSlope(exp: Exp, s: Params<Dual>, d: ProducerData, n: nat, primary: real, state: real)
    requires d.Valid() && |s.f| == d.ni && s.tau.re != 0.0 && s.tauP.re != 0.0 && n < d.Steps() && d.Open(n)
    requires primary == DualPrimary(exp, s.gainP, d.q0, d.t[n], s.tauP).eps
    requires state == DualState(exp, s, d, n).eps
    ensures DualRate(exp, s, d, n).eps == primary + state
  {
  }

  /** The columns of the allocations and of J. */
  lemma JacobianEntryLinear(exp: Exp, theta: Vec, d: ProducerData, tied: bool, n: nat, k: nat)
    requires d.Valid() && GoodTheta(theta, d, tied) && n < d.Steps() && k < |theta| && d.Open(n)
    requires k < d.ni || k == d.ni + (if tied then 1 else 3)
    ensures JacobianEntry(exp, theta, d, tied, n, k) == Slope(exp, theta, d, tied, n, k)
  {
    var p := RealParams(theta, d, tied);
    var s := SeededParams(theta, k, d, tied);
    var u := if k < d.ni then Column(d.inj, k) else PressureSource(p.tau, d);
    var slope := JacobianEntry(exp, theta, d, tied, n, k);
    assert DualPrimary(exp, s.gainP, d.q0, d.t[n], s.tauP).eps == 0.0 by {
      PrimaryParts(exp, s.gainP, d.q0, d.t[n], s.tauP);
    }
    assert DualState(exp, s, d, n).eps == slope by {
      StateSlopeLinear(exp, p, s, k, d, u, n);
    }
    RateSlope(exp, s, d, n, 0.0, slope);
  }

  lemma PrimaryTauSlopeIsDual(exp: Exp, p: Params<real>, gain: Dual, tauP: Dual, d: ProducerData, n: nat)
    requires d.Valid() && n < d.Steps() && p.tauP != 0.0
    requires gain == Lift(p.gainP) && tauP == Dual(p.tauP, 1.0)
    ensures PrimaryTauSlope(exp, p, d, n) == DualPrimary(exp, gain, d.q0, d.t[n], tauP).eps
  {
    PrimaryParts(exp, gain, d.q0, d.t[n], tauP);
  }

  lemma GainSlopeIsDual(exp: Exp, p: Params<real>, gain: Dual, tauP: Dual, d: ProducerData, n: nat)
    requires d.Valid() && n < d.Steps() && p.tauP != 0.0
    requires gain.eps == 1.0 && tauP == Lift(p.tauP)
    ensures GainSlope(exp, p, d, n) == DualPrimary(exp, gain, d.q0, d.t[n], tauP).eps
  {
    PrimaryParts(exp, gain, d.q0, d.t[n], tauP);
  }

  lemma StateSlopeZero(exp: Exp, p: Params<real>, s: Params<Dual>, d: ProducerData, n: nat)
    requires d.Valid() && n < d.Steps() && p.tau != 0.0 && |p.f| == d.ni
    requires s.f == LiftAll(p.f) && s.tau == Lift(p.tau) && s.J == Lift(p.J)
    ensures DualState(exp, s, d, n).eps == 0.0
  {
    var zero := seq(d.Steps(), _ => 0.0);
    StateSlopeLinear(exp, p, s, d.ni, d, zero, n);
    FilterOfZero(Decays(exp, d.dt, p.tau), zero, OpenSteps(d), n);
  }

  /** The column of the free primary gain. */
  lemma JacobianEntryGain(exp: Exp, theta: Vec, d: ProducerData, n: nat)
    requires d.Valid() && GoodTheta(theta, d, false) && n < d.Steps() && d.Open(n)
    ensures JacobianEntry(exp, theta, d, false, n, d.ni + 1) == Slope(exp, theta, d, false, n, d.ni + 1)
  {
    var p := RealParams(theta, d, false);
    var s := SeededParams(theta, d.ni + 1, d, false);
    var slope := GainSlope(exp, p, d, n);
    assert DualState(exp, s, d, n).eps == 0.0 by {
      assert s.f == LiftAll(p.f);
      StateSlopeZero(exp, p, s, d, n);
    }
    GainSlopeIsDual(exp, p, s.gainP, s.tauP, d, n);
    RateSlope(exp, s, d, n, slope, 0.0);
  }

  /** The column of the free primary time constant. */
  lemma JacobianEntryTauP(exp: Exp, theta: Vec, d: ProducerData, n: nat)
    requires d.Valid() && GoodTheta(theta, d, false) && n < d.Steps() && d.Open(n)
    ensures JacobianEntry(exp, theta, d, false, n, d.ni + 2) == Slope(exp, theta, d, false, n, d.ni + 2)
  {
    var p := RealParams(theta, d, false);
    var s := SeededParams(theta, d.ni + 2, d, false);
    var slope := PrimaryTauSlope(exp, p, d, n);
    assert DualState(exp, s, d, n).eps == 0.0 by {
      assert s.f == LiftAll(p.f);
      StateSlopeZero(exp, p, s, d, n);
    }
    PrimaryTauSlopeIsDual(exp, p, s.gainP, s.tauP, d, n);
    RateSlope(exp, s, d, n, slope, 0.0);
  }

  lemma StateSlopeTau(exp: Exp, p: Params<real>, s: Params<Dual>, d: ProducerData, n: nat)
    requires d.Valid() && n < d.Steps() && p.tau != 0.0 && |p.f| == d.ni
    requires s.f == LiftAll(p.f) && s.tau == Dual(p.tau, 1.0) && s.J == Lift(p.J)
    ensures DualState(exp, s, d, n).eps == TauSlope(exp, p.f, p.tau, p.J, d, n)
  {
    TauSlopeIsDual(exp, p.f, p.tau, p.J, d, n);
  }

  lemma TiedTauSlopeIsDual(exp: Exp, p: Params<real>, s: Params<Dual>, d: ProducerData, n: nat)
    requires d.Valid() && |p.f| == d.ni && p.tau != 0.0 && p.tauP != 0.0 && n < d.Steps() && d.Open(n)
    requires s.f == LiftAll(p.f) && s.tau == Dual(p.tau, 1.0) && s.J == Lift(p.J)
    requires s.gainP == Lift(p.gainP) && s.tauP == Dual(p.tauP, 1.0)
    ensures TiedTauSlope(exp, p, d, n) == DualRate(exp, s, d, n).eps
  {
    StateSlopeTau(exp, p, s, d, n);
    PrimaryTauSlopeIsDual(exp, p, s.gainP, s.tauP, d, n);
  }

  /** The column of tau when the primary term is tied to it. */
  lemma JacobianEntryTied(exp: Exp, theta: Vec, d: ProducerData, n: nat)
    requires d.Valid() && GoodTheta(theta, d, true) && n < d.Steps() && d.Open(n)
    ensures JacobianEntry(exp, theta, d, true, n, d.ni) == Slope(exp, theta, d, true, n, d.ni)
  {
    var p := RealParams(theta, d, true);
    var s := SeededParams(theta, d.ni, d, true);
    assert s.f == LiftAll(p.f);
    TiedTauSlopeIsDual(exp, p, s, d, n);
  }

  /** The column of tau when the primary term has its own time constant. */
  lemma JacobianEntryTau(exp: Exp, theta: Vec, d: ProducerData, n: nat)
    requires d.Valid() && GoodTheta(theta, d, false) && n < d.Steps() && d.Open(n)
    ensures JacobianEntry(exp, theta, d, false, n, d.ni) == Slope(exp, theta, d, false, n, d.ni)
  {
    var p := RealParams(theta, d, false);
    var s := SeededParams(theta, d.ni, d, false);
    var state := TauSlope(exp, p.f, p.tau, p.J, d, n);
    assert DualState(exp, s, d, n).eps == state by {
      assert s.f == LiftAll(p.f);
      StateSlopeTau(exp, p, s, d, n);
    }
    assert DualPrimary(exp, s.gainP, d.q0, d.t[n], s.tauP).eps == 0.0 by {
      PrimaryParts(exp, s.gainP, d.q0, d.t[n], s.tauP);
    }
    RateSlope(exp, s, d, n, 0.0, state);
  }

  /** Every hand-written sensitivity is the exact derivative of the forward recursion. */
  lemma JacobianIsExact(exp: Exp, theta: Vec, d: ProducerData, tied: bool, n: nat, k: nat)
    requires d.Valid() && GoodTheta(theta, d, tied) && n < d.Steps() && k < |theta|
    ensures JacobianEntry(exp, theta, d, tied, n, k) == Slope(exp, theta, d, tied, n, k)
  {
    if d.Open(n) {
      if k == d.ni {
        if tied {
          JacobianEntryTied(exp, theta, d, n);
        } else {
          JacobianEntryTau(exp, theta, d, n);
        }
      } else if !tied && k == d.ni + 1 {
        JacobianEntryGain(exp, theta, d, n);
      } else if !tied && k == d.ni + 2 {
        JacobianEntryTauP(exp, theta, d, n);
      } else {
        JacobianEntryLinear(exp, theta, d, tied, n, k);
      }
    }
  }

  // ---------------------------------------------------------------- the real part of a dual run

  lemma PrimaryReal(exp: Exp, gain: Dual, q0: real, t: real, tauP: Dual, g: real, tau: real)
    requires tauP.re == tau != 0.0 && gain.re == g
    ensures DualPrimary(exp, gain, q0, t, tauP).re == g * q0 * exp[-t / tau]
  {
    var decay := DualDecay(exp, t, tauP);
    assert decay.re == exp[-t / tauP.re];
    assert gain.Mul(Lift(q0)).re == gain.re * q0;
  }

  lemma StateReal(exp: Exp, p: Params<real>, s: Params<Dual>, k: nat, d: ProducerData, n: nat)
    requires d.Valid() && |p.f| == |s.f| == d.ni && p.tau != 0.0 && n < d.Steps()
    requires s.tau.re == p.tau && s.J.re == p.J
    requires forall i :: 0 <= i < d.ni ==> s.f[i] == Dual(p.f[i], if i == k then 1.0 else 0.0)
    ensures DualState(exp, s, d, n).re == State(exp, p, d, n)
  {
    var de, du := DualDecays(exp, d.dt, s.tau), DualSource(s.f, s.tau, s.J, d);
    var e, u := Decays(exp, d.dt, p.tau), Source(p.f, p.tau, p.J, d);
    forall r | 0 <= r <= n
      ensures de[r].re == e[r] && du[r].re == u[r]
    {
      DualSourceParts(p.f, s.f, k, s.tau, s.J, d, r);
    }
    DualFilterReal(de, du, e, u, OpenSteps(d), n);
  }

  lemma SeededReal(theta: Vec, k: nat, d: ProducerData, tied: bool)
    requires GoodTheta(theta, d, tied)
    ensures var p, s := RealParams(theta, d, tied), SeededParams(theta, k, d, tied);
            && |p.f| == |s.f| == d.ni && (forall i :: 0 <= i < d.ni ==> s.f[i] == Dual(p.f[i], if i == k then 1.0 else 0.0))
            && s.tau.re == p.tau && s.gainP.re == p.gainP && s.tauP.re == p.tauP && s.J.re == p.J
  {
  }

  lemma PrimaryTermReal(exp: Exp, p: Params<real>, s: Params<Dual>, d: ProducerData, n: nat)
    requires d.Valid() && n < d.Steps() && s.gainP.re == p.gainP && s.tauP.re == p.tauP != 0.0
    ensures DualPrimary(exp, s.gainP, d.q0, d.t[n], s.tauP).re == PrimaryTerm(exp, p, d, n)
  {
    PrimaryReal(exp, s.gainP, d.q0, d.t[n], s.tauP, p.gainP, p.tauP);
  }

  lemma RateReal(exp: Exp, p: Params<real>, s: Params<Dual>, k: nat, d: ProducerData, n: nat)
    requires d.Valid() && |p.f| == |s.f| == d.ni && p.tau != 0.0 && p.tauP != 0.0 && n < d.Steps()
    requires s.tau.re == p.tau && s.J.re == p.J && s.gainP.re == p.gainP && s.tauP.re == p.tauP
    requires forall i :: 0 <= i < d.ni ==> s.f[i] == Dual(p.f[i], if i == k then 1.0 else 0.0)
    ensures DualRate(exp, s, d, n).re == Rate(exp, p, d, n)
  {
    if d.Open(n) {
      StateReal(exp, p, s, k, d, n);
      PrimaryTermReal(exp, p, s, d, n);
      RateParts(exp, p, s, d, n, PrimaryTerm(exp, p, d, n), State(exp, p, d, n));
    }
  }

  /** Whatever parameter is perturbed, the real part of the dual run is the model's rate. */
  lemma RealPartIsRate(exp: Exp, theta: Vec, k: nat, d: ProducerData, tied: bool, n: nat)
    requires d.Valid() && GoodTheta(theta, d, tied) && n < d.Steps()
    ensures DualRate(exp, SeededParams(theta, k, d, tied), d, n).re == Rate(exp, RealParams(theta, d, tied), d, n)
  {
    SeededReal(theta, k, d, tied);
    RateReal(exp, RealParams(theta, d, tied), SeededParams(theta, k, d, tied), k, d, n);
  }

  lemma RateParts(exp: Exp, p: Params<real>, s: Params<Dual>, d: ProducerData, n: nat, primary: real, state: real)
    requires d.Valid() && |p.f| == |s.f| == d.ni && p.tau != 0.0 && p.tauP != 0.0 && n < d.Steps() && d.Open(n)
    requires s.tau.re != 0.0 && s.tauP.re != 0.0
    requires primary == PrimaryTerm(exp, p, d, n) && primary == DualPrimary(exp, s.gainP, d.q0, d.t[n], s.tauP).re
    requires state == State(exp, p, d, n) && state == DualState(exp, s, d, n).re
    ensures DualRate(exp, s, d, n).re == Rate(exp, p, d, n)
  {
  }
}
