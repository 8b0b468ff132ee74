/**
 The field-level prediction (waterflood_app/models/solver.py, predict_field with producer_data and
 producer_start): each producer's history is sliced at its first producing step and run through the
 forward model.
 */
module Field {
  import opened Common
  import opened Statistics
  import opened Crm
  import opened CrmForward
  import opened Crmip
  import opened Redistribution

  /** The monthly grid: step n covers the interval ending at time[n]. */
  datatype GridData = GridData(
    ni: nat,
    np: nat,
    time: Vec,
    dt: Vec,
    inj: Matrix,  // (M, Ni)
    liq: Matrix,  // (M, Np)
    mask: seq<Mask>,  // (M, Np) producing steps
    bhp: Option<Matrix>)  // (M, Np)
  {
    function Steps(): nat {
      |time|
    }

    ghost predicate Valid() {
      && |dt| == Steps() && Shape(inj, Steps(), ni) && Shape(liq, Steps(), np)
      && |mask| == Steps() && (forall n :: 0 <= n < Steps() ==> |mask[n]| == np)
      && (bhp.Some? ==> Shape(bhp.value, Steps(), np))
      && (forall n :: 0 <= n < Steps() ==> dt[n] > 0.0)
    }
  }

  /** Fitted parameters: tau and J per producer (CRMP) or per pair (CRMIP). */
  datatype FieldParamsData =
    | Crmp(f: Matrix, gainP: Vec, tauP: Vec, shutIn: bool, cap: real, tau: Vec, J: Option<Vec>)
    | Crmip(f: Matrix, gainP: Vec, tauP: Vec, shutIn: bool, cap: real, pairTau: Matrix, pairJ: Option<Matrix>)
  {
    ghost predicate Valid(ni: nat, np: nat) {
      && Shape(f, ni, np) && |gainP| == |tauP| == np
      && (forall j :: 0 <= j < np ==> tauP[j] != 0.0)
      && (Crmp? ==> |tau| == np && (J.Some? ==> |J.value| == np) && forall j :: 0 <= j < np ==> tau[j] != 0.0)
      && (Crmip? ==>
            && Shape(pairTau, ni, np) && (pairJ.Some? ==> Shape(pairJ.value, ni, np))
            && forall i, j :: 0 <= i < ni && 0 <= j < np ==> pairTau[i][j] != 0.0)
    }

    function HasJ(): bool {
      if Crmp? then J.Some? else pairJ.Some?
    }
  }

  type FieldParams = p: FieldParamsData | p.Valid(|p.f|, |p.tauP|) witness Crmp([], [], [], false, 1.0, [], None)

  type Grid = g: GridData | g.Valid() witness GridData(0, 0, [], [], [], [], [], None)

  /** A fitted field: history, parameters that fit it, and the exponential the model is evaluated with. */
  datatype FieldSetup = FieldSetup(exp: Exp, g: Grid, p: FieldParams)

  type FieldModel = m: FieldSetup | |m.p.f| == m.g.ni && |m.p.tauP| == m.g.np
    ghost witness FieldSetup(imap z: real :: 0.0, GridData(0, 0, [], [], [], [], [], None), Crmp([], [], [], false, 1.0, [], None))

  predicate UsesJ(m: FieldModel) {
    m.p.HasJ() && m.g.bhp.Some?
  }

  // ---------------------------------------------------------------- first producing step

  /** First step from n on at which producer j is on, or the number of steps. */
  function FirstOn(mask: seq<Mask>, j: nat, n: nat): (s: nat)
    requires n <= |mask| && forall r :: 0 <= r < |mask| ==> j < |mask[r]|
    ensures n <= s <= |mask|
    decreases |mask| - n
  {
    if n == |mask| || mask[n][j] then n else FirstOn(mask, j, n + 1)
  }

  /** It is on there, and nowhere before. */
  lemma {:induction false} FirstOnIsFirst(mask: seq<Mask>, j: nat, n: nat)
    requires n <= |mask| && forall r :: 0 <= r < |mask| ==> j < |mask[r]|
    ensures var s := FirstOn(mask, j, n);
            && (s < |mask| ==> mask[s][j])
            && forall r :: n <= r < s ==> !mask[r][j]
    decreases |mask| - n
  {
    if n < |mask| && !mask[n][j] {
      FirstOnIsFirst(mask, j, n + 1);
    }
  }

  function Start(g: Grid, j: nat): (s: nat)
    requires j < g.np
    ensures s <= g.Steps()
  {
    FirstOn(g.mask, j, 0)
  }

  const POTENTIAL_MONTHS := 3

  /** End of the window a late starter's initial potential is taken from. */
  function WindowEnd(g: Grid, j: nat): nat
    requires j < g.np
  {
    if Start(g, j) + POTENTIAL_MONTHS <= g.Steps() then Start(g, j) + POTENTIAL_MONTHS else g.Steps()
  }

  /** Initial potential q(0): the first rate, or the median over the first months of a late starter. */
  function InitialPotential(g: Grid, j: nat): real
    requires j < g.np
  {
    var s := Start(g, j);
    if s == g.Steps() then 0.0
    else if s == 0 then g.liq[0][j]
    else Median(Column(g.liq, j)[s..WindowEnd(g, j)])
  }

  // ---------------------------------------------------------------- per-producer data

  /** Entry by entry product. */
  function Scaled(a: Matrix, b: Matrix, rows: nat, cols: nat): (c: Matrix)
    requires Shape(a, rows, cols) && Shape(b, rows, cols)
    ensures Shape(c, rows, cols)
    ensures forall n :: 0 <= n < rows ==> c[n] == ScaledRow(a[n], b[n])
  {
    seq(rows, n requires 0 <= n < rows => ScaledRow(a[n], b[n]))
  }

  function ScaledRow(a: Vec, b: Vec): (c: Vec)
    requires |a| == |b|
    ensures |c| == |a|
  {
    seq(|a|, i requires 0 <= i < |a| => a[i] * b[i])
  }

  /** The field as the fit saw it: injection scaled by the redistribution multipliers when that is on. */
  function Effective(m: FieldModel): (e: FieldModel)
    ensures e.exp == m.exp && e.p == m.p && e.g == m.g.(inj := e.g.inj)
  {
    if m.p.shutIn then
      m.(g := m.g.(inj := Scaled(m.g.inj, ShutInRedistribution(m.p.f, m.g.mask, m.p.cap), m.g.Steps(), m.g.ni)))
    else m
  }

  /** Pressure change per day; zero at the first step and without pressures. */
  function PressureRate(m: FieldModel, n: nat, j: nat): real
    requires n < m.g.Steps() && j < m.g.np
  {
    if UsesJ(m) && n > 0 then (m.g.bhp.value[n][j] - m.g.bhp.value[n - 1][j]) / m.g.dt[n] else 0.0
  }

  function ProducerDataOf(m: FieldModel, j: nat): (d: ProducerData)
    requires j < m.g.np
    ensures d.Valid() && d.ni == m.g.ni && d.Steps() == m.g.Steps() - Start(m.g, j)
  {
    var s := Start(m.g, j);
    var h := m.g.Steps() - s;
    ProducerData(
      ni := m.g.ni,
      inj := m.g.inj[s..],
      q := seq(h, r requires 0 <= r < h => m.g.liq[s + r][j]),
      w := seq(h, _ => 1.0),
      t := seq(h, r requires 0 <= r < h => m.g.time[s + r] - m.g.time[s]),
      dt := seq(h, r requires 0 <= r < h => m.g.dt[s + r]),
      dpdt := if UsesJ(m) then Some(seq(h, r requires 0 <= r < h => PressureRate(m, s + r, j))) else None,
      q0 := InitialPotential(m.g, j),
      nTrain := h,
      dist := None,
      allowed := None,
      start := s,
      open := if m.p.shutIn then Some(seq(h, r requires 0 <= r < h => m.g.mask[s + r][j])) else None)
  }

  /** Free-primary parameters of producer j. */
  function ProducerParams(m: FieldModel, j: nat): (q: Params<real>)
    requires j < m.g.np && m.p.Crmp?
    ensures |q.f| == m.g.ni && q.tau != 0.0 && q.tauP != 0.0
  {
    Params(Column(m.p.f, j), m.p.tau[j], m.p.gainP[j], m.p.tauP[j], if UsesJ(m) then m.p.J.value[j] else 0.0)
  }

  function ProducerTheta(m: FieldModel, j: nat): (theta: Vec)
    requires j < m.g.np && m.p.Crmip?
    ensures GoodPairTheta(theta, ProducerDataOf(m, j))
  {
    Column(m.p.f, j) + Column(m.p.pairTau, j) + [m.p.gainP[j], m.p.tauP[j]]
    + if UsesJ(m) then Column(m.p.pairJ.value, j) else []
  }

  /** What the forward model reports for producer j, r steps into its slice. */
  function SliceRate(m: FieldModel, j: nat, r: nat): real
    requires j < m.g.np && Start(m.g, j) + r < m.g.Steps()
  {
    var d := ProducerDataOf(m, j);
    if m.p.Crmp? then Rate(m.exp, ProducerParams(m, j), d, r) else PairRate(m.exp, ProducerTheta(m, j), d, r)
  }

  /** Liquid rate of producer j at step n: zero before its first producing step. */
  function RateAtStep(m: FieldModel, n: nat, j: nat): real
    requires n < m.g.Steps() && j < m.g.np
  {
    if n < Start(m.g, j) then 0.0 else SliceRate(m, j, n - Start(m.g, j))
  }

  /** Liquid prediction: the rates driven by the effective injection. */
  function PredictAt(m: FieldModel, n: nat, j: nat): real
    requires n < m.g.Steps() && j < m.g.np
  {
    RateAtStep(Effective(m), n, j)
  }

  // ---------------------------------------------------------------- the states behind the prediction

  /** States per producer: one for CRMP, one per injector for CRMIP. */
  function Pieces(p: FieldParams): nat {
    if p.Crmp? then 1 else |p.f|
  }

  function PieceTau(p: FieldParams, j: nat, k: nat): (tau: real)
    requires j < |p.tauP| && k < Pieces(p)
    ensures tau != 0.0
  {
    if p.Crmp? then p.tau[j] else p.pairTau[k][j]
  }

  function PieceJ(p: FieldParams, usesJ: bool, j: nat, k: nat): real
    requires j < |p.tauP| && k < Pieces(p) && (usesJ ==> p.HasJ())
  {
    if !usesJ then 0.0 else if p.Crmp? then p.J.value[j] else p.pairJ.value[k][j]
  }

  /** Injection that reaches state k of producer j. */
  function Support(p: FieldParams, row: Vec, j: nat, k: nat): real
    requires |row| == |p.f| && j < |p.tauP| && k < Pieces(p)
  {
    if p.Crmp? then Dot(Column(p.f, j), row, |row|) else p.f[k][j] * row[k]
  }

  function PieceSource(p: FieldParams, usesJ: bool, row: Vec, pressure: real, j: nat, k: nat): real
    requires |row| == |p.f| && j < |p.tauP| && k < Pieces(p) && (usesJ ==> p.HasJ())
  {
    Support(p, row, j, k) + -PieceJ(p, usesJ, j, k) * PieceTau(p, j, k) * pressure
  }

  function PieceDecay(exp: Exp, p: FieldParams, dt: real, j: nat, k: nat): real
    requires j < |p.tauP| && k < Pieces(p)
  {
    exp[-dt / PieceTau(p, j, k)]
  }

  /** Decays and sources of state k of producer j from its first producing step on, and the steps at which it moves. */
  function PieceDecays(m: FieldModel, j: nat, k: nat): (e: Vec)
    requires j < m.g.np && k < Pieces(m.p)
    ensures |e| == m.g.Steps() - Start(m.g, j)
  {
    var s := Start(m.g, j);
    seq(m.g.Steps() - s, r requires 0 <= r < m.g.Steps() - s => PieceDecay(m.exp, m.p, m.g.dt[s + r], j, k))
  }

  function PieceSources(m: FieldModel, j: nat, k: nat): (u: Vec)
    requires j < m.g.np && k < Pieces(m.p)
    ensures |u| == m.g.Steps() - Start(m.g, j)
  {
    var s := Start(m.g, j);
    seq(m.g.Steps() - s, r requires 0 <= r < m.g.Steps() - s =>
      PieceSource(m.p, UsesJ(m), m.g.inj[s + r], PressureRate(m, s + r, j), j, k))
  }

  function PieceOpen(m: FieldModel, j: nat): (o: Mask)
    requires j < m.g.np
    ensures |o| == m.g.Steps() - Start(m.g, j)
  {
    var s := Start(m.g, j);
    seq(m.g.Steps() - s, r requires 0 <= r < m.g.Steps() - s => !m.p.shutIn || m.g.mask[s + r][j])
  }

  /** State k of producer j at step n of the grid; zero before its first producing step. */
  function PieceAt(m: FieldModel, j: nat, k: nat, n: nat): real
    requires j < m.g.np && k < Pieces(m.p) && n < m.g.Steps()
  {
    if n < Start(m.g, j) then 0.0
    else Filter(PieceDecays(m, j, k), PieceSources(m, j, k), PieceOpen(m, j), n - Start(m.g, j))
  }

  lemma PieceAtIs(m: FieldModel, j: nat, k: nat, n: nat, e: Vec, u: Vec, o: Mask, r: nat)
    requires j < m.g.np && k < Pieces(m.p) && n < m.g.Steps() && n == Start(m.g, j) + r && r < |e| == |u| == |o|
    requires e == PieceDecays(m, j, k) && u == PieceSources(m, j, k) && o == PieceOpen(m, j)
    ensures PieceAt(m, j, k, n) == Filter(e, u, o, r)
  {
  }

  function PiecesAt(m: FieldModel, j: nat, n: nat): (x: Vec)
    requires j < m.g.np && n < m.g.Steps()
    ensures |x| == Pieces(m.p)
  {
    seq(Pieces(m.p), k requires 0 <= k < Pieces(m.p) => PieceAt(m, j, k, n))
  }

  /** The decay of the initial potential of producer j, t days after its first producing step. */
  function PrimaryAt(exp: Exp, p: FieldParams, q0: real, t: real, j: nat): real
    requires j < |p.tauP|
  {
    p.gainP[j] * q0 * exp[-t / p.tauP[j]]
  }

  /** Primary term plus states: what an open producer is predicted to deliver at step n. */
  function PieceRate(m: FieldModel, n: nat, j: nat): real
    requires n < m.g.Steps() && j < m.g.np && Start(m.g, j) < m.g.Steps()
  {
    PrimaryAt(m.exp, m.p, InitialPotential(m.g, j), m.g.time[n] - m.g.time[Start(m.g, j)], j)
    + Sum(PiecesAt(m, j, n), Pieces(m.p))
  }

  /** What an open producer delivers r steps into its slice; zero while shut in. */
  function PieceSlice(m: FieldModel, j: nat, r: nat): real
    requires j < m.g.np && Start(m.g, j) + r < m.g.Steps()
  {
    var n := Start(m.g, j) + r;
    if m.p.shutIn && !m.g.mask[n][j] then 0.0 else PieceRate(m, n, j)
  }

  // ---------------------------------------------------------------- the flat form is the forward model's state

  lemma SumOfOne(x: Vec)
    requires |x| == 1
    ensures Sum(x, 1) == x[0]
  {
    assert Sum(x, 0) == 0.0;
  }

  /** Step r of a slice: what the forward model sees is what the grid holds. */
  lemma SliceAt(m: FieldModel, j: nat, r: nat)
    requires j < m.g.np && Start(m.g, j) + r < m.g.Steps()
    ensures var d := ProducerDataOf(m, j);
            var n := Start(m.g, j) + r;
            && d.dt[r] == m.g.dt[n] && d.inj[r] == m.g.inj[n] && d.Open(r) == (!m.p.shutIn || m.g.mask[n][j])
            && d.Pressure(r) == PressureRate(m, n, j)
  {
  }

  lemma PieceInputsAt(m: FieldModel, j: nat, k: nat, r: nat)
    requires j < m.g.np && k < Pieces(m.p) && Start(m.g, j) + r < m.g.Steps()
    ensures var n := Start(m.g, j) + r;
            && PieceDecays(m, j, k)[r] == PieceDecay(m.exp, m.p, m.g.dt[n], j, k)
            && PieceSources(m, j, k)[r] == PieceSource(m.p, UsesJ(m), m.g.inj[n], PressureRate(m, n, j), j, k)
            && PieceOpen(m, j)[r] == (!m.p.shutIn || m.g.mask[n][j])
  {
  }

  lemma CrmpInputsAt(m: FieldModel, d: ProducerData, j: nat, r: nat)
    requires j < m.g.np && m.p.Crmp? && Start(m.g, j) + r < m.g.Steps() && d == ProducerDataOf(m, j)
    ensures var q := ProducerParams(m, j);
            && Decays(m.exp, d.dt, q.tau)[r] == PieceDecays(m, j, 0)[r]
            && Source(q.f, q.tau, q.J, d)[r] == PieceSources(m, j, 0)[r]
            && OpenSteps(d)[r] == PieceOpen(m, j)[r]
  {
    SliceAt(m, j, r);
    PieceInputsAt(m, j, 0, r);
  }

  lemma CrmpInputs(m: FieldModel, d: ProducerData, j: nat)
    requires j < m.g.np && m.p.Crmp? && Start(m.g, j) < m.g.Steps() && d == ProducerDataOf(m, j)
    ensures var q := ProducerParams(m, j);
            && Decays(m.exp, d.dt, q.tau) == PieceDecays(m, j, 0)
            && Source(q.f, q.tau, q.J, d) == PieceSources(m, j, 0)
            && OpenSteps(d) == PieceOpen(m, j)
  {
    var q := ProducerParams(m, j);
    var e, u, o := Decays(m.exp, d.dt, q.tau), Source(q.f, q.tau, q.J, d), OpenSteps(d);
    var e', u', o' := PieceDecays(m, j, 0), PieceSources(m, j, 0), PieceOpen(m, j);
    forall r | 0 <= r < d.Steps()
      ensures e[r] == e'[r] && u[r] == u'[r] && o[r] == o'[r]
    {
      CrmpInputsAt(m, d, j, r);
    }
  }

  lemma CrmipParams(m: FieldModel, d: ProducerData, j: nat, k: nat)
    requires j < m.g.np && m.p.Crmip? && k < m.g.ni && d == ProducerDataOf(m, j)
    ensures ProducerTheta(m, j)[k] == m.p.f[k][j] && ProducerTheta(m, j)[m.g.ni + k] == m.p.pairTau[k][j]
    ensures PairParams(ProducerTheta(m, j), d, k, 0.0) ==
            Params([m.p.f[k][j]], m.p.pairTau[k][j], m.p.gainP[j], m.p.tauP[j], PieceJ(m.p, UsesJ(m), j, k))
  {
  }

  lemma PairSourceIs(p: FieldParams, usesJ: bool, row: Vec, pressure: real, j: nat, k: nat)
    requires p.Crmip? && |row| == |p.f| && j < |p.tauP| && k < |p.f| && (usesJ ==> p.HasJ())
    ensures PieceSource(p, usesJ, row, pressure, j, k) ==
            Drive(p.f[k][j], row[k], PieceJ(p, usesJ, j, k), p.pairTau[k][j], pressure)
  {
  }

  lemma PairDecayIs(exp: Exp, p: FieldParams, dt: Vec, n: nat, j: nat, k: nat)
    requires p.Crmip? && j < |p.tauP| && k < |p.f| && n < |dt|
    ensures PieceDecay(exp, p, dt[n], j, k) == Decays(exp, dt, p.pairTau[k][j])[n]
  {
  }

  lemma CrmipSourceAt(m: FieldModel, d: ProducerData, theta: Vec, j: nat, k: nat, r: nat)
    requires j < m.g.np && m.p.Crmip? && k < m.g.ni && Start(m.g, j) + r < m.g.Steps()
    requires d == ProducerDataOf(m, j) && theta == ProducerTheta(m, j)
    ensures var q := PairParams(theta, d, k, 0.0);
            var n := Start(m.g, j) + r;
            Source(q.f, q.tau, q.J, PairData(d, k))[r]
            == PieceSource(m.p, UsesJ(m), m.g.inj[n], PressureRate(m, n, j), j, k)
  {
    var n := Start(m.g, j) + r;
    var q := PairParams(theta, d, k, 0.0);
    CrmipParams(m, d, j, k);
    assert Source(q.f, q.tau, q.J, PairData(d, k))[r] == Drive(m.p.f[k][j], m.g.inj[n][k], q.J, m.p.pairTau[k][j], PressureRate(m, n, j)) by {
      SliceAt(m, j, r);
      PairSourceAt(theta, d, k, r);
    }
    PairSourceIs(m.p, UsesJ(m), m.g.inj[n], PressureRate(m, n, j), j, k);
  }

  lemma CrmipInputsAt(m: FieldModel, d: ProducerData, j: nat, k: nat, r: nat)
    requires j < m.g.np && m.p.Crmip? && k < m.g.ni && Start(m.g, j) + r < m.g.Steps() && d == ProducerDataOf(m, j)
    ensures var q := PairParams(ProducerTheta(m, j), d, k, 0.0);
            && Decays(m.exp, PairData(d, k).dt, q.tau)[r] == PieceDecays(m, j, k)[r]
            && Source(q.f, q.tau, q.J, PairData(d, k))[r] == PieceSources(m, j, k)[r]
            && OpenSteps(PairData(d, k))[r] == PieceOpen(m, j)[r]
  {
    SliceAt(m, j, r);
    PieceInputsAt(m, j, k, r);
    CrmipSourceAt(m, d, ProducerTheta(m, j), j, k, r);
    CrmipParams(m, d, j, k);
    PairDecayIs(m.exp, m.p, d.dt, r, j, k);
  }

  lemma CrmipInputs(m: FieldModel, d: ProducerData, j: nat, k: nat)
    requires j < m.g.np && m.p.Crmip? && k < m.g.ni && Start(m.g, j) < m.g.Steps() && d == ProducerDataOf(m, j)
    ensures var q := PairParams(ProducerTheta(m, j), d, k, 0.0);
            && Decays(m.exp, PairData(d, k).dt, q.tau) == PieceDecays(m, j, k)
            && Source(q.f, q.tau, q.J, PairData(d, k)) == PieceSources(m, j, k)
            && OpenSteps(PairData(d, k)) == PieceOpen(m, j)
  {
    var q, pair := PairParams(ProducerTheta(m, j), d, k, 0.0), PairData(d, k);
    var e, u, o := Decays(m.exp, pair.dt, q.tau), Source(q.f, q.tau, q.J, pair), OpenSteps(pair);
    var e', u', o' := PieceDecays(m, j, k), PieceSources(m, j, k), PieceOpen(m, j);
    forall r | 0 <= r < d.Steps()
      ensures e[r] == e'[r] && u[r] == u'[r] && o[r] == o'[r]
    {
      CrmipInputsAt(m, d, j, k, r);
    }
  }

  lemma RateIs(exp: Exp, q: Params<real>, d: ProducerData, r: nat, e: Vec, u: Vec, o: Mask)
    requires d.Valid() && |q.f| == d.ni && q.tau != 0.0 && q.tauP != 0.0 && r < d.Steps()
    requires e == Decays(exp, d.dt, q.tau) && u == Source(q.f, q.tau, q.J, d) && o == OpenSteps(d)
    ensures Rate(exp, q, d, r) == if d.Open(r) then PrimaryTerm(exp, q, d, r) + Filter(e, u, o, r) else 0.0
  {
  }

  lemma PairRateIs(exp: Exp, theta: Vec, d: ProducerData, r: nat, states: Vec)
    requires d.Valid() && GoodPairTheta(theta, d) && r < d.Steps()
    requires states == PairStates(exp, theta, d, r)
    ensures PairRate(exp, theta, d, r) == if d.Open(r) then Primary(exp, theta, d, r) + Sum(states, d.ni) else 0.0
  {
  }

  lemma CrmpPrimary(m: FieldModel, j: nat, r: nat)
    requires j < m.g.np && m.p.Crmp? && Start(m.g, j) + r < m.g.Steps()
    ensures var q := ProducerParams(m, j);
            var d := ProducerDataOf(m, j);
            PrimaryTerm(m.exp, q, d, r)
            == PrimaryAt(m.exp, m.p, InitialPotential(m.g, j), m.g.time[Start(m.g, j) + r] - m.g.time[Start(m.g, j)], j)
  {
  }

  lemma CrmpSlice(m: FieldModel, j: nat, r: nat)
    requires j < m.g.np && m.p.Crmp? && Start(m.g, j) + r < m.g.Steps()
    ensures Rate(m.exp, ProducerParams(m, j), ProducerDataOf(m, j), r) == PieceSlice(m, j, r)
  {
    var n := Start(m.g, j) + r;
    var d, q := ProducerDataOf(m, j), ProducerParams(m, j);
    var e, u, o := PieceDecays(m, j, 0), PieceSources(m, j, 0), PieceOpen(m, j);
    var x := PiecesAt(m, j, n);
    var primary := PrimaryTerm(m.exp, q, d, r);
    assert Rate(m.exp, q, d, r) == if d.Open(r) then primary + Filter(e, u, o, r) else 0.0 by {
      CrmpInputs(m, d, j);
      RateIs(m.exp, q, d, r, e, u, o);
    }
    assert Sum(x, 1) == Filter(e, u, o, r) by {
      SumOfOne(x);
    }
    assert PieceSlice(m, j, r) == if d.Open(r) then primary + Sum(x, |x|) else 0.0 by {
      SliceAt(m, j, r);
      CrmpPrimary(m, j, r);
      PieceSliceIs(m, j, r, d.Open(r), primary, x);
    }
  }

  lemma CrmipPrimary(m: FieldModel, j: nat, r: nat)
    requires j < m.g.np && m.p.Crmip? && Start(m.g, j) + r < m.g.Steps()
    ensures Primary(m.exp, ProducerTheta(m, j), ProducerDataOf(m, j), r)
            == PrimaryAt(m.exp, m.p, InitialPotential(m.g, j), m.g.time[Start(m.g, j) + r] - m.g.time[Start(m.g, j)], j)
  {
    assert ProducerTheta(m, j)[2 * m.g.ni] == m.p.gainP[j] && ProducerTheta(m, j)[2 * m.g.ni + 1] == m.p.tauP[j];
  }

  lemma PairStateIs(exp: Exp, theta: Vec, d: ProducerData, k: nat, r: nat, e: Vec, u: Vec, o: Mask)
    requires d.Valid() && GoodPairTheta(theta, d) && k < d.ni && r < d.Steps()
    requires var q := PairParams(theta, d, k, 0.0);
             e == Decays(exp, PairData(d, k).dt, q.tau) && u == Source(q.f, q.tau, q.J, PairData(d, k)) && o == OpenSteps(PairData(d, k))
    ensures PairStates(exp, theta, d, r)[k] == Filter(e, u, o, r)
  {
  }

  lemma PairStatesArePieces(m: FieldModel, j: nat, r: nat)
    requires j < m.g.np && m.p.Crmip? && Start(m.g, j) + r < m.g.Steps()
    ensures PairStates(m.exp, ProducerTheta(m, j), ProducerDataOf(m, j), r) == PiecesAt(m, j, Start(m.g, j) + r)
  {
    var a := PairStates(m.exp, ProducerTheta(m, j), ProducerDataOf(m, j), r);
    var b := PiecesAt(m, j, Start(m.g, j) + r);
    forall k | 0 <= k < m.g.ni
      ensures a[k] == b[k]
    {
      CrmipInputs(m, ProducerDataOf(m, j), j, k);
      PairStateIs(m.exp, ProducerTheta(m, j), ProducerDataOf(m, j), k, r,
                  PieceDecays(m, j, k), PieceSources(m, j, k), PieceOpen(m, j));
    }
  }

  lemma PieceSliceIs(m: FieldModel, j: nat, r: nat, open: bool, primary: real, states: Vec)
    requires j < m.g.np && Start(m.g, j) + r < m.g.Steps()
    requires open == (!m.p.shutIn || m.g.mask[Start(m.g, j) + r][j]) && states == PiecesAt(m, j, Start(m.g, j) + r)
    requires primary == PrimaryAt(m.exp, m.p, InitialPotential(m.g, j), m.g.time[Start(m.g, j) + r] - m.g.time[Start(m.g, j)], j)
    ensures PieceSlice(m, j, r) == if open then primary + Sum(states, |states|) else 0.0
  {
  }

  lemma CrmipSlice(m: FieldModel, d: ProducerData, theta: Vec, j: nat, r: nat)
    requires j < m.g.np && m.p.Crmip? && Start(m.g, j) + r < m.g.Steps()
    requires d == ProducerDataOf(m, j) && theta == ProducerTheta(m, j)
    ensures PairRate(m.exp, theta, d, r) == PieceSlice(m, j, r)
  {
    var states := PiecesAt(m, j, Start(m.g, j) + r);
    SliceAt(m, j, r);
    CrmipPrimary(m, j, r);
    PairStatesArePieces(m, j, r);
    PairRateIs(m.exp, theta, d, r, states);
    PieceSliceIs(m, j, r, d.Open(r), Primary(m.exp, theta, d, r), states);
  }

  lemma SliceIsPieces(m: FieldModel, j: nat, r: nat)
    requires j < m.g.np && Start(m.g, j) + r < m.g.Steps()
    ensures SliceRate(m, j, r) == PieceSlice(m, j, r)
  {
    var d := ProducerDataOf(m, j);
    if m.p.Crmp? {
      var q := ProducerParams(m, j);
      assert SliceRate(m, j, r) == Rate(m.exp, q, d, r);
      CrmpSlice(m, j, r);
    } else {
      var theta := ProducerTheta(m, j);
      assert SliceRate(m, j, r) == PairRate(m.exp, theta, d, r);
      CrmipSlice(m, d, theta, j, r);
    }
  }

  /** The rate is the primary term plus the states, zero before the start and while shut in. */
  lemma RateIsPieces(m: FieldModel, n: nat, j: nat)
    requires n < m.g.Steps() && j < m.g.np
    ensures RateAtStep(m, n, j) ==
            if n < Start(m.g, j) || (m.p.shutIn && !m.g.mask[n][j]) then 0.0 else PieceRate(m, n, j)
  {
    if n >= Start(m.g, j) {
      var r := n - Start(m.g, j);
      var slice := SliceRate(m, j, r);
      assert RateAtStep(m, n, j) == slice;
      assert slice == PieceSlice(m, j, r) by {
        SliceIsPieces(m, j, r);
      }
    }
  }
}
