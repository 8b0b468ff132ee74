/**
 Predictions and forecasts in the grid's own rows (waterflood_app/models/solver.py, waterflood_app/models/forecast.py):
 where a producer's primary term starts from, where closed producers' water goes, and what a closed producer does
 over a plan.
 */
module GridTerms {
  import opened Common
  import opened Statistics
  import opened Crm
  import opened Redistribution
  import opened Field
  import opened Continuation
  import opened Forecast

  // ---------------------------------------------------------------- initial potential

  /** Producer j comes on stream at step s. */
  ghost predicate ComesOn(g: Grid, j: nat, s: nat)
    requires j < g.np
  {
    s < g.Steps() && g.mask[s][j] && forall r :: 0 <= r < s ==> !g.mask[r][j]
  }

  lemma StartIs(g: Grid, j: nat, s: nat)
    requires j < g.np && ComesOn(g, j, s)
    ensures Start(g, j) == s
  {
    FirstOnIsFirst(g.mask, j, 0);
  }

  /** A producer on stream from the first step starts from its first rate. */
  lemma PotentialIsFirstRate(g: Grid, j: nat)
    requires j < g.np && ComesOn(g, j, 0)
    ensures InitialPotential(g, j) == g.liq[0][j]
  {
    StartIs(g, j, 0);
  }

  /** A late starter starts from the middle of its first three rates, or of those there are. */
  lemma PotentialIsMiddle(g: Grid, j: nat, s: nat, w: Vec)
    requires j < g.np && ComesOn(g, j, s) && s > 0
    requires |w| == (if s + 3 <= g.Steps() then 3 else g.Steps() - s)
    requires forall r :: 0 <= r < |w| ==> w[r] == g.liq[s + r][j]
    ensures IsMiddle(w, InitialPotential(g, j))
    ensures 2 * CountAtMost(w, InitialPotential(g, j)) >= |w| && 2 * CountAtLeast(w, InitialPotential(g, j)) >= |w|
  {
    StartIs(g, j, s);
    assert Column(g.liq, j)[s..WindowEnd(g, j)] == w;
    MedianIsMiddle(w);
  }

  lemma SameRows(m: FieldModel, j: nat, s: nat)
    requires j < m.g.np && ComesOn(m.g, j, s)
    ensures Start(Effective(m).g, j) == Start(m.g, j) == s
    ensures InitialPotential(Effective(m).g, j) == InitialPotential(m.g, j)
  {
    StartIs(m.g, j, s);
    SameStart(m.g, Effective(m).g, j);
  }

  /** The states of a producer are zero at the step it comes on. */
  lemma NothingYet(m: FieldModel, j: nat, s: nat)
    requires j < m.g.np && s < m.g.Steps() && Start(m.g, j) == s
    ensures Sum(PiecesAt(m, j, s), Pieces(m.p)) == 0.0
  {
    var x := PiecesAt(m, j, s);
    forall k | 0 <= k < Pieces(m.p)
      ensures x[k] == 0.0
    {
      PieceAtIs(m, j, k, s, PieceDecays(m, j, k), PieceSources(m, j, k), PieceOpen(m, j), 0);
    }
    SumOfZeros(x, |x|);
  }

  lemma {:induction false} SumOfZeros(x: Vec, n: nat)
    requires n <= |x| && forall k :: 0 <= k < |x| ==> x[k] == 0.0
    ensures Sum(x, n) == 0.0
  {
    if n > 0 {
      SumOfZeros(x, n - 1);
    }
  }

  /** A rate q that declines exponentially with time constant tau, weighted by a gain, after t days. */
  function Declined(exp: Exp, gain: real, q: real, t: real, tau: real): real
    requires tau != 0.0
  {
    gain * q * exp[-t / tau]
  }

  lemma PrimaryDeclines(exp: Exp, p: FieldParams, q: real, t: real, j: nat)
    requires j < |p.tauP|
    ensures p.tauP[j] != 0.0 && PrimaryAt(exp, p, q, t, j) == Declined(exp, p.gainP[j], q, t, p.tauP[j])
  {
  }

  lemma NotYetDeclined(exp: Exp, gain: real, q: real, tau: real)
    requires tau != 0.0 && exp[0.0] == 1.0
    ensures Declined(exp, gain, q, 0.0, tau) == Times(gain, q)
  {
    assert -0.0 / tau == 0.0;
  }

  lemma OpenRateDeclines(m: FieldModel, n: nat, j: nat, q: real, t: real, x: Vec, gain: real, tau: real)
    requires n < m.g.Steps() && j < m.g.np && Start(m.g, j) <= n && (m.p.shutIn ==> m.g.mask[n][j])
    requires q == InitialPotential(m.g, j) && t == m.g.time[n] - m.g.time[Start(m.g, j)] && x == PiecesAt(m, j, n)
    requires gain == m.p.gainP[j] && tau == m.p.tauP[j]
    ensures tau != 0.0 && |x| == Pieces(m.p)
    ensures RateAtStep(m, n, j) == Declined(m.exp, gain, q, t, tau) + Sum(x, |x|)
  {
    PrimaryDeclines(m.exp, m.p, q, t, j);
    OpenRateIs(m, n, j, q, t, x);
  }

  lemma PredictIs(m: FieldModel, e: FieldModel, n: nat, j: nat)
    requires n < m.g.Steps() && j < m.g.np && e == Effective(m)
    ensures PredictAt(m, n, j) == RateAtStep(e, n, j)
  {
  }

  lemma OpenPrediction(m: FieldModel, j: nat, s: nat, n: nat, q: real, t: real, x: Vec, gain: real, tau: real)
    requires j < m.g.np && ComesOn(m.g, j, s) && s <= n < m.g.Steps() && (m.p.shutIn ==> m.g.mask[n][j])
    requires q == InitialPotential(m.g, j) && t == m.g.time[n] - m.g.time[s] && x == PiecesAt(Effective(m), j, n)
    requires gain == m.p.gainP[j] && tau == m.p.tauP[j]
    ensures tau != 0.0 && |x| == Pieces(m.p)
    ensures PredictAt(m, n, j) == Declined(m.exp, gain, q, t, tau) + Sum(x, |x|)
  {
    var e := Effective(m);
    SameRows(m, j, s);
    OpenRateDeclines(e, n, j, q, t, x, gain, tau);
    PredictIs(m, e, n, j);
  }

  /** At the step it comes on, a producer is predicted to deliver its gain times q(0), and nothing before. */
  lemma PredictionAtStart(m: FieldModel, j: nat, s: nat, n: nat)
    requires j < m.g.np && ComesOn(m.g, j, s) && n <= s && m.exp[0.0] == 1.0
    ensures PredictAt(m, n, j) == if n < s then 0.0 else Times(m.p.gainP[j], InitialPotential(m.g, j))
  {
    SameRows(m, j, s);
    if n == s {
      var q, x := InitialPotential(m.g, j), PiecesAt(Effective(m), j, s);
      OpenPrediction(m, j, s, s, q, 0.0, x, m.p.gainP[j], m.p.tauP[j]);
      NothingYet(Effective(m), j, s);
      NotYetDeclined(m.exp, m.p.gainP[j], q, m.p.tauP[j]);
    }
  }

  /** On stream from the first step: the first predicted rate is the gain times the first measured one. */
  lemma FirstPrediction(m: FieldModel, j: nat)
    requires j < m.g.np && ComesOn(m.g, j, 0) && m.exp[0.0] == 1.0
    ensures PredictAt(m, 0, j) == Times(m.p.gainP[j], m.g.liq[0][j])
  {
    PredictionAtStart(m, j, 0, 0);
    PotentialIsFirstRate(m.g, j);
  }

  /** From then on, while open: the first measured rate declined since the first step, plus the states. */
  lemma PredictionFromFirstRate(m: FieldModel, n: nat, j: nat, x: Vec, elapsed: real, gain: real, tau: real)
    requires j < m.g.np && ComesOn(m.g, j, 0) && n < m.g.Steps() && (m.p.shutIn ==> m.g.mask[n][j])
    requires x == PiecesAt(Effective(m), j, n) && elapsed == m.g.time[n] - m.g.time[0]
    requires gain == m.p.gainP[j] && tau == m.p.tauP[j]
    ensures tau != 0.0 && PredictAt(m, n, j) == Declined(m.exp, gain, m.g.liq[0][j], elapsed, tau) + Sum(x, |x|)
  {
    PotentialIsFirstRate(m.g, j);
    OpenPrediction(m, j, 0, n, m.g.liq[0][j], elapsed, x, gain, tau);
  }

  lemma ForecastIs(h: Horizon, e: Horizon, n: nat, j: nat)
    requires e == EffectiveHorizon(h) && j < h.m.g.np && n < h.Steps()
    ensures ForecastAt(h, n, j) == ContinueAt(e, n, j)
  {
  }

  lemma PlanDeclines(h: Horizon, n: nat, j: nat, q: real, x: Vec, elapsed: real, gain: real, tau: real)
    requires j < h.m.g.np && n < h.Steps() && q == InitialPotential(h.m.g, j) && x == ContinuedPieces(h, j, n + 1)
    requires elapsed == PlanTime(h, n, j) && gain == h.m.p.gainP[j] && tau == h.m.p.tauP[j]
    ensures tau != 0.0 && ContinueAt(h, n, j) == Declined(h.m.exp, gain, q, elapsed, tau) + Sum(x, |x|)
  {
    PrimaryDeclines(h.m.exp, h.m.p, q, elapsed, j);
    ContinueIs(h, n, j, q);
  }

  lemma PlanElapsed(h: Horizon, n: nat, j: nat)
    requires j < h.m.g.np && ComesOn(h.m.g, j, 0) && n < h.Steps()
    ensures PlanTime(EffectiveHorizon(h), n, j) == h.m.g.time[h.m.g.Steps() - 1] + Sum(h.plan.dt, n + 1) - h.m.g.time[0]
  {
    SameRows(h.m, j, 0);
  }

  /** And so over the plan. */
  lemma ForecastFromFirstRate(h: Horizon, n: nat, j: nat, x: Vec, elapsed: real, gain: real, tau: real)
    requires j < h.m.g.np && ComesOn(h.m.g, j, 0) && n < h.Steps()
    requires x == ContinuedPieces(EffectiveHorizon(h), j, n + 1)
    requires elapsed == h.m.g.time[h.m.g.Steps() - 1] + Sum(h.plan.dt, n + 1) - h.m.g.time[0]
    requires gain == h.m.p.gainP[j] && tau == h.m.p.tauP[j]
    ensures tau != 0.0 && ForecastAt(h, n, j) == Declined(h.m.exp, gain, h.m.g.liq[0][j], elapsed, tau) + Sum(x, |x|)
  {
    var e := EffectiveHorizon(h);
    PlanElapsed(h, n, j);
    SameRows(h.m, j, 0);
    PotentialIsFirstRate(h.m.g, j);
    PlanDeclines(e, n, j, h.m.g.liq[0][j], x, elapsed, gain, tau);
    ForecastIs(h, e, n, j);
  }

  /**
   The agreement of the two forms, read off the rows: for an open producer on stream from the first step, or with three
   rows of history from the step it comes on.
   */
  lemma ForecastMatchesFromRows(x: FieldModel, h: Horizon, liq: Matrix, n: nat, j: nat, s: nat)
    requires Extends(x, h, liq) && j < h.m.g.np && n < h.Steps() && ComesOn(h.m.g, j, s)
    requires s == 0 || s + 3 <= h.m.g.Steps()
    requires h.active.Some? && |h.active.value| == h.m.g.np ==> h.active.value[j]
    ensures x.g.np == h.m.g.np && x.g.Steps() == h.m.g.Steps() + h.Steps()
    ensures ForecastAt(h, n, j) == PredictAt(x, h.m.g.Steps() + n, j)
  {
    SameModel(x, h, liq);
    StartIs(h.m.g, j, s);
    ForecastMatchesPrediction(x, h, liq, n, j);
  }

  // ---------------------------------------------------------------- where the water goes

  lemma TimesRegroup(f: real, q: real, g: real)
    ensures Times(f, Times(q, g)) == Times(Times(f, g), q)
  {
  }

  lemma {:induction false} GotTotal(got: Vec, f: Vec, mask: Mask, g: real, q: real, e: real, n: nat)
    requires |got| == |f| == |mask| && n <= |f| && e == Times(q, g)
    requires forall k :: 0 <= k < |f| ==> got[k] == if mask[k] then Times(f[k], e) else 0.0
    ensures Sum(got, n) == Times(Sum(Masked(Received(f, g), mask), n), q)
  {
    if n > 0 {
      GotTotal(got, f, mask, g, q, e, n - 1);
      ScaledStep(Sum(Masked(Received(f, g), mask), n - 1), Times(f[n - 1], g), q, mask[n - 1]);
      TimesRegroup(f[n - 1], q, g);
    }
  }

  lemma TimesAtMost(a: real, b: real, q: real)
    requires a <= b && q >= 0.0
    ensures Times(a, q) <= Times(b, q)
  {
    MulNonNegative(b - a, q, (b - a) * q);
  }

  /** The water an injector sends to the open producers, from what the field model is driven by. */
  lemma WaterOf(got: Vec, f: Vec, mask: Mask, cap: real, q: real, g: real, e: real)
    requires |got| == |f| == |mask| && g == Multiplier(f, mask, cap) && e == Times(q, g)
    requires forall k :: 0 <= k < |f| ==> got[k] == if mask[k] then Times(f[k], e) else 0.0
    ensures var open := Sum(Masked(f, mask), |f|);
            open > NO_OPEN_PRODUCER && Sum(f, |f|) / open <= Max(1.0, cap) ==> Sum(got, |got|) == Times(Sum(f, |f|), q)
    ensures NonNegative(f) && q >= 0.0 ==> Sum(got, |got|) <= Times(Sum(f, |f|), q)
  {
    GotTotal(got, f, mask, g, q, e, |f|);
    DeliveredAtMostTotal(f, mask, cap);
    if NonNegative(f) && q >= 0.0 {
      TimesAtMost(Delivered(f, mask, cap), Sum(f, |f|), q);
    }
  }

  /**
   Over history: with redistribution on, the producers open at a step receive together what the injector would have
   sent to all of them, unless the cap or the guard applies, and never more. Without it nothing is scaled.
   */
  lemma HistoryWater(m: FieldModel, n: nat, i: nat, got: Vec)
    requires n < m.g.Steps() && i < m.g.ni && |got| == m.g.np
    requires forall j :: 0 <= j < m.g.np ==>
      got[j] == if m.g.mask[n][j] then Times(m.p.f[i][j], Effective(m).g.inj[n][i]) else 0.0
    ensures !m.p.shutIn ==> Effective(m).g.inj[n][i] == m.g.inj[n][i]
    ensures m.p.shutIn ==>
      var f := m.p.f[i];
      var open := Sum(Masked(f, m.g.mask[n]), |f|);
      && (open > NO_OPEN_PRODUCER && Sum(f, |f|) / open <= Max(1.0, m.p.cap) ==>
            Sum(got, |got|) == Times(Sum(f, |f|), m.g.inj[n][i]))
      && (NonNegative(f) && m.g.inj[n][i] >= 0.0 ==> Sum(got, |got|) <= Times(Sum(f, |f|), m.g.inj[n][i]))
  {
    if m.p.shutIn {
      var g := Multiplier(m.p.f[i], m.g.mask[n], m.p.cap);
      WaterOf(got, m.p.f[i], m.g.mask[n], m.p.cap, m.g.inj[n][i], g, Effective(m).g.inj[n][i]);
    }
  }

  /** Over a plan: the same, with the producers that the active flags leave open. */
  lemma PlanWater(h: Horizon, active: Mask, n: nat, i: nat, got: Vec)
    requires h.active == Some(active) && |active| == h.m.g.np && n < h.Steps() && i < h.m.g.ni && |got| == h.m.g.np
    requires forall j :: 0 <= j < h.m.g.np ==>
      got[j] == if active[j] then Times(h.m.p.f[i][j], EffectiveHorizon(h).plan.inj[n][i]) else 0.0
    ensures !h.m.p.shutIn ==> EffectiveHorizon(h).plan.inj[n][i] == h.plan.inj[n][i]
    ensures h.m.p.shutIn ==>
      var f := h.m.p.f[i];
      var open := Sum(Masked(f, active), |f|);
      && (open > NO_OPEN_PRODUCER && Sum(f, |f|) / open <= Max(1.0, h.m.p.cap) ==>
            Sum(got, |got|) == Times(Sum(f, |f|), h.plan.inj[n][i]))
      && (NonNegative(f) && h.plan.inj[n][i] >= 0.0 ==> Sum(got, |got|) <= Times(Sum(f, |f|), h.plan.inj[n][i]))
  {
    if h.m.p.shutIn {
      var g := Multiplier(h.m.p.f[i], active, h.m.p.cap);
      WaterOf(got, h.m.p.f[i], active, h.m.p.cap, h.plan.inj[n][i], g, EffectiveHorizon(h).plan.inj[n][i]);
    }
  }

  // ---------------------------------------------------------------- closed producers

  /** A producer that the flags close keeps its states over the plan; any other takes the step. */
  lemma MovesIffOpen(h: Horizon, active: Mask, j: nat, k: nat, n: nat)
    requires h.active == Some(active) && |active| == h.m.g.np && j < h.m.g.np && k < Pieces(h.m.p) && n < h.Steps()
    ensures ContinuedPiece(h, j, k, n + 1) ==
            if active[j] then Leak(ContinuedPiece(h, j, k, n), PlanDecays(h, j, k)[n], PlanSources(h, j, k)[n])
            else PieceAt(h.m, j, k, h.m.g.Steps() - 1)
  {
    var s, e, u := PieceAt(h.m, j, k, h.m.g.Steps() - 1), PlanDecays(h, j, k), PlanSources(h, j, k);
    assert OpenRow(h)[j] == active[j];
    assert ContinuedPiece(h, j, k, n) == Carry(s, e, u, active[j], n);
    assert ContinuedPiece(h, j, k, n + 1) == Carry(s, e, u, active[j], n + 1);
  }

  /** Nothing is reported for a producer that the flags close; for others the anchored forecast, never below zero. */
  lemma ReportsIffOpen(h: Horizon, active: Mask, anchor: Option<seq<Option<real>>>, liq: Matrix, n: nat, j: nat)
    requires h.active == Some(active) && |active| == h.m.g.np && n < h.Steps() && j < h.m.g.np
    requires (anchor.Some? ==> |anchor.value| == h.m.g.np) && IsReport(liq, h, anchor)
    ensures !active[j] ==> liq[n][j] == 0.0
    ensures active[j] && (anchor.None? || anchor.value[j].None?) ==> liq[n][j] == Max(0.0, ForecastAt(h, n, j))
    ensures active[j] && anchor.Some? && anchor.value[j].Some? ==>
      liq[n][j] == anchor.value[j].value * Max(0.0, ForecastAt(h, n, j))
  {
    assert liq[n][j] == Reported(ForecastAt(h, n, j), anchor, OpenRow(h)[j], j);
  }

  /** Flags of another length, or none, close nobody. */
  lemma NoFlagsNoneClosed(h: Horizon, j: nat)
    requires (h.active.None? || |h.active.value| != h.m.g.np) && j < h.m.g.np
    ensures OpenRow(h)[j]
  {
  }

  // ---------------------------------------------------------------- what a state remembers

  /** How much of step r is left at step n: the product of the decays of the open steps in between. */
  function Left(e: Vec, open: Mask, r: nat, n: nat): real
    requires r <= n < |e| && n < |open|
    decreases n
  {
    if r == n then 1.0 else if open[n] then Times(Left(e, open, r, n - 1), e[n]) else Left(e, open, r, n - 1)
  }

  /** What the sources of the open steps 1 to m have left at step n. */
  function Remembered(e: Vec, u: Vec, open: Mask, m: nat, n: nat): real
    requires m <= n < |e| && n < |u| && n < |open|
    decreases m
  {
    if m == 0 then 0.0
    else Remembered(e, u, open, m - 1, n)
         + if open[m] then Times(Times(1.0 - e[m], u[m]), Left(e, open, m, n)) else 0.0
  }

  lemma ForgetStep(sum: real, source: real, left: real, e: real)
    ensures Times(sum + Times(source, left), e) == Times(sum, e) + Times(source, Times(left, e))
  {
    assert (sum + source * left) * e == sum * e + source * (left * e);
  }

  lemma {:induction false} RememberedNext(e: Vec, u: Vec, open: Mask, m: nat, n: nat)
    requires m < n < |e| && n < |u| && n < |open|
    ensures Remembered(e, u, open, m, n) ==
            if open[n] then Times(Remembered(e, u, open, m, n - 1), e[n]) else Remembered(e, u, open, m, n - 1)
    decreases m
  {
    if m > 0 {
      RememberedNext(e, u, open, m - 1, n);
      if open[m] {
        ForgetStep(Remembered(e, u, open, m - 1, n - 1), Times(1.0 - e[m], u[m]), Left(e, open, m, n - 1), e[n]);
      }
    }
  }

  /** The recursion is a convolution: each open step's source, decayed over the open steps since. */
  lemma {:induction false} FilterIsConvolution(e: Vec, u: Vec, open: Mask, n: nat)
    requires n < |e| && n < |u| && n < |open|
    ensures Filter(e, u, open, n) == Remembered(e, u, open, n, n)
  {
    if n > 0 {
      FilterIsConvolution(e, u, open, n - 1);
      RememberedNext(e, u, open, n - 1, n);
      LeakIs(Filter(e, u, open, n - 1), e[n], u[n]);
    }
  }

  lemma LeakIs(x: real, e: real, u: real)
    ensures Leak(x, e, u) == Times(x, e) + Times(Times(1.0 - e, u), 1.0)
  {
  }
}
