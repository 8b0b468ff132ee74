/**
 The forecast continuation (waterflood_app/models/forecast.py): a plan continues from the states at the end
 of history. On history plus plan this is the field prediction.
 */
module Continuation {
  import opened Common
  import opened Statistics
  import opened Crm
  import opened Redistribution
  import opened Field

  /** What a plan brings: one row per future step. */
  datatype Plan = Plan(inj: Matrix, dt: Vec, bhp: Option<Matrix>)

  /** A fitted field, a plan for it, and the producers open at the end of history (None: all of them). */
  datatype HorizonSetup = HorizonSetup(m: FieldModel, plan: Plan, active: Option<Mask>) {
    function Steps(): nat {
      |plan.dt|
    }

    ghost predicate Valid() {
      && m.g.Steps() > 0
      && Shape(plan.inj, Steps(), m.g.ni)
      && (plan.bhp.Some? ==> Shape(plan.bhp.value, Steps(), m.g.np))
      && forall n :: 0 <= n < Steps() ==> plan.dt[n] > 0.0
    }
  }

  type Horizon = h: HorizonSetup | h.Valid()
    ghost witness HorizonSetup(
      FieldSetup(imap z: real :: 0.0, GridData(0, 0, [0.0], [1.0], [[]], [[]], [[]], None), Crmp([], [], [], false, 1.0, [], None)),
      Plan([], [], None), None)

  /** Producers open over the horizon: the active flags, or everyone when there are none of the right length. */
  function OpenRow(h: Horizon): (row: Mask)
    ensures |row| == h.m.g.np
  {
    if h.active.Some? && |h.active.value| == h.m.g.np then h.active.value else AlwaysOpen(h.m.g.np)
  }

  function AlwaysOpen(n: nat): (o: Mask)
    ensures |o| == n
  {
    seq(n, _ => true)
  }

  /** time[-1] + cumsum(dt) */
  function FutureTime(h: Horizon, n: nat): real
    requires n <= h.Steps()
  {
    h.m.g.time[h.m.g.Steps() - 1] + Sum(h.plan.dt, n)
  }

  /** Pressure change per day at plan step n; zero unless future pressures are given. */
  function FuturePressure(h: Horizon, n: nat, j: nat): real
    requires n < h.Steps() && j < h.m.g.np
  {
    if UsesJ(h.m) && h.plan.bhp.Some? then
      (h.plan.bhp.value[n][j]
       - (if n == 0 then h.m.g.bhp.value[h.m.g.Steps() - 1][j] else h.plan.bhp.value[n - 1][j])) / h.plan.dt[n]
    else 0.0
  }

  /** A state carried over the plan: frozen throughout for a closed producer. */
  function Carry(x: real, e: Vec, u: Vec, open: bool, n: nat): real
    requires n <= |e| && n <= |u|
  {
    if n == 0 || !open then x else Leak(Carry(x, e, u, open, n - 1), e[n - 1], u[n - 1])
  }

  function PlanDecays(h: Horizon, j: nat, k: nat): (e: Vec)
    requires j < h.m.g.np && k < Pieces(h.m.p)
    ensures |e| == h.Steps()
  {
    seq(h.Steps(), n requires 0 <= n < h.Steps() => PieceDecay(h.m.exp, h.m.p, h.plan.dt[n], j, k))
  }

  function PlanSources(h: Horizon, j: nat, k: nat): (u: Vec)
    requires j < h.m.g.np && k < Pieces(h.m.p)
    ensures |u| == h.Steps()
  {
    seq(h.Steps(), n requires 0 <= n < h.Steps() => PieceSource(h.m.p, UsesJ(h.m), h.plan.inj[n], FuturePressure(h, n, j), j, k))
  }

  /** State k of producer j after n plan steps. */
  function ContinuedPiece(h: Horizon, j: nat, k: nat, n: nat): real
    requires j < h.m.g.np && k < Pieces(h.m.p) && n <= h.Steps()
  {
    Carry(PieceAt(h.m, j, k, h.m.g.Steps() - 1), PlanDecays(h, j, k), PlanSources(h, j, k), OpenRow(h)[j], n)
  }

  function ContinuedPieces(h: Horizon, j: nat, n: nat): (x: Vec)
    requires j < h.m.g.np && n <= h.Steps()
    ensures |x| == Pieces(h.m.p)
  {
    seq(Pieces(h.m.p), k requires 0 <= k < Pieces(h.m.p) => ContinuedPiece(h, j, k, n))
  }

  /** Day zero of producer j's primary decay. */
  function DayZero(g: Grid, j: nat): real
    requires j < g.np && g.Steps() > 0
  {
    if Start(g, j) < g.Steps() then g.time[Start(g, j)] else g.time[g.Steps() - 1]
  }

  /** Days from producer j's first producing step to the end of plan step n. */
  function PlanTime(h: Horizon, n: nat, j: nat): real
    requires j < h.m.g.np && n < h.Steps()
  {
    FutureTime(h, n + 1) - DayZero(h.m.g, j)
  }

  /** Liquid of producer j at plan step n, continued from the states at the end of history. */
  function ContinueAt(h: Horizon, n: nat, j: nat): real
    requires j < h.m.g.np && n < h.Steps()
  {
    PrimaryAt(h.m.exp, h.m.p, InitialPotential(h.m.g, j), PlanTime(h, n, j), j)
    + Sum(ContinuedPieces(h, j, n + 1), Pieces(h.m.p))
  }

  /** The horizon as the fit saw it: history and plan injection scaled by the redistribution multipliers. */
  function EffectiveHorizon(h: Horizon): (e: Horizon)
    ensures e.m == Effective(h.m) && e.active == h.active && e.plan == h.plan.(inj := e.plan.inj)
  {
    HorizonSetup(Effective(h.m), EffectivePlan(h), h.active)
  }

  function EffectivePlan(h: Horizon): (plan: Plan)
    ensures plan == h.plan.(inj := plan.inj) && Shape(plan.inj, h.Steps(), h.m.g.ni)
  {
    if h.m.p.shutIn then
      h.plan.(inj := Scaled(h.plan.inj, ShutInRedistribution(h.m.p.f, OpenRows(h), h.m.p.cap), h.Steps(), h.m.g.ni))
    else h.plan
  }

  function OpenRows(h: Horizon): (rows: seq<Mask>)
    ensures |rows| == h.Steps() && forall n :: 0 <= n < h.Steps() ==> rows[n] == OpenRow(h)
  {
    seq(h.Steps(), _ => OpenRow(h))
  }

  // ---------------------------------------------------------------- history plus plan

  /** Future pressures on the extended grid: the last row repeated where the plan brings none of its own. */
  function FutureBhp(h: Horizon): (rows: Matrix)
    requires h.m.g.bhp.Some?
    ensures Shape(rows, h.Steps(), h.m.g.np)
  {
    if h.plan.bhp.Some? then h.plan.bhp.value else seq(h.Steps(), _ => h.m.g.bhp.value[h.m.g.Steps() - 1])
  }

  function FutureTimes(h: Horizon): (t: Vec)
    ensures |t| == h.Steps()
  {
    seq(h.Steps(), n requires 0 <= n < h.Steps() => FutureTime(h, n + 1))
  }

  /** The grid on which the field prediction sees history and plan together; liq is whatever the plan rows carry. */
  function Extend(h: Horizon, liq: Matrix): (x: Grid)
    requires Shape(liq, h.Steps(), h.m.g.np)
    ensures x.ni == h.m.g.ni && x.np == h.m.g.np && x.Steps() == h.m.g.Steps() + h.Steps()
  {
    var g := h.m.g;
    GridData(
      g.ni, g.np, g.time + FutureTimes(h), g.dt + h.plan.dt, g.inj + h.plan.inj, g.liq + liq, g.mask + OpenRows(h),
      if g.bhp.None? then None else Some(g.bhp.value + FutureBhp(h)))
  }

  /** The field on that grid, with the same parameters. */
  function Extended(h: Horizon, liq: Matrix): (x: FieldModel)
    requires Shape(liq, h.Steps(), h.m.g.np)
    ensures x.exp == h.m.exp && x.p == h.m.p && UsesJ(x) == UsesJ(h.m)
  {
    h.m.(g := Extend(h, liq))
  }

  /** q(0) does not look past the end of history. */
  predicate WindowInHistory(g: Grid, j: nat)
    requires j < g.np
  {
    Start(g, j) == 0 || Start(g, j) + POTENTIAL_MONTHS <= g.Steps()
  }

  ghost predicate Extends(x: FieldModel, h: Horizon, liq: Matrix) {
    Shape(liq, h.Steps(), h.m.g.np) && x == Extended(h, liq)
  }

  // ---------------------------------------------------------------- why they agree

  lemma {:induction false} FirstOnExtends(mask: seq<Mask>, more: seq<Mask>, j: nat, n: nat)
    requires n <= |mask| && forall r :: 0 <= r < |mask| ==> j < |mask[r]|
    requires forall r :: 0 <= r < |more| ==> j < |more[r]|
    requires FirstOn(mask, j, n) < |mask|
    ensures FirstOn(mask + more, j, n) == FirstOn(mask, j, n)
    decreases |mask| - n
  {
    assert (mask + more)[n] == mask[n];
    if !mask[n][j] {
      FirstOnExtends(mask, more, j, n + 1);
    }
  }

  /** A producer that started in history starts at the same step of the extended grid. */
  lemma StartExtends(x: FieldModel, h: Horizon, liq: Matrix, j: nat)
    requires Extends(x, h, liq) && j < h.m.g.np && Start(h.m.g, j) < h.m.g.Steps()
    ensures Start(x.g, j) == Start(h.m.g, j)
  {
    FirstOnExtends(h.m.g.mask, OpenRows(h), j, 0);
  }

  /** With its window inside history, q(0) is the same on both grids. */
  lemma PotentialExtends(x: FieldModel, h: Horizon, liq: Matrix, j: nat)
    requires Extends(x, h, liq) && j < h.m.g.np && Start(h.m.g, j) < h.m.g.Steps() && WindowInHistory(h.m.g, j)
    ensures InitialPotential(x.g, j) == InitialPotential(h.m.g, j)
  {
    StartExtends(x, h, liq, j);
    if Start(h.m.g, j) > 0 {
      var s := Start(h.m.g, j);
      assert Column(x.g.liq, j)[s..WindowEnd(x.g, j)] == Column(h.m.g.liq, j)[s..WindowEnd(h.m.g, j)];
    }
  }

  lemma SameModel(x: FieldModel, h: Horizon, liq: Matrix)
    requires Extends(x, h, liq)
    ensures x.exp == h.m.exp && x.p == h.m.p && UsesJ(x) == UsesJ(h.m)
    ensures x.g.np == h.m.g.np && x.g.Steps() == h.m.g.Steps() + h.Steps()
  {
  }

  /** What drives a state is the same on the extended grid up to the end of history. */
  lemma HistoryInputs(x: FieldModel, h: Horizon, liq: Matrix, n: nat, j: nat)
    requires Extends(x, h, liq) && j < h.m.g.np && n < h.m.g.Steps()
    ensures x.g.mask[n] == h.m.g.mask[n] && x.g.dt[n] == h.m.g.dt[n] && x.g.inj[n] == h.m.g.inj[n]
    ensures PressureRate(x, n, j) == PressureRate(h.m, n, j)
  {
  }

  /** What drives a state at a plan step is what the continuation uses. */
  lemma PlanInputs(x: FieldModel, h: Horizon, liq: Matrix, n: nat, j: nat)
    requires Extends(x, h, liq) && j < h.m.g.np && n < h.Steps()
    ensures var r := h.m.g.Steps() + n;
            && x.g.mask[r] == OpenRow(h) && x.g.dt[r] == h.plan.dt[n] && x.g.inj[r] == h.plan.inj[n]
            && PressureRate(x, r, j) == FuturePressure(h, n, j)
  {
    if UsesJ(h.m) {
      assert x.g.bhp.value[h.m.g.Steps() + n] == FutureBhp(h)[n];
      if h.plan.bhp.None? {
        ZeroOver(x.g.dt[h.m.g.Steps() + n]);
      }
    }
  }

  lemma ZeroOver(d: real)
    requires d > 0.0
    ensures 0.0 / d == 0.0
  {
  }

  // ---------------------------------------------------------------- filters over history and plan

  lemma {:induction false} FilterPrefix(e: Vec, u: Vec, o: Mask, e': Vec, u': Vec, o': Mask, n: nat)
    requires n < |e| <= |e'| && n < |u| <= |u'| && n < |o| <= |o'|
    requires forall r :: 0 <= r <= n ==> e[r] == e'[r] && u[r] == u'[r] && o[r] == o'[r]
    ensures Filter(e, u, o, n) == Filter(e', u', o', n)
  {
    if n > 0 {
      FilterPrefix(e, u, o, e', u', o', n - 1);
    }
  }

  /** Running a filter on appended open steps is carrying its last state over them. */
  lemma {:induction false} FilterContinues(E: Vec, U: Vec, O: Mask, e: Vec, u: Vec, n: nat)
    requires |E| == |U| == |O| > 0 && |e| == |u| && n <= |e|
    ensures Filter(E + e, U + u, O + AlwaysOpen(|e|), |E| - 1 + n) == Carry(Filter(E, U, O, |E| - 1), e, u, true, n)
  {
    if n == 0 {
      FilterPrefix(E, U, O, E + e, U + u, O + AlwaysOpen(|e|), |E| - 1);
    } else {
      FilterContinues(E, U, O, e, u, n - 1);
      var last := |E| - 1 + n;
      assert (E + e)[last] == e[n - 1] && (U + u)[last] == u[n - 1] && (O + AlwaysOpen(|e|))[last];
    }
  }

  lemma CarriedOn(E: Vec, U: Vec, O: Mask, e: Vec, u: Vec, e': Vec, u': Vec, o': Mask, m: nat, n: nat, state: real)
    requires |E| == |U| == |O| == m > 0 && |e| == |u| && n <= |e| && state == Filter(E, U, O, m - 1)
    requires e' == E + e && u' == U + u && o' == O + AlwaysOpen(|e|)
    ensures Filter(e', u', o', m - 1 + n) == Carry(state, e, u, true, n)
  {
    FilterContinues(E, U, O, e, u, n);
  }

  lemma StepInputs(x: FieldModel, h: Horizon, liq: Matrix, j: nat, k: nat, r: nat)
    requires Extends(x, h, liq) && j < h.m.g.np && k < Pieces(h.m.p)
    requires Start(x.g, j) == Start(h.m.g, j) && Start(h.m.g, j) + r < h.m.g.Steps()
    ensures PieceDecays(x, j, k)[r] == PieceDecays(h.m, j, k)[r]
    ensures PieceSources(x, j, k)[r] == PieceSources(h.m, j, k)[r]
    ensures PieceOpen(x, j)[r] == PieceOpen(h.m, j)[r]
  {
    PieceInputsAt(x, j, k, r);
    PieceInputsAt(h.m, j, k, r);
    HistoryInputs(x, h, liq, Start(h.m.g, j) + r, j);
  }

  lemma PlanStepInputs(x: FieldModel, h: Horizon, liq: Matrix, j: nat, k: nat, n: nat)
    requires Extends(x, h, liq) && j < h.m.g.np && k < Pieces(h.m.p)
    requires Start(x.g, j) == Start(h.m.g, j) < h.m.g.Steps() && n < h.Steps() && OpenRow(h)[j]
    ensures var r := h.m.g.Steps() - Start(h.m.g, j) + n;
            && PieceDecays(x, j, k)[r] == PlanDecays(h, j, k)[n]
            && PieceSources(x, j, k)[r] == PlanSources(h, j, k)[n]
            && PieceOpen(x, j)[r]
  {
    PieceInputsAt(x, j, k, h.m.g.Steps() - Start(h.m.g, j) + n);
    PlanInputs(x, h, liq, n, j);
  }

  /** The inputs of a state on the extended grid are those of history followed by those of the plan. */
  lemma InputsExtend(x: FieldModel, h: Horizon, liq: Matrix, j: nat, k: nat)
    requires Extends(x, h, liq) && j < h.m.g.np && k < Pieces(h.m.p)
    requires Start(x.g, j) == Start(h.m.g, j) < h.m.g.Steps() && OpenRow(h)[j]
    ensures PieceDecays(x, j, k) == PieceDecays(h.m, j, k) + PlanDecays(h, j, k)
    ensures PieceSources(x, j, k) == PieceSources(h.m, j, k) + PlanSources(h, j, k)
    ensures PieceOpen(x, j) == PieceOpen(h.m, j) + AlwaysOpen(h.Steps())
  {
    var m := h.m.g.Steps() - Start(h.m.g, j);
    var e, u, o := PieceDecays(x, j, k), PieceSources(x, j, k), PieceOpen(x, j);
    var E, U, O := PieceDecays(h.m, j, k), PieceSources(h.m, j, k), PieceOpen(h.m, j);
    var e', u', o' := PlanDecays(h, j, k), PlanSources(h, j, k), AlwaysOpen(h.Steps());
    forall r | 0 <= r < m + h.Steps()
      ensures e[r] == (E + e')[r] && u[r] == (U + u')[r] && o[r] == (O + o')[r]
    {
      if r < m {
        StepInputs(x, h, liq, j, k, r);
      } else {
        PlanStepInputs(x, h, liq, j, k, r - m);
      }
    }
  }

  lemma ContinuedPieceIs(h: Horizon, j: nat, k: nat, n: nat, x: real, e: Vec, u: Vec)
    requires j < h.m.g.np && k < Pieces(h.m.p) && n <= h.Steps() && OpenRow(h)[j]
    requires x == PieceAt(h.m, j, k, h.m.g.Steps() - 1) && e == PlanDecays(h, j, k) && u == PlanSources(h, j, k)
    ensures ContinuedPiece(h, j, k, n) == Carry(x, e, u, true, n)
  {
  }

  lemma StateContinues(x: FieldModel, h: Horizon, j: nat, k: nat, n: nat, at: nat)
    requires j < h.m.g.np == x.g.np && k < Pieces(h.m.p) && n <= h.Steps() && at + 1 == h.m.g.Steps() + n && OpenRow(h)[j]
    requires x.p == h.m.p && Start(x.g, j) == Start(h.m.g, j) < h.m.g.Steps() && x.g.Steps() == h.m.g.Steps() + h.Steps()
    requires PieceDecays(x, j, k) == PieceDecays(h.m, j, k) + PlanDecays(h, j, k)
    requires PieceSources(x, j, k) == PieceSources(h.m, j, k) + PlanSources(h, j, k)
    requires PieceOpen(x, j) == PieceOpen(h.m, j) + AlwaysOpen(h.Steps())
    ensures PieceAt(x, j, k, at) == ContinuedPiece(h, j, k, n)
  {
    var m := h.m.g.Steps() - Start(h.m.g, j);
    var E, U, O := PieceDecays(h.m, j, k), PieceSources(h.m, j, k), PieceOpen(h.m, j);
    var e, u := PlanDecays(h, j, k), PlanSources(h, j, k);
    var e', u', o' := PieceDecays(x, j, k), PieceSources(x, j, k), PieceOpen(x, j);
    var state := Filter(E, U, O, m - 1);
    assert PieceAt(h.m, j, k, h.m.g.Steps() - 1) == state by {
      PieceAtIs(h.m, j, k, h.m.g.Steps() - 1, E, U, O, m - 1);
    }
    assert ContinuedPiece(h, j, k, n) == Carry(state, e, u, true, n) by {
      ContinuedPieceIs(h, j, k, n, state, e, u);
    }
    assert PieceAt(x, j, k, at) == Filter(e', u', o', m - 1 + n) by {
      PieceAtIs(x, j, k, at, e', u', o', m - 1 + n);
    }
    CarriedOn(E, U, O, e, u, e', u', o', m, n, state);
  }

  /** The continued state of an open producer is the state on the extended grid. */
  lemma PieceContinues(x: FieldModel, h: Horizon, liq: Matrix, j: nat, k: nat, n: nat, at: nat)
    requires Extends(x, h, liq) && j < h.m.g.np && k < Pieces(h.m.p) && n <= h.Steps() && at + 1 == h.m.g.Steps() + n
    requires Start(h.m.g, j) < h.m.g.Steps() && OpenRow(h)[j]
    ensures PieceAt(x, j, k, at) == ContinuedPiece(h, j, k, n)
  {
    SameModel(x, h, liq);
    StartExtends(x, h, liq, j);
    InputsExtend(x, h, liq, j, k);
    StateContinues(x, h, j, k, n, at);
  }

  lemma EntrySame(x: FieldModel, h: Horizon, j: nat, n: nat, k: nat, at: nat)
    requires x.p == h.m.p && j < h.m.g.np == x.g.np && n <= h.Steps() && k < Pieces(h.m.p) && at < x.g.Steps()
    requires PieceAt(x, j, k, at) == ContinuedPiece(h, j, k, n)
    ensures PiecesAt(x, j, at)[k] == ContinuedPieces(h, j, n)[k]
  {
  }

  lemma EntryContinues(x: FieldModel, h: Horizon, liq: Matrix, j: nat, n: nat, k: nat, at: nat)
    requires Extends(x, h, liq) && j < h.m.g.np && n < h.Steps() && at == h.m.g.Steps() + n && k < Pieces(h.m.p)
    requires Start(h.m.g, j) < h.m.g.Steps() && OpenRow(h)[j]
    requires x.p == h.m.p && x.g.np == h.m.g.np && at < x.g.Steps()
    ensures PiecesAt(x, j, at)[k] == ContinuedPieces(h, j, n + 1)[k]
  {
    PieceContinues(x, h, liq, j, k, n + 1, at);
    EntrySame(x, h, j, n + 1, k, at);
  }

  lemma PiecesContinue(x: FieldModel, h: Horizon, liq: Matrix, j: nat, n: nat, at: nat)
    requires Extends(x, h, liq) && j < h.m.g.np && n < h.Steps() && at == h.m.g.Steps() + n
    requires Start(h.m.g, j) < h.m.g.Steps() && OpenRow(h)[j]
    ensures PiecesAt(x, j, at) == ContinuedPieces(h, j, n + 1)
  {
    SameModel(x, h, liq);
    var a, b := PiecesAt(x, j, at), ContinuedPieces(h, j, n + 1);
    forall k | 0 <= k < Pieces(h.m.p)
      ensures a[k] == b[k]
    {
      EntryContinues(x, h, liq, j, n, k, at);
    }
  }

  lemma SameTime(x: FieldModel, h: Horizon, liq: Matrix, j: nat, n: nat)
    requires Extends(x, h, liq) && j < h.m.g.np && n < h.Steps() && Start(x.g, j) == Start(h.m.g, j) < h.m.g.Steps()
    ensures x.g.time[h.m.g.Steps() + n] - x.g.time[Start(x.g, j)] == PlanTime(h, n, j)
  {
    assert x.g.time[h.m.g.Steps() + n] == FutureTimes(h)[n];
  }

  lemma OpenRateIs(m: FieldModel, n: nat, j: nat, q0: real, t: real, states: Vec)
    requires n < m.g.Steps() && j < m.g.np && Start(m.g, j) <= n && (m.p.shutIn ==> m.g.mask[n][j])
    requires q0 == InitialPotential(m.g, j) && t == m.g.time[n] - m.g.time[Start(m.g, j)] && states == PiecesAt(m, j, n)
    ensures RateAtStep(m, n, j) == PrimaryAt(m.exp, m.p, q0, t, j) + Sum(states, Pieces(m.p))
  {
    var rate, pieces := RateAtStep(m, n, j), PieceRate(m, n, j);
    assert rate == pieces by {
      RateIsPieces(m, n, j);
    }
  }

  /** The field prediction at a plan step: continued states, and the extended grid's own initial potential. */
  lemma PredictExtended(x: FieldModel, h: Horizon, liq: Matrix, n: nat, j: nat, q0: real)
    requires Extends(x, h, liq) && j < h.m.g.np && n < h.Steps()
    requires Start(h.m.g, j) < h.m.g.Steps() && OpenRow(h)[j] && q0 == InitialPotential(x.g, j)
    ensures RateAtStep(x, h.m.g.Steps() + n, j) ==
            PrimaryAt(h.m.exp, h.m.p, q0, PlanTime(h, n, j), j) + Sum(ContinuedPieces(h, j, n + 1), Pieces(h.m.p))
  {
    var at, t, states := h.m.g.Steps() + n, PlanTime(h, n, j), ContinuedPieces(h, j, n + 1);
    SameModel(x, h, liq);
    StartExtends(x, h, liq, j);
    assert x.g.mask[at][j] by {
      PlanInputs(x, h, liq, n, j);
    }
    assert x.g.time[at] - x.g.time[Start(x.g, j)] == t by {
      SameTime(x, h, liq, j, n);
    }
    assert PiecesAt(x, j, at) == states by {
      PiecesContinue(x, h, liq, j, n, at);
    }
    OpenRateIs(x, at, j, q0, t, states);
  }

  lemma ContinueIs(h: Horizon, n: nat, j: nat, q0: real)
    requires j < h.m.g.np && n < h.Steps() && q0 == InitialPotential(h.m.g, j)
    ensures ContinueAt(h, n, j) ==
            PrimaryAt(h.m.exp, h.m.p, q0, PlanTime(h, n, j), j) + Sum(ContinuedPieces(h, j, n + 1), Pieces(h.m.p))
  {
  }

  /** With its window inside history, an open producer's continuation is the field prediction. */
  lemma ContinueMatches(x: FieldModel, h: Horizon, liq: Matrix, n: nat, j: nat)
    requires Extends(x, h, liq) && j < h.m.g.np && n < h.Steps()
    requires Start(h.m.g, j) < h.m.g.Steps() && OpenRow(h)[j] && WindowInHistory(h.m.g, j)
    ensures ContinueAt(h, n, j) == RateAtStep(x, h.m.g.Steps() + n, j)
  {
    var q0 := InitialPotential(h.m.g, j);
    PotentialExtends(x, h, liq, j);
    PredictExtended(x, h, liq, n, j, q0);
    ContinueIs(h, n, j, q0);
  }

  lemma PrimaryInjective(gain: real, q: real, q': real, decay: real, v: real)
    requires gain != 0.0 && decay != 0.0 && v == gain * q * decay && v == gain * q' * decay
    ensures q == q'
  {
    assert gain * q == v / decay && gain * q' == v / decay;
    assert q == v / decay / gain && q' == v / decay / gain;
  }

  lemma PrimaryIffPotential(exp: Exp, p: FieldParams, q: real, q': real, t: real, j: nat)
    requires IsDecay(exp) && j < |p.tauP| && p.tauP[j] > 0.0 && t >= 0.0
    ensures PrimaryAt(exp, p, q, t, j) == PrimaryAt(exp, p, q', t, j) <==> p.gainP[j] == 0.0 || q == q'
  {
    NegativeQuotient(t, p.tauP[j]);
    if p.gainP[j] != 0.0 && PrimaryAt(exp, p, q, t, j) == PrimaryAt(exp, p, q', t, j) {
      PrimaryInjective(p.gainP[j], q, q', exp[-t / p.tauP[j]], PrimaryAt(exp, p, q, t, j));
    }
  }

  lemma ContinueMatchesIff(x: FieldModel, h: Horizon, liq: Matrix, n: nat, j: nat, q: real, q': real)
    requires Extends(x, h, liq) && j < h.m.g.np && n < h.Steps() && IsDecay(h.m.exp)
    requires Start(h.m.g, j) < h.m.g.Steps() && OpenRow(h)[j]
    requires h.m.p.tauP[j] > 0.0 && PlanTime(h, n, j) >= 0.0
    requires q == InitialPotential(h.m.g, j) && q' == InitialPotential(x.g, j)
    ensures ContinueAt(h, n, j) == RateAtStep(x, h.m.g.Steps() + n, j) <==> h.m.p.gainP[j] == 0.0 || q == q'
  {
    PredictExtended(x, h, liq, n, j, q');
    ContinueIs(h, n, j, q);
    PrimaryIffPotential(h.m.exp, h.m.p, q, q', PlanTime(h, n, j), j);
  }

  // ---------------------------------------------------------------- with the redistribution of the fit

  lemma ScaledAppend(a: Matrix, b: Matrix, c: Matrix, d: Matrix, rows: nat, more: nat, cols: nat)
    requires Shape(a, rows, cols) && Shape(b, rows, cols) && Shape(c, more, cols) && Shape(d, more, cols)
    ensures Scaled(a + c, b + d, rows + more, cols) == Scaled(a, b, rows, cols) + Scaled(c, d, more, cols)
  {
  }

  lemma RedistributionAppend(f: Matrix, mask: seq<Mask>, more: seq<Mask>, cap: real)
    requires forall i, n :: 0 <= i < |f| && 0 <= n < |mask| ==> |f[i]| == |mask[n]|
    requires forall i, n :: 0 <= i < |f| && 0 <= n < |more| ==> |f[i]| == |more[n]|
    ensures forall i, n :: 0 <= i < |f| && 0 <= n < |mask + more| ==> |f[i]| == |(mask + more)[n]|
    ensures ShutInRedistribution(f, mask + more, cap) == ShutInRedistribution(f, mask, cap) + ShutInRedistribution(f, more, cap)
  {
    var a, b := ShutInRedistribution(f, mask + more, cap), ShutInRedistribution(f, mask, cap) + ShutInRedistribution(f, more, cap);
    forall n | 0 <= n < |a|
      ensures a[n] == b[n]
    {
    }
  }

  /** Scaling history and plan separately is scaling them together. */
  lemma EffectiveExtends(x: FieldModel, h: Horizon, liq: Matrix)
    requires Extends(x, h, liq)
    ensures Extends(Effective(x), EffectiveHorizon(h), liq)
  {
    if h.m.p.shutIn {
      RedistributionAppend(h.m.p.f, h.m.g.mask, OpenRows(h), h.m.p.cap);
      ScaledAppend(h.m.g.inj, ShutInRedistribution(h.m.p.f, h.m.g.mask, h.m.p.cap),
                   h.plan.inj, ShutInRedistribution(h.m.p.f, OpenRows(h), h.m.p.cap),
                   h.m.g.Steps(), h.Steps(), h.m.g.ni);
    }
    SameFuture(h);
  }

  lemma SameFuture(h: Horizon)
    ensures FutureTimes(EffectiveHorizon(h)) == FutureTimes(h) && OpenRows(EffectiveHorizon(h)) == OpenRows(h)
    ensures h.m.g.bhp.Some? ==> FutureBhp(EffectiveHorizon(h)) == FutureBhp(h)
  {
  }

  /** The start, q(0) and times of a producer do not depend on the injection. */
  lemma SameStart(g: Grid, e: Grid, j: nat)
    requires e == g.(inj := e.inj) && j < g.np
    ensures Start(e, j) == Start(g, j) && InitialPotential(e, j) == InitialPotential(g, j)
    ensures WindowInHistory(e, j) == WindowInHistory(g, j)
  {
  }

  lemma SamePlanTime(h: Horizon, n: nat, j: nat)
    requires j < h.m.g.np && n < h.Steps()
    ensures PlanTime(EffectiveHorizon(h), n, j) == PlanTime(h, n, j) && OpenRow(EffectiveHorizon(h)) == OpenRow(h)
  {
    SameStart(h.m.g, Effective(h.m).g, j);
  }

  /** What the continuation reports: driven by the effective injection of history and plan. */
  function ForecastAt(h: Horizon, n: nat, j: nat): real
    requires j < h.m.g.np && n < h.Steps()
  {
    ContinueAt(EffectiveHorizon(h), n, j)
  }

  /**
   For every open producer that started in history with its q(0) window inside it, the continuation is the
   field prediction on history plus plan: CRMP and CRMIP, with or without redistribution and pressures.
   */
  lemma ForecastMatchesPrediction(x: FieldModel, h: Horizon, liq: Matrix, n: nat, j: nat)
    requires Extends(x, h, liq) && j < h.m.g.np && n < h.Steps()
    requires Start(h.m.g, j) < h.m.g.Steps() && OpenRow(h)[j] && WindowInHistory(h.m.g, j)
    ensures ForecastAt(h, n, j) == PredictAt(x, h.m.g.Steps() + n, j)
  {
    EffectiveExtends(x, h, liq);
    SameStart(h.m.g, Effective(h.m).g, j);
    SamePlanTime(h, n, j);
    ContinueMatches(Effective(x), EffectiveHorizon(h), liq, n, j);
  }

  /** Without the window condition: they agree exactly when the plan rows leave q(0) unchanged, or it has no weight. */
  lemma ForecastMatchesIffPotential(x: FieldModel, h: Horizon, liq: Matrix, n: nat, j: nat)
    requires Extends(x, h, liq) && j < h.m.g.np && n < h.Steps() && IsDecay(h.m.exp)
    requires Start(h.m.g, j) < h.m.g.Steps() && OpenRow(h)[j]
    requires h.m.p.tauP[j] > 0.0 && PlanTime(h, n, j) >= 0.0
    ensures ForecastAt(h, n, j) == PredictAt(x, h.m.g.Steps() + n, j)
            <==> h.m.p.gainP[j] == 0.0 || InitialPotential(x.g, j) == InitialPotential(h.m.g, j)
  {
    EffectiveExtends(x, h, liq);
    SameStart(h.m.g, Effective(h.m).g, j);
    SameStart(x.g, Effective(x).g, j);
    SamePlanTime(h, n, j);
    ContinueMatchesIff(Effective(x), EffectiveHorizon(h), liq, n, j, InitialPotential(h.m.g, j), InitialPotential(x.g, j));
  }
}
