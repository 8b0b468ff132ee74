/**
 The forecast model (waterflood_app/models/forecast.py): the states at the end of history are computed once,
 cached, and every plan continues from them.
 */
module Forecast {
  import opened Common
  import opened Statistics
  import opened Crm
  import opened Redistribution
  import opened Field
  import opened Continuation

  /** What the model caches: states, initial potential and day zero of every producer. */
  datatype HistoryState = HistoryState(x: Matrix, q0: Vec, t0: Vec)

  ghost predicate IsHistoryState(st: HistoryState, m: FieldModel)
    requires m.g.Steps() > 0
  {
    && |st.x| == |st.q0| == |st.t0| == m.g.np
    && (forall j :: 0 <= j < m.g.np ==> st.x[j] == PiecesAt(m, j, m.g.Steps() - 1))
    && (forall j :: 0 <= j < m.g.np ==> st.q0[j] == InitialPotential(m.g, j))
    && (forall j :: 0 <= j < m.g.np ==> st.t0[j] == DayZero(m.g, j))
  }

  // ---------------------------------------------------------------- one step of history

  /** x_new of the vectorised loop: zero up to the first producing step, frozen while shut in. */
  function NextPiece(m: FieldModel, j: nat, k: nat, n: nat, x: real): real
    requires j < m.g.np && k < Pieces(m.p) && n < m.g.Steps()
  {
    if n <= Start(m.g, j) then 0.0
    else if m.p.shutIn && !m.g.mask[n][j] then x
    else Leak(x, PieceDecay(m.exp, m.p, m.g.dt[n], j, k), PieceSource(m.p, UsesJ(m), m.g.inj[n], PressureRate(m, n, j), j, k))
  }

  function NextPieces(m: FieldModel, j: nat, n: nat, x: Vec): (y: Vec)
    requires j < m.g.np && n < m.g.Steps() && |x| == Pieces(m.p)
    ensures |y| == Pieces(m.p)
  {
    seq(Pieces(m.p), k requires 0 <= k < Pieces(m.p) => NextPiece(m, j, k, n, x[k]))
  }

  lemma PieceStep(m: FieldModel, j: nat, k: nat, n: nat)
    requires j < m.g.np && k < Pieces(m.p) && 0 < n < m.g.Steps()
    ensures PieceAt(m, j, k, n) == NextPiece(m, j, k, n, PieceAt(m, j, k, n - 1))
  {
    if n > Start(m.g, j) {
      var r := n - Start(m.g, j);
      var e, u, o := PieceDecays(m, j, k), PieceSources(m, j, k), PieceOpen(m, j);
      var x := Filter(e, u, o, r - 1);
      assert PieceAt(m, j, k, n) == Filter(e, u, o, r) && PieceAt(m, j, k, n - 1) == x by {
        PieceAtIs(m, j, k, n, e, u, o, r);
        PieceAtIs(m, j, k, n - 1, e, u, o, r - 1);
      }
      PieceInputsAt(m, j, k, r);
      assert NextPiece(m, j, k, n, x) == if o[r] then Leak(x, e[r], u[r]) else x;
    } else if n == Start(m.g, j) {
      var e, u, o := PieceDecays(m, j, k), PieceSources(m, j, k), PieceOpen(m, j);
      PieceAtIs(m, j, k, n, e, u, o, 0);
    }
  }

  lemma PiecesStep(m: FieldModel, j: nat, n: nat, x: Vec)
    requires j < m.g.np && 0 < n < m.g.Steps() && x == PiecesAt(m, j, n - 1)
    ensures NextPieces(m, j, n, x) == PiecesAt(m, j, n)
  {
    var a, b := NextPieces(m, j, n, x), PiecesAt(m, j, n);
    forall k | 0 <= k < Pieces(m.p)
      ensures a[k] == b[k]
    {
      assert x[k] == PieceAt(m, j, k, n - 1);
      PieceStep(m, j, k, n);
    }
  }

  lemma PiecesStart(m: FieldModel, j: nat)
    requires j < m.g.np && 0 < m.g.Steps()
    ensures PiecesAt(m, j, 0) == seq(Pieces(m.p), _ => 0.0)
  {
    var a := PiecesAt(m, j, 0);
    forall k | 0 <= k < Pieces(m.p)
      ensures a[k] == 0.0
    {
      if Start(m.g, j) == 0 {
        PieceAtIs(m, j, k, 0, PieceDecays(m, j, k), PieceSources(m, j, k), PieceOpen(m, j), 0);
      }
    }
  }

  /** x holds every producer's states at step n. */
  ghost predicate AreStates(x: Matrix, m: FieldModel, n: nat)
    requires n < m.g.Steps()
  {
    Shape(x, m.g.np, Pieces(m.p)) && forall j :: 0 <= j < m.g.np ==> x[j] == PiecesAt(m, j, n)
  }

  /** The states of all producers one step later. */
  function NextStates(m: FieldModel, n: nat, x: Matrix): (y: Matrix)
    requires n < m.g.Steps() && Shape(x, m.g.np, Pieces(m.p))
    ensures |y| == m.g.np
  {
    seq(m.g.np, j requires 0 <= j < m.g.np => NextPieces(m, j, n, x[j]))
  }

  lemma NextStatesAre(m: FieldModel, n: nat, x: Matrix)
    requires 0 < n < m.g.Steps() && AreStates(x, m, n - 1)
    ensures AreStates(NextStates(m, n, x), m, n)
  {
    var y := NextStates(m, n, x);
    forall j | 0 <= j < m.g.np
      ensures y[j] == PiecesAt(m, j, n)
    {
      PiecesStep(m, j, n, x[j]);
    }
  }

  function ZeroStates(m: FieldModel): (x: Matrix)
    ensures |x| == m.g.np
  {
    seq(m.g.np, _ => seq(Pieces(m.p), _ => 0.0))
  }

  lemma ZeroStatesAre(m: FieldModel)
    requires 0 < m.g.Steps()
    ensures AreStates(ZeroStates(m), m, 0)
  {
    var x := ZeroStates(m);
    forall j | 0 <= j < m.g.np
      ensures x[j] == PiecesAt(m, j, 0)
    {
      PiecesStart(m, j);
    }
  }

  /** The recursion over history for all producers at once. */
  method RunHistory(m: FieldModel) returns (st: HistoryState)
    requires m.g.Steps() > 0
    ensures IsHistoryState(st, m)
  {
    var x := ZeroStates(m);
    ZeroStatesAre(m);
    for n := 1 to m.g.Steps()
      invariant AreStates(x, m, n - 1)
    {
      NextStatesAre(m, n, x);
      x := NextStates(m, n, x);
    }
    st := HistoryState(x, seq(m.g.np, j requires 0 <= j < m.g.np => InitialPotential(m.g, j)),
                       seq(m.g.np, j requires 0 <= j < m.g.np => DayZero(m.g, j)));
  }

  // ---------------------------------------------------------------- one step of the plan

  /** Closed producers keep their state over the horizon, redistribution or not. */
  function PlanPiece(h: Horizon, j: nat, k: nat, n: nat, x: real): real
    requires j < h.m.g.np && k < Pieces(h.m.p) && n < h.Steps()
  {
    if OpenRow(h)[j] then
      Leak(x, PieceDecay(h.m.exp, h.m.p, h.plan.dt[n], j, k),
           PieceSource(h.m.p, UsesJ(h.m), h.plan.inj[n], FuturePressure(h, n, j), j, k))
    else x
  }

  function PlanPieces(h: Horizon, j: nat, n: nat, x: Vec): (y: Vec)
    requires j < h.m.g.np && n < h.Steps() && |x| == Pieces(h.m.p)
    ensures |y| == Pieces(h.m.p)
  {
    seq(Pieces(h.m.p), k requires 0 <= k < Pieces(h.m.p) => PlanPiece(h, j, k, n, x[k]))
  }

  lemma PlanPieceStep(h: Horizon, j: nat, k: nat, n: nat, x: real)
    requires j < h.m.g.np && k < Pieces(h.m.p) && n < h.Steps() && x == ContinuedPiece(h, j, k, n)
    ensures PlanPiece(h, j, k, n, x) == ContinuedPiece(h, j, k, n + 1)
  {
    var s, e, u, open := PieceAt(h.m, j, k, h.m.g.Steps() - 1), PlanDecays(h, j, k), PlanSources(h, j, k), OpenRow(h)[j];
    assert ContinuedPiece(h, j, k, n) == Carry(s, e, u, open, n);
    assert ContinuedPiece(h, j, k, n + 1) == Carry(s, e, u, open, n + 1);
    assert PlanPiece(h, j, k, n, x) == if open then Leak(x, e[n], u[n]) else x;
    assert !open ==> Carry(s, e, u, open, n) == s;
  }

  lemma PlanPiecesStep(h: Horizon, j: nat, n: nat, x: Vec)
    requires j < h.m.g.np && n < h.Steps() && x == ContinuedPieces(h, j, n)
    ensures PlanPieces(h, j, n, x) == ContinuedPieces(h, j, n + 1)
  {
    var a, b := PlanPieces(h, j, n, x), ContinuedPieces(h, j, n + 1);
    forall k | 0 <= k < Pieces(h.m.p)
      ensures a[k] == b[k]
    {
      assert x[k] == ContinuedPiece(h, j, k, n);
      PlanPieceStep(h, j, k, n, x[k]);
    }
  }

  lemma ContinuedStart(h: Horizon, j: nat)
    requires j < h.m.g.np
    ensures ContinuedPieces(h, j, 0) == PiecesAt(h.m, j, h.m.g.Steps() - 1)
  {
    var a, b := ContinuedPieces(h, j, 0), PiecesAt(h.m, j, h.m.g.Steps() - 1);
    forall k | 0 <= k < Pieces(h.m.p)
      ensures a[k] == b[k]
    {
      assert a[k] == ContinuedPiece(h, j, k, 0);
    }
  }

  /** x holds every producer's states after n plan steps. */
  ghost predicate AreContinued(x: Matrix, h: Horizon, n: nat)
    requires n <= h.Steps()
  {
    Shape(x, h.m.g.np, Pieces(h.m.p)) && forall j :: 0 <= j < h.m.g.np ==> x[j] == ContinuedPieces(h, j, n)
  }

  /** The states of all producers after plan step n. */
  function NextRows(h: Horizon, n: nat, x: Matrix): (y: Matrix)
    requires n < h.Steps() && Shape(x, h.m.g.np, Pieces(h.m.p))
    ensures |y| == h.m.g.np
  {
    seq(h.m.g.np, j requires 0 <= j < h.m.g.np => PlanPieces(h, j, n, x[j]))
  }

  lemma NextRowsContinue(h: Horizon, n: nat, x: Matrix)
    requires n < h.Steps() && AreContinued(x, h, n)
    ensures AreContinued(NextRows(h, n, x), h, n + 1)
  {
    var y := NextRows(h, n, x);
    forall j | 0 <= j < h.m.g.np
      ensures y[j] == ContinuedPieces(h, j, n + 1)
    {
      PlanPiecesStep(h, j, n, x[j]);
    }
  }

  lemma ContinuedFromHistory(st: HistoryState, h: Horizon)
    requires IsHistoryState(st, h.m)
    ensures AreContinued(st.x, h, 0)
  {
    forall j | 0 <= j < h.m.g.np
      ensures st.x[j] == ContinuedPieces(h, j, 0)
    {
      ContinuedStart(h, j);
    }
  }

  /** prim + out of one plan step. */
  function LiquidRow(h: Horizon, n: nat, st: HistoryState, x: Matrix): (row: Vec)
    requires n < h.Steps() && |st.q0| == |st.t0| == h.m.g.np && Shape(x, h.m.g.np, Pieces(h.m.p))
    ensures |row| == h.m.g.np
  {
    seq(h.m.g.np, j requires 0 <= j < h.m.g.np =>
      PrimaryAt(h.m.exp, h.m.p, st.q0[j], FutureTime(h, n + 1) - st.t0[j], j) + Sum(x[j], Pieces(h.m.p)))
  }

  lemma LiquidEntry(h: Horizon, n: nat, j: nat, q0: real, t0: real, x: Vec)
    requires n < h.Steps() && j < h.m.g.np && q0 == InitialPotential(h.m.g, j) && t0 == DayZero(h.m.g, j)
    requires x == ContinuedPieces(h, j, n + 1)
    ensures PrimaryAt(h.m.exp, h.m.p, q0, FutureTime(h, n + 1) - t0, j) + Sum(x, Pieces(h.m.p)) == ContinueAt(h, n, j)
  {
  }

  /** row holds the continued liquid of every producer at plan step n. */
  ghost predicate IsLiquid(row: Vec, h: Horizon, n: nat)
    requires n < h.Steps()
  {
    |row| == h.m.g.np && forall j {:trigger ContinueAt(h, n, j)} :: 0 <= j < h.m.g.np ==> row[j] == ContinueAt(h, n, j)
  }

  lemma LiquidRowIs(h: Horizon, n: nat, st: HistoryState, x: Matrix)
    requires n < h.Steps() && IsHistoryState(st, h.m) && AreContinued(x, h, n + 1)
    ensures IsLiquid(LiquidRow(h, n, st, x), h, n)
  {
    var row := LiquidRow(h, n, st, x);
    forall j | 0 <= j < h.m.g.np
      ensures row[j] == ContinueAt(h, n, j)
    {
      LiquidEntry(h, n, j, st.q0[j], st.t0[j], x[j]);
    }
  }

  /** Row by row, the liquid over the plan. */
  method Carried(h: Horizon, st: HistoryState) returns (out: Matrix)
    requires IsHistoryState(st, h.m)
    ensures |out| == h.Steps() && forall n :: 0 <= n < h.Steps() ==> IsLiquid(out[n], h, n)
  {
    var x := st.x;
    ContinuedFromHistory(st, h);
    out := [];
    for n := 0 to h.Steps()
      invariant AreContinued(x, h, n)
      invariant |out| == n && forall r :: 0 <= r < n ==> IsLiquid(out[r], h, r)
    {
      NextRowsContinue(h, n, x);
      x := NextRows(h, n, x);
      LiquidRowIs(h, n, st, x);
      out := out + [LiquidRow(h, n, st, x)];
    }
  }

  /** What the model reports for one producer and plan step. */
  ghost predicate IsForecast(out: Matrix, h: Horizon) {
    && Shape(out, h.Steps(), h.m.g.np)
    && forall n, j {:trigger ForecastAt(h, n, j)} :: 0 <= n < h.Steps() && 0 <= j < h.m.g.np ==> out[n][j] == ForecastAt(h, n, j)
  }

  lemma CarriedIsForecast(out: Matrix, h: Horizon, e: Horizon)
    requires e == EffectiveHorizon(h) && |out| == e.Steps() == h.Steps() && e.m.g.np == h.m.g.np
    requires forall n :: 0 <= n < e.Steps() ==> IsLiquid(out[n], e, n)
    ensures IsForecast(out, h)
  {
    forall n: nat, j: nat {:trigger ForecastAt(h, n, j)} | n < h.Steps() && j < h.m.g.np
      ensures out[n][j] == ForecastAt(h, n, j)
    {
      assert IsLiquid(out[n], e, n);
      assert out[n][j] == ContinueAt(e, n, j);
    }
  }

  // ---------------------------------------------------------------- the model

  /** Level anchor of one producer; a missing entry leaves the forecast as it is. */
  function Level(anchor: Option<seq<Option<real>>>, j: nat): real
    requires anchor.Some? ==> j < |anchor.value|
  {
    if anchor.Some? && anchor.value[j].Some? then anchor.value[j].value else 1.0
  }

  /** Liquid as reported: never negative, anchored to the last observed level, nothing from closed producers. */
  function Reported(rate: real, anchor: Option<seq<Option<real>>>, open: bool, j: nat): real
    requires anchor.Some? ==> j < |anchor.value|
  {
    Max(rate, 0.0) * Level(anchor, j) * (if open then 1.0 else 0.0)
  }

  class ForecastModel {
    const m: FieldModel
    const active: Option<Mask>
    const levelAnchor: Option<seq<Option<real>>>
    var state: Option<HistoryState>

    ghost predicate Valid()
      reads this
    {
      && m.g.Steps() > 0
      && (levelAnchor.Some? ==> |levelAnchor.value| == m.g.np)
      && (state.Some? ==> IsHistoryState(state.value, Effective(m)))
    }

    constructor (m: FieldModel, active: Option<Mask>, levelAnchor: Option<seq<Option<real>>>)
      requires m.g.Steps() > 0 && (levelAnchor.Some? ==> |levelAnchor.value| == m.g.np)
      ensures Valid() && this.m == m && this.active == active && this.levelAnchor == levelAnchor && state.None?
    {
      this.m, this.active, this.levelAnchor := m, active, levelAnchor;
      state := None;
    }

    /** The states at the end of history, driven by the effective injection; a cached state is returned unchanged. */
    method StateAtEnd() returns (st: HistoryState)
      requires Valid()
      modifies this`state
      ensures Valid() && state == Some(st)
      ensures old(state).Some? ==> state == old(state)
    {
      if state.Some? {
        return state.value;
      }
      st := RunHistory(Effective(m));
      state := Some(st);
    }

    /** Liquid over the plan, step by step from the cached state. */
    method Continue(h: Horizon) returns (out: Matrix)
      requires Valid() && h.m == m && h.active == active
      modifies this`state
      ensures Valid() && IsForecast(out, h)
    {
      var st := StateAtEnd();
      var e := EffectiveHorizon(h);
      out := Carried(e, st);
      CarriedIsForecast(out, h, e);
    }

    /** Reported liquid over the plan. */
    method Simulate(h: Horizon) returns (liq: Matrix)
      requires Valid() && h.m == m && h.active == active
      modifies this`state
      ensures Valid() && IsReport(liq, h, levelAnchor)
    {
      var out := Continue(h);
      liq := ReportedRows(out, levelAnchor, OpenRow(h));
      ReportedRowsAre(out, levelAnchor, h);
    }
  }

  function ReportedRows(out: Matrix, anchor: Option<seq<Option<real>>>, open: Mask): (liq: Matrix)
    requires Shape(out, |out|, |open|) && (anchor.Some? ==> |anchor.value| == |open|)
    ensures Shape(liq, |out|, |open|)
  {
    seq(|out|, n requires 0 <= n < |out| =>
      seq(|open|, j requires 0 <= j < |open| => Reported(out[n][j], anchor, open[j], j)))
  }

  ghost predicate IsReport(liq: Matrix, h: Horizon, anchor: Option<seq<Option<real>>>)
    requires anchor.Some? ==> |anchor.value| == h.m.g.np
  {
    && Shape(liq, h.Steps(), h.m.g.np)
    && forall n, j {:trigger ForecastAt(h, n, j)} :: 0 <= n < h.Steps() && 0 <= j < h.m.g.np ==>
         liq[n][j] == Reported(ForecastAt(h, n, j), anchor, OpenRow(h)[j], j)
  }

  lemma ReportedRowsAre(out: Matrix, anchor: Option<seq<Option<real>>>, h: Horizon)
    requires IsForecast(out, h) && (anchor.Some? ==> |anchor.value| == h.m.g.np)
    ensures IsReport(ReportedRows(out, anchor, OpenRow(h)), h, anchor)
  {
    var liq, open := ReportedRows(out, anchor, OpenRow(h)), OpenRow(h);
    forall n: nat, j: nat {:trigger ForecastAt(h, n, j)} | n < h.Steps() && j < h.m.g.np
      ensures liq[n][j] == Reported(ForecastAt(h, n, j), anchor, open[j], j)
    {
      assert liq[n][j] == Reported(out[n][j], anchor, open[j], j);
      assert out[n][j] == ForecastAt(h, n, j);
    }
  }

  /**
   For all producers, open or closed: what the model reports over a plan is the field prediction on history plus
   plan, anchored and masked the same way, provided every open producer started in history with its q(0) window in it.
   */
  lemma ReportedMatchesPrediction(
      x: FieldModel, h: Horizon, liq: Matrix, anchor: Option<seq<Option<real>>>, n: nat, j: nat)
    requires Extends(x, h, liq) && j < h.m.g.np && n < h.Steps() && (anchor.Some? ==> |anchor.value| == h.m.g.np)
    requires OpenRow(h)[j] ==> Start(h.m.g, j) < h.m.g.Steps() && WindowInHistory(h.m.g, j)
    ensures x.g.np == h.m.g.np && x.g.Steps() == h.m.g.Steps() + h.Steps()
    ensures Reported(ForecastAt(h, n, j), anchor, OpenRow(h)[j], j) ==
            Reported(PredictAt(x, h.m.g.Steps() + n, j), anchor, OpenRow(h)[j], j)
  {
    SameModel(x, h, liq);
    if OpenRow(h)[j] {
      ForecastMatchesPrediction(x, h, liq, n, j);
    }
  }

  /** Two months of history, the only producer starting in the second, and a plan of two more. */
  function LateStarter(exp: Exp): (h: Horizon)
    ensures h.m.exp == exp && h.m.g.np == 1 && h.Steps() == 2
  {
    HorizonSetup(
      FieldSetup(
        exp,
        GridData(0, 1, [31.0, 61.0], [31.0, 30.0], [[], []], [[0.0], [90.0]], [[false], [true]], None),
        Crmp([], [1.0], [1.0], false, 3.0, [1.0], None)),
      Plan([[], []], [31.0, 31.0], None), None)
  }

  const ZERO_ROWS: Matrix := [[0.0], [0.0]]

  lemma LateStart(exp: Exp)
    ensures var h := LateStarter(exp);
            Start(h.m.g, 0) == 1 && OpenRow(h)[0] && !WindowInHistory(h.m.g, 0) && PlanTime(h, 0, 0) >= 0.0
  {
    var h := LateStarter(exp);
    assert FirstOn(h.m.g.mask, 0, 1) == 1;
    assert Sum(h.plan.dt, 0) == 0.0;
  }

  lemma LatePotential(exp: Exp)
    ensures InitialPotential(LateStarter(exp).m.g, 0) == 90.0
  {
    var g := LateStarter(exp).m.g;
    LateStart(exp);
    assert Column(g.liq, 0)[1..2] == [90.0];
    MedianOfOne(90.0);
  }

  lemma LatePotentialExtended(exp: Exp)
    ensures var x := Extended(LateStarter(exp), ZERO_ROWS);
            x.g.np == 1 && InitialPotential(x.g, 0) == 0.0
  {
    var x := Extended(LateStarter(exp), ZERO_ROWS);
    LateStart(exp);
    StartExtends(x, LateStarter(exp), ZERO_ROWS, 0);
    assert Column(x.g.liq, 0)[1..4] == [90.0, 0.0, 0.0];
    MedianOfThree(90.0);
  }

  /**
   The window condition is needed: a producer that starts in the last month of history, extended with the zero
   liquid rows of a plan, gets its q(0) from those rows, and the two forms disagree.
   */
  lemma LateStarterDiffers(exp: Exp)
    requires IsDecay(exp)
    ensures var h := LateStarter(exp);
            var x := Extended(h, ZERO_ROWS);
            && Start(h.m.g, 0) < h.m.g.Steps() < x.g.Steps() && x.g.np == 1 && OpenRow(h)[0] && !WindowInHistory(h.m.g, 0)
            && ForecastAt(h, 0, 0) != PredictAt(x, h.m.g.Steps(), 0)
  {
    var h := LateStarter(exp);
    var x := Extended(h, ZERO_ROWS);
    SameModel(x, h, ZERO_ROWS);
    LateStart(exp);
    LatePotential(exp);
    LatePotentialExtended(exp);
    ForecastMatchesIffPotential(x, h, ZERO_ROWS, 0, 0);
  }

  lemma MedianOfOne(q: real)
    ensures Median([q]) == q
  {
    assert Sort([q]) == [q];
  }

  lemma MedianOfThree(q: real)
    requires q > 0.0
    ensures Median([q, 0.0, 0.0]) == 0.0
  {
    assert [q, 0.0, 0.0][1..] == [0.0, 0.0] && [0.0, 0.0][1..] == [0.0] && [0.0][1..] == [];
    assert Sort([0.0]) == [0.0];
    assert Sort([0.0, 0.0]) == [0.0, 0.0];
    assert Insert(q, []) == [q];
    assert Insert(q, [0.0]) == [0.0, q];
    assert Sort([q, 0.0, 0.0]) == [0.0, 0.0, q];
  }
}
