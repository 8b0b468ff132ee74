/**
 Producers that never produced in history (waterflood_app/models/forecast.py, waterflood_app/models/solver.py,
 producer_start): on history plus plan they start at the first plan step, where the field prediction holds their state
 at zero, while the continuation already lets that step in. What the two forms differ by, and when they agree.
 */
module Unstarted {
  import opened Common
  import opened Statistics
  import opened Crm
  import opened Redistribution
  import opened Field
  import opened Continuation

  /** The first plan step's share of a state after n later steps. */
  function FirstShare(e: Vec, u: Vec, n: nat): real
    requires n < |e| && n < |u|
  {
    if n == 0 then Times(1.0 - e[0], u[0]) else Times(FirstShare(e, u, n - 1), e[n])
  }

  lemma LeakShift(f: real, g: real, e: real, u: real)
    ensures Leak(f + g, e, u) == Leak(f, e, u) + Times(g, e)
  {
  }

  lemma LeakFromZero(e: real, u: real)
    ensures Leak(0.0, e, u) == Times(1.0 - e, u)
  {
  }

  /** Letting the first step in is leaving it out and adding its share. */
  lemma {:induction false} CarryFromZero(e: Vec, u: Vec, n: nat)
    requires |e| == |u| && n < |e|
    ensures Carry(0.0, e, u, true, n + 1) == Filter(e, u, AlwaysOpen(|e|), n) + FirstShare(e, u, n)
  {
    if n == 0 {
      LeakFromZero(e[0], u[0]);
    } else {
      CarryFromZero(e, u, n - 1);
      LeakShift(Filter(e, u, AlwaysOpen(|e|), n - 1), FirstShare(e, u, n - 1), e[n], u[n]);
    }
  }

  /** The share is zero exactly when the first source is, if that step decays and no later one forgets everything. */
  lemma {:induction false} ShareZeroIff(e: Vec, u: Vec, n: nat)
    requires n < |e| && n < |u| && e[0] != 1.0 && forall r :: 0 < r <= n ==> e[r] != 0.0
    ensures FirstShare(e, u, n) == 0.0 <==> u[0] == 0.0
  {
    if n == 0 {
      ProductZeroIff(1.0 - e[0], u[0]);
    } else {
      ShareZeroIff(e, u, n - 1);
      ProductZeroIff(e[n], FirstShare(e, u, n - 1));
      assert Times(e[n], FirstShare(e, u, n - 1)) == Times(FirstShare(e, u, n - 1), e[n]);
    }
  }

  lemma ProductZeroIff(a: real, b: real)
    requires a != 0.0
    ensures Times(a, b) == 0.0 <==> b == 0.0
  {
    if Times(a, b) == 0.0 {
      assert b == Times(a, b) / a;
    }
  }

  // ---------------------------------------------------------------- where such a producer starts

  /** Open over the plan, but without a producing step in history. */
  ghost predicate NeverStarted(h: Horizon, j: nat)
    requires j < h.m.g.np
  {
    OpenRow(h)[j] && Start(h.m.g, j) == h.m.g.Steps() && h.Steps() > 0
  }

  lemma {:induction false} FirstOnSkips(mask: seq<Mask>, more: seq<Mask>, j: nat, n: nat)
    requires n <= |mask| && |more| > 0 && forall r :: 0 <= r < |mask| ==> j < |mask[r]|
    requires (forall r :: 0 <= r < |more| ==> j < |more[r]|) && more[0][j] && FirstOn(mask, j, n) == |mask|
    ensures FirstOn(mask + more, j, n) == |mask|
    decreases |mask| - n
  {
    if n < |mask| {
      assert (mask + more)[n] == mask[n];
      FirstOnSkips(mask, more, j, n + 1);
    } else {
      assert (mask + more)[n] == more[0];
    }
  }

  lemma StartsWithPlan(x: FieldModel, h: Horizon, liq: Matrix, j: nat)
    requires Extends(x, h, liq) && j < h.m.g.np && NeverStarted(h, j)
    ensures Start(x.g, j) == h.m.g.Steps()
  {
    FirstOnSkips(h.m.g.mask, OpenRows(h), j, 0);
  }

  // ---------------------------------------------------------------- its states

  lemma PlanInputAt(x: FieldModel, h: Horizon, liq: Matrix, j: nat, k: nat, r: nat)
    requires Extends(x, h, liq) && j < h.m.g.np == x.g.np && x.p == h.m.p && NeverStarted(h, j)
    requires Start(x.g, j) == h.m.g.Steps() && x.g.Steps() == h.m.g.Steps() + h.Steps() && k < Pieces(h.m.p) && r < h.Steps()
    ensures PieceDecays(x, j, k)[r] == PlanDecays(h, j, k)[r]
    ensures PieceSources(x, j, k)[r] == PlanSources(h, j, k)[r]
    ensures PieceOpen(x, j)[r]
  {
    PieceInputsAt(x, j, k, r);
    PlanInputs(x, h, liq, r, j);
    SameModel(x, h, liq);
  }

  /** On the extended grid such a producer's inputs are the plan's. */
  lemma InputsArePlan(x: FieldModel, h: Horizon, liq: Matrix, j: nat, k: nat)
    requires Extends(x, h, liq) && j < h.m.g.np == x.g.np && x.p == h.m.p && NeverStarted(h, j)
    requires Start(x.g, j) == h.m.g.Steps() && x.g.Steps() == h.m.g.Steps() + h.Steps() && k < Pieces(h.m.p)
    ensures PieceDecays(x, j, k) == PlanDecays(h, j, k) && PieceSources(x, j, k) == PlanSources(h, j, k)
    ensures PieceOpen(x, j) == AlwaysOpen(h.Steps())
  {
    var e, u, o := PieceDecays(x, j, k), PieceSources(x, j, k), PieceOpen(x, j);
    var e', u', o' := PlanDecays(h, j, k), PlanSources(h, j, k), AlwaysOpen(h.Steps());
    forall r | 0 <= r < h.Steps()
      ensures e[r] == e'[r] && u[r] == u'[r] && o[r] == o'[r]
    {
      PlanInputAt(x, h, liq, j, k, r);
    }
  }

  lemma ZeroBeforeStart(m: FieldModel, j: nat, k: nat)
    requires j < m.g.np && k < Pieces(m.p) && Start(m.g, j) == m.g.Steps() > 0
    ensures PieceAt(m, j, k, m.g.Steps() - 1) == 0.0
  {
  }

  /** The first plan step's share of every state of producer j after plan step n. */
  function FirstShares(h: Horizon, j: nat, n: nat): (v: Vec)
    requires j < h.m.g.np && n < h.Steps()
    ensures |v| == Pieces(h.m.p)
  {
    seq(Pieces(h.m.p), k requires 0 <= k < Pieces(h.m.p) => FirstShare(PlanDecays(h, j, k), PlanSources(h, j, k), n))
  }

  /** The continuation's state is the prediction's state plus the first step's share. */
  lemma StateGap(x: FieldModel, h: Horizon, liq: Matrix, j: nat, k: nat, n: nat, at: nat)
    requires Extends(x, h, liq) && j < h.m.g.np == x.g.np && x.p == h.m.p && NeverStarted(h, j) && k < Pieces(h.m.p)
    requires n < h.Steps() && at == h.m.g.Steps() + n < x.g.Steps() == h.m.g.Steps() + h.Steps()
    requires Start(x.g, j) == h.m.g.Steps()
    ensures ContinuedPiece(h, j, k, n + 1) ==
            PieceAt(x, j, k, at) + FirstShare(PlanDecays(h, j, k), PlanSources(h, j, k), n)
  {
    var e, u := PlanDecays(h, j, k), PlanSources(h, j, k);
    assert PieceAt(x, j, k, at) == Filter(e, u, AlwaysOpen(h.Steps()), n) by {
      InputsArePlan(x, h, liq, j, k);
      PieceAtIs(x, j, k, at, e, u, AlwaysOpen(h.Steps()), n);
    }
    assert ContinuedPiece(h, j, k, n + 1) == Carry(0.0, e, u, true, n + 1) by {
      ZeroBeforeStart(h.m, j, k);
      ContinuedPieceIs(h, j, k, n + 1, 0.0, e, u);
    }
    CarryFromZero(e, u, n);
  }

  lemma EntryGap(x: FieldModel, h: Horizon, j: nat, n: nat, k: nat, at: nat)
    requires x.p == h.m.p && j < h.m.g.np == x.g.np && n < h.Steps() && k < Pieces(h.m.p) && at < x.g.Steps()
    requires ContinuedPiece(h, j, k, n + 1) ==
             PieceAt(x, j, k, at) + FirstShare(PlanDecays(h, j, k), PlanSources(h, j, k), n)
    ensures ContinuedPieces(h, j, n + 1)[k] == PiecesAt(x, j, at)[k] + FirstShares(h, j, n)[k]
  {
  }

  lemma EntryGapAt(x: FieldModel, h: Horizon, liq: Matrix, j: nat, n: nat, k: nat, at: nat, a: Vec, b: Vec, c: Vec)
    requires Extends(x, h, liq) && j < h.m.g.np == x.g.np && x.p == h.m.p && NeverStarted(h, j) && k < Pieces(h.m.p)
    requires n < h.Steps() && at == h.m.g.Steps() + n < x.g.Steps() == h.m.g.Steps() + h.Steps()
    requires Start(x.g, j) == h.m.g.Steps()
    requires a == ContinuedPieces(h, j, n + 1) && b == PiecesAt(x, j, at) && c == FirstShares(h, j, n)
    ensures a[k] == b[k] + c[k]
  {
    StateGap(x, h, liq, j, k, n, at);
    EntryGap(x, h, j, n, k, at);
  }

  lemma {:induction false} SumOfTwo(a: Vec, b: Vec, c: Vec, n: nat)
    requires n <= |a| == |b| == |c| && forall k :: 0 <= k < |a| ==> a[k] == b[k] + c[k]
    ensures Sum(a, n) == Sum(b, n) + Sum(c, n)
  {
    if n > 0 {
      SumOfTwo(a, b, c, n - 1);
    }
  }

  lemma SumGap(x: FieldModel, h: Horizon, liq: Matrix, j: nat, n: nat, at: nat)
    requires Extends(x, h, liq) && j < h.m.g.np == x.g.np && x.p == h.m.p && NeverStarted(h, j)
    requires n < h.Steps() && at == h.m.g.Steps() + n < x.g.Steps() == h.m.g.Steps() + h.Steps()
    requires Start(x.g, j) == h.m.g.Steps()
    ensures Sum(ContinuedPieces(h, j, n + 1), Pieces(h.m.p)) ==
            Sum(PiecesAt(x, j, at), Pieces(h.m.p)) + Sum(FirstShares(h, j, n), Pieces(h.m.p))
  {
    var a, b, c := ContinuedPieces(h, j, n + 1), PiecesAt(x, j, at), FirstShares(h, j, n);
    forall k | 0 <= k < |a|
      ensures a[k] == b[k] + c[k]
    {
      EntryGapAt(x, h, liq, j, n, k, at, a, b, c);
    }
    SumOfTwo(a, b, c, |a|);
  }

  // ---------------------------------------------------------------- its rates

  /** Days from the end of the first plan step to the end of plan step n. */
  function SinceFirst(h: Horizon, n: nat): real
    requires n < h.Steps()
  {
    FutureTime(h, n + 1) - FutureTime(h, 1)
  }

  lemma PlanTimes(x: FieldModel, h: Horizon, liq: Matrix, n: nat)
    requires Extends(x, h, liq) && n < h.Steps()
    ensures x.g.Steps() == h.m.g.Steps() + h.Steps()
    ensures x.g.time[h.m.g.Steps() + n] - x.g.time[h.m.g.Steps()] == SinceFirst(h, n)
  {
    assert x.g.time[h.m.g.Steps() + n] == FutureTimes(h)[n] && x.g.time[h.m.g.Steps()] == FutureTimes(h)[0];
  }

  lemma NoPotential(h: Horizon, j: nat, t: real)
    requires j < h.m.g.np && Start(h.m.g, j) == h.m.g.Steps()
    ensures InitialPotential(h.m.g, j) == 0.0 && PrimaryAt(h.m.exp, h.m.p, 0.0, t, j) == 0.0
  {
  }

  /** Continued minus predicted: the first step's shares, less the primary term the plan rows' q(0) brings. */
  lemma RateGap(x: FieldModel, h: Horizon, liq: Matrix, n: nat, j: nat, q0: real)
    requires Extends(x, h, liq) && j < h.m.g.np == x.g.np && n < h.Steps() && NeverStarted(h, j)
    requires x.g.Steps() == h.m.g.Steps() + h.Steps() && q0 == InitialPotential(x.g, j)
    ensures ContinueAt(h, n, j) - RateAtStep(x, h.m.g.Steps() + n, j) ==
            Sum(FirstShares(h, j, n), Pieces(h.m.p)) - PrimaryAt(h.m.exp, h.m.p, q0, SinceFirst(h, n), j)
  {
    var at, t := h.m.g.Steps() + n, SinceFirst(h, n);
    SameModel(x, h, liq);
    StartsWithPlan(x, h, liq, j);
    assert x.g.mask[at][j] by {
      PlanInputs(x, h, liq, n, j);
    }
    assert x.g.time[at] - x.g.time[Start(x.g, j)] == t by {
      PlanTimes(x, h, liq, n);
    }
    OpenRateIs(x, at, j, q0, t, PiecesAt(x, j, at));
    NoPotential(h, j, PlanTime(h, n, j));
    ContinueIs(h, n, j, 0.0);
    SumGap(x, h, liq, j, n, at);
  }

  /**
   An open producer that never started: the two forms agree at plan step n exactly when the first plan step's
   shares add up to the primary term that the plan rows' q(0) brings.
   */
  lemma ForecastMatchesIffShares(x: FieldModel, h: Horizon, liq: Matrix, n: nat, j: nat)
    requires Extends(x, h, liq) && j < h.m.g.np && n < h.Steps() && NeverStarted(h, j)
    ensures x.g.np == h.m.g.np && x.g.Steps() == h.m.g.Steps() + h.Steps()
    ensures ForecastAt(h, n, j) == PredictAt(x, h.m.g.Steps() + n, j) <==>
            Sum(FirstShares(EffectiveHorizon(h), j, n), Pieces(h.m.p)) ==
            PrimaryAt(h.m.exp, h.m.p, InitialPotential(x.g, j), SinceFirst(h, n), j)
  {
    var e, y := EffectiveHorizon(h), Effective(x);
    SameModel(x, h, liq);
    EffectiveExtends(x, h, liq);
    SameStart(h.m.g, e.m.g, j);
    SameStart(x.g, y.g, j);
    SamePlanTime(h, n, j);
    SameSince(h, n);
    RateGap(y, e, liq, n, j, InitialPotential(x.g, j));
  }

  lemma SameSince(h: Horizon, n: nat)
    requires n < h.Steps()
    ensures SinceFirst(EffectiveHorizon(h), n) == SinceFirst(h, n)
  {
  }

  /** With zero liquid in the plan rows: exactly when the first plan step's shares cancel over the states. */
  lemma ForecastMatchesIffNoShare(x: FieldModel, h: Horizon, liq: Matrix, n: nat, j: nat)
    requires Extends(x, h, liq) && j < h.m.g.np && n < h.Steps() && NeverStarted(h, j) && InitialPotential(x.g, j) == 0.0
    ensures x.g.np == h.m.g.np && x.g.Steps() == h.m.g.Steps() + h.Steps()
    ensures ForecastAt(h, n, j) == PredictAt(x, h.m.g.Steps() + n, j) <==>
            Sum(FirstShares(EffectiveHorizon(h), j, n), Pieces(h.m.p)) == 0.0
  {
    ForecastMatchesIffShares(x, h, liq, n, j);
    NoPotential(h, j, SinceFirst(h, n));
  }

  lemma OneShare(h: Horizon, j: nat, n: nat)
    requires j < h.m.g.np && n < h.Steps() && h.m.p.Crmp?
    ensures Sum(FirstShares(h, j, n), Pieces(h.m.p)) == FirstShare(PlanDecays(h, j, 0), PlanSources(h, j, 0), n)
  {
    SumOfOne(FirstShares(h, j, n));
  }

  lemma LaterDecays(h: Horizon, j: nat, n: nat)
    requires IsDecay(h.m.exp) && j < h.m.g.np && n < h.Steps() && h.m.p.Crmp? && h.m.p.tau[j] > 0.0
    ensures PlanDecays(h, j, 0)[0] == h.m.exp[-h.plan.dt[0] / h.m.p.tau[j]]
    ensures forall r :: 0 < r <= n ==> PlanDecays(h, j, 0)[r] != 0.0
  {
    var e := PlanDecays(h, j, 0);
    forall r | 0 < r <= n
      ensures e[r] != 0.0
    {
      NegativeQuotient(h.plan.dt[r], h.m.p.tau[j]);
    }
  }

  /** For CRMP, where the first plan step decays at all: exactly when nothing drives the producer in that step. */
  lemma ForecastMatchesIffNoFirstSource(x: FieldModel, h: Horizon, liq: Matrix, n: nat, j: nat)
    requires Extends(x, h, liq) && j < h.m.g.np && n < h.Steps() && NeverStarted(h, j) && InitialPotential(x.g, j) == 0.0
    requires h.m.p.Crmp? && IsDecay(h.m.exp) && h.m.p.tau[j] > 0.0 && h.m.exp[-h.plan.dt[0] / h.m.p.tau[j]] != 1.0
    ensures x.g.np == h.m.g.np && x.g.Steps() == h.m.g.Steps() + h.Steps()
    ensures ForecastAt(h, n, j) == PredictAt(x, h.m.g.Steps() + n, j) <==> PlanSources(EffectiveHorizon(h), j, 0)[0] == 0.0
  {
    var e := EffectiveHorizon(h);
    ForecastMatchesIffNoShare(x, h, liq, n, j);
    OneShare(e, j, n);
    LaterDecays(e, j, n);
    ShareZeroIff(PlanDecays(e, j, 0), PlanSources(e, j, 0), n);
  }

  // ---------------------------------------------------------------- every open producer

  /**
   Every open producer, started or not: continuation and field prediction agree at a plan step exactly when the plan
   rows leave q(0) unchanged or it has no weight, or, for a producer that never started, when its first plan step's shares add up to the
   primary term of the q(0) those rows give it.
   */
  lemma ForecastMatchesIff(x: FieldModel, h: Horizon, liq: Matrix, n: nat, j: nat)
    requires Extends(x, h, liq) && j < h.m.g.np && n < h.Steps() && IsDecay(h.m.exp) && OpenRow(h)[j]
    requires h.m.p.tauP[j] > 0.0 && PlanTime(h, n, j) >= 0.0
    ensures x.g.np == h.m.g.np && x.g.Steps() == h.m.g.Steps() + h.Steps()
    ensures ForecastAt(h, n, j) == PredictAt(x, h.m.g.Steps() + n, j) <==>
            if Start(h.m.g, j) < h.m.g.Steps()
            then h.m.p.gainP[j] == 0.0 || InitialPotential(x.g, j) == InitialPotential(h.m.g, j)
            else Sum(FirstShares(EffectiveHorizon(h), j, n), Pieces(h.m.p)) ==
                 PrimaryAt(h.m.exp, h.m.p, InitialPotential(x.g, j), SinceFirst(h, n), j)
  {
    SameModel(x, h, liq);
    if Start(h.m.g, j) < h.m.g.Steps() {
      ForecastMatchesIffPotential(x, h, liq, n, j);
    } else {
      ForecastMatchesIffShares(x, h, liq, n, j);
    }
  }

  // ---------------------------------------------------------------- a producer that never started

  /** Two months without production, and a plan of one month that injects 100. */
  function Idle(exp: Exp): (h: Horizon)
    ensures h.m.exp == exp && h.m.g.np == 1 && h.Steps() == 1 && h.m.p.Crmp? && h.m.g.Steps() == 2
  {
    HorizonSetup(
      FieldSetup(
        exp,
        GridData(1, 1, [31.0, 61.0], [31.0, 30.0], [[0.0], [0.0]], [[0.0], [0.0]], [[false], [false]], None),
        Crmp([[1.0]], [1.0], [1.0], false, 3.0, [1.0], None)),
      Plan([[100.0]], [31.0], None), None)
  }

  lemma IdleNeverStarted(exp: Exp)
    ensures NeverStarted(Idle(exp), 0) && InitialPotential(Idle(exp).m.g, 0) == 0.0
  {
    var g := Idle(exp).m.g;
    assert FirstOn(g.mask, 0, 2) == 2;
    assert FirstOn(g.mask, 0, 1) == 2;
    assert FirstOn(g.mask, 0, 0) == 2;
  }

  lemma IdlePotential(exp: Exp)
    ensures var x := Extended(Idle(exp), [[0.0]]);
            x.g.np == 1 && InitialPotential(x.g, 0) == 0.0
  {
    var h := Idle(exp);
    var x := Extended(h, [[0.0]]);
    IdleNeverStarted(exp);
    SameModel(x, h, [[0.0]]);
    StartsWithPlan(x, h, [[0.0]], 0);
    assert Column(x.g.liq, 0)[2..3] == [0.0];
    assert Sort([0.0]) == [0.0];
  }

  lemma IdleSource(exp: Exp)
    ensures PlanSources(EffectiveHorizon(Idle(exp)), 0, 0)[0] == 100.0
  {
    var p := Idle(exp).m.p;
    assert Column(p.f, 0) == [1.0];
    assert Dot([1.0], [100.0], 0) == 0.0 && Dot([1.0], [100.0], 1) == 100.0;
  }

  /** q(0) is zero on both grids, and still the two forms disagree: one lets the first plan step in, the other does not. */
  lemma NeverStartedDiffers(exp: Exp)
    requires IsDecay(exp) && exp[-31.0] != 1.0
    ensures var h := Idle(exp);
            var x := Extended(h, [[0.0]]);
            && x.g.np == 1 && x.g.Steps() == 3
            && InitialPotential(x.g, 0) == InitialPotential(h.m.g, 0) == 0.0
            && ForecastAt(h, 0, 0) != PredictAt(x, 2, 0)
  {
    var h := Idle(exp);
    var x := Extended(h, [[0.0]]);
    IdleNeverStarted(exp);
    IdlePotential(exp);
    IdleSource(exp);
    assert -31.0 / 1.0 == -31.0;
    SameModel(x, h, [[0.0]]);
    ForecastMatchesIffNoFirstSource(x, h, [[0.0]], 0, 0);
  }
}
