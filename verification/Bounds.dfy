/**
 Physical behaviour of the field prediction under constant bottom-hole pressure: rates are never negative, no
 state exceeds the largest support so far, and more injection anywhere never lowers any later rate.
 */
module Bounds {
  import opened Common
  import opened Statistics
  import opened Crm
  import opened Redistribution
  import opened Field

  /** Non-negative allocations, gains and rates, positive time constants, time moving forward. */
  ghost predicate PhysicalField(m: FieldModel) {
    && IsDecay(m.exp) && !UsesJ(m)
    && (forall i :: 0 <= i < |m.p.f| ==> NonNegative(m.p.f[i]))
    && (forall i :: 0 <= i < |m.g.inj| ==> NonNegative(m.g.inj[i]))
    && (forall i :: 0 <= i < |m.g.liq| ==> NonNegative(m.g.liq[i]))
    && NonNegative(m.p.gainP)
    && (forall j :: 0 <= j < m.g.np ==> m.p.tauP[j] > 0.0)
    && (forall j, k :: 0 <= j < m.g.np && 0 <= k < Pieces(m.p) ==> PieceTau(m.p, j, k) > 0.0)
    && (forall i, n :: 0 <= i <= n < m.g.Steps() ==> m.g.time[i] <= m.g.time[n])
  }

  // ---------------------------------------------------------------- the median and q(0)

  lemma MedianNonNegative(s: Vec)
    requires |s| > 0 && NonNegative(s)
    ensures Median(s) >= 0.0
  {
    SortIsSorted(s);
    forall i | 0 <= i < |s|
      ensures Sort(s)[i] >= 0.0
    {
      assert Sort(s)[i] in multiset(Sort(s));
    }
  }

  lemma PotentialNonNegative(g: Grid, j: nat)
    requires j < g.np && forall i :: 0 <= i < |g.liq| ==> NonNegative(g.liq[i])
    ensures InitialPotential(g, j) >= 0.0
  {
    var s := Start(g, j);
    if 0 < s < g.Steps() {
      var window := Column(g.liq, j)[s..WindowEnd(g, j)];
      forall r | 0 <= r < |window|
        ensures window[r] >= 0.0
      {
        assert window[r] == g.liq[s + r][j];
      }
      MedianNonNegative(window);
    }
  }

  lemma PrimaryAtNonNegative(m: FieldModel, q0: real, n: nat, j: nat)
    requires PhysicalField(m) && j < m.g.np && Start(m.g, j) <= n < m.g.Steps() && q0 >= 0.0
    ensures PrimaryAt(m.exp, m.p, q0, m.g.time[n] - m.g.time[Start(m.g, j)], j) >= 0.0
  {
    var t := m.g.time[n] - m.g.time[Start(m.g, j)];
    NegativeQuotient(t, m.p.tauP[j]);
    ProductNonNegative(m.p.gainP[j], q0, m.exp[-t / m.p.tauP[j]], PrimaryAt(m.exp, m.p, q0, t, j));
  }

  // ---------------------------------------------------------------- states

  lemma PieceDecaysAreFactors(m: FieldModel, j: nat, k: nat, r: nat)
    requires PhysicalField(m) && j < m.g.np && k < Pieces(m.p) && Start(m.g, j) + r < m.g.Steps()
    ensures AreFactors(PieceDecays(m, j, k), r)
  {
    var e := PieceDecays(m, j, k);
    forall i | 0 <= i <= r
      ensures 0.0 <= e[i] <= 1.0
    {
      PieceInputsAt(m, j, k, i);
      NegativeQuotient(m.g.dt[Start(m.g, j) + i], PieceTau(m.p, j, k));
    }
  }

  lemma SupportNonNegative(p: FieldParams, row: Vec, j: nat, k: nat)
    requires |row| == |p.f| && j < |p.tauP| && k < Pieces(p) && NonNegative(row)
    requires forall i :: 0 <= i < |p.f| ==> NonNegative(p.f[i])
    ensures Support(p, row, j, k) >= 0.0
  {
    if p.Crmp? {
      DotNonNegative(Column(p.f, j), row, |row|);
    } else {
      MulNonNegative(p.f[k][j], row[k], p.f[k][j] * row[k]);
    }
  }

  lemma SupportMonotone(p: FieldParams, row: Vec, row': Vec, j: nat, k: nat)
    requires |row| == |row'| == |p.f| && j < |p.tauP| && k < Pieces(p)
    requires forall i :: 0 <= i < |p.f| ==> NonNegative(p.f[i]) && row[i] <= row'[i]
    ensures Support(p, row, j, k) <= Support(p, row', j, k)
  {
    if p.Crmp? {
      DotMonotone(Column(p.f, j), row, row', |row|);
    } else {
      MulNonNegative(p.f[k][j], row'[k] - row[k], p.f[k][j] * (row'[k] - row[k]));
    }
  }

  /** Without a pressure term a state is driven by its allocated injection alone. */
  lemma SourceIsInjection(m: FieldModel, j: nat, k: nat, r: nat)
    requires !UsesJ(m) && j < m.g.np && k < Pieces(m.p) && Start(m.g, j) + r < m.g.Steps()
    ensures PieceSources(m, j, k)[r] == Support(m.p, m.g.inj[Start(m.g, j) + r], j, k)
  {
    PieceInputsAt(m, j, k, r);
    var n := Start(m.g, j) + r;
    NoPressure(m.p, m.g.inj[n], PressureRate(m, n, j), j, k);
  }

  lemma NoPressure(p: FieldParams, row: Vec, pressure: real, j: nat, k: nat)
    requires |row| == |p.f| && j < |p.tauP| && k < Pieces(p)
    ensures PieceSource(p, false, row, pressure, j, k) == Support(p, row, j, k)
  {
  }

  /** A state lies between zero and the largest support it has seen. */
  lemma PieceBounds(m: FieldModel, j: nat, k: nat, n: nat)
    requires PhysicalField(m) && j < m.g.np && k < Pieces(m.p) && n < m.g.Steps()
    ensures 0.0 <= PieceAt(m, j, k, n)
    ensures n >= Start(m.g, j) ==> PieceAt(m, j, k, n) <= RunningMax(PieceSources(m, j, k), n - Start(m.g, j))
  {
    if n >= Start(m.g, j) {
      var r := n - Start(m.g, j);
      var e, u, o := PieceDecays(m, j, k), PieceSources(m, j, k), PieceOpen(m, j);
      PieceDecaysAreFactors(m, j, k, r);
      forall i | 0 <= i <= r
        ensures u[i] >= 0.0
      {
        SourceIsInjection(m, j, k, i);
        SupportNonNegative(m.p, m.g.inj[Start(m.g, j) + i], j, k);
      }
      FilterBounds(e, u, o, r);
    }
  }

  /** m' injects at least as much as m everywhere, and is otherwise the same. */
  ghost predicate InjectsMore(m: FieldModel, m': FieldModel) {
    && m'.exp == m.exp && m'.p == m.p && m'.g == m.g.(inj := m'.g.inj)
    && forall n, i :: 0 <= n < m.g.Steps() && 0 <= i < m.g.ni ==> m.g.inj[n][i] <= m'.g.inj[n][i]
  }

  lemma SameExceptInjection(m: FieldModel, m': FieldModel, j: nat, k: nat)
    requires m'.exp == m.exp && m'.p == m.p && m'.g == m.g.(inj := m'.g.inj) && j < m.g.np && k < Pieces(m.p)
    ensures Start(m'.g, j) == Start(m.g, j) && InitialPotential(m'.g, j) == InitialPotential(m.g, j)
    ensures PieceDecays(m', j, k) == PieceDecays(m, j, k) && PieceOpen(m', j) == PieceOpen(m, j)
  {
  }

  lemma PieceMonotone(m: FieldModel, m': FieldModel, j: nat, k: nat, n: nat)
    requires PhysicalField(m) && InjectsMore(m, m') && j < m.g.np && k < Pieces(m.p) && n < m.g.Steps()
    ensures PieceAt(m, j, k, n) <= PieceAt(m', j, k, n)
  {
    SameExceptInjection(m, m', j, k);
    if n >= Start(m.g, j) {
      var r := n - Start(m.g, j);
      var e, u, u', o := PieceDecays(m, j, k), PieceSources(m, j, k), PieceSources(m', j, k), PieceOpen(m, j);
      assert PieceAt(m, j, k, n) == Filter(e, u, o, r) && PieceAt(m', j, k, n) == Filter(e, u', o, r) by {
        PieceAtIs(m, j, k, n, e, u, o, r);
        PieceAtIs(m', j, k, n, e, u', o, r);
      }
      PieceDecaysAreFactors(m, j, k, r);
      forall i | 0 <= i <= r
        ensures u[i] <= u'[i]
      {
        SourceMonotone(m, m', j, k, i);
      }
      FilterMonotone(e, u, u', o, r);
    }
  }

  lemma SourceMonotone(m: FieldModel, m': FieldModel, j: nat, k: nat, r: nat)
    requires PhysicalField(m) && InjectsMore(m, m') && j < m.g.np && k < Pieces(m.p)
    requires Start(m'.g, j) == Start(m.g, j) && Start(m.g, j) + r < m.g.Steps()
    ensures PieceSources(m, j, k)[r] <= PieceSources(m', j, k)[r]
  {
    SourceIsInjection(m, j, k, r);
    SourceIsInjection(m', j, k, r);
    SupportMonotone(m.p, m.g.inj[Start(m.g, j) + r], m'.g.inj[Start(m.g, j) + r], j, k);
  }

  // ---------------------------------------------------------------- rates

  lemma RateNonNegative(m: FieldModel, n: nat, j: nat)
    requires PhysicalField(m) && n < m.g.Steps() && j < m.g.np
    ensures RateAtStep(m, n, j) >= 0.0
  {
    RateIsPieces(m, n, j);
    if n >= Start(m.g, j) {
      var q0, x := InitialPotential(m.g, j), PiecesAt(m, j, n);
      PotentialNonNegative(m.g, j);
      PrimaryAtNonNegative(m, q0, n, j);
      forall k | 0 <= k < |x|
        ensures x[k] >= 0.0
      {
        PieceBounds(m, j, k, n);
      }
      SumNonNegative(x, |x|);
    }
  }

  lemma RateAtStepMonotone(m: FieldModel, m': FieldModel, n: nat, j: nat)
    requires PhysicalField(m) && InjectsMore(m, m') && n < m.g.Steps() && j < m.g.np
    ensures RateAtStep(m, n, j) <= RateAtStep(m', n, j)
  {
    assert Start(m'.g, j) == Start(m.g, j) && InitialPotential(m'.g, j) == InitialPotential(m.g, j) by {
      SameStartAndPotential(m, m', j);
    }
    RateIsPieces(m, n, j);
    RateIsPieces(m', n, j);
    if n >= Start(m.g, j) {
      PieceRateMonotone(m, m', n, j, InitialPotential(m.g, j), m.g.time[n] - m.g.time[Start(m.g, j)]);
    }
  }

  lemma SameStartAndPotential(m: FieldModel, m': FieldModel, j: nat)
    requires m'.g == m.g.(inj := m'.g.inj) && j < m.g.np
    ensures Start(m'.g, j) == Start(m.g, j) && InitialPotential(m'.g, j) == InitialPotential(m.g, j)
  {
  }

  lemma PieceRateIs(m: FieldModel, n: nat, j: nat, q0: real, t: real, x: Vec)
    requires n < m.g.Steps() && j < m.g.np && Start(m.g, j) < m.g.Steps()
    requires q0 == InitialPotential(m.g, j) && t == m.g.time[n] - m.g.time[Start(m.g, j)] && x == PiecesAt(m, j, n)
    ensures PieceRate(m, n, j) == PrimaryAt(m.exp, m.p, q0, t, j) + Sum(x, |x|)
  {
  }

  lemma PieceRateMonotone(m: FieldModel, m': FieldModel, n: nat, j: nat, q0: real, t: real)
    requires PhysicalField(m) && InjectsMore(m, m') && j < m.g.np && Start(m.g, j) <= n < m.g.Steps()
    requires q0 == InitialPotential(m.g, j) && t == m.g.time[n] - m.g.time[Start(m.g, j)]
    ensures Start(m'.g, j) == Start(m.g, j) && PieceRate(m, n, j) <= PieceRate(m', n, j)
  {
    var x, x' := PiecesAt(m, j, n), PiecesAt(m', j, n);
    assert Sum(x, |x|) <= Sum(x', |x'|) by {
      forall k | 0 <= k < |x|
        ensures x[k] <= x'[k]
      {
        PieceMonotone(m, m', j, k, n);
      }
      SumMonotone(x, x', |x|);
    }
    SameStartAndPotential(m, m', j);
    PieceRateIs(m, n, j, q0, t, x);
    PieceRateIs(m', n, j, q0, t, x');
  }

  // ---------------------------------------------------------------- with redistribution

  lemma EffectiveRow(m: FieldModel, n: nat)
    requires n < m.g.Steps()
    ensures Effective(m).g.inj[n] ==
            if m.p.shutIn then ScaledRow(m.g.inj[n], ShutInRedistribution(m.p.f, m.g.mask, m.p.cap)[n]) else m.g.inj[n]
  {
  }

  lemma MultipliersNonNegative(p: FieldParams, mask: seq<Mask>, n: nat)
    requires n < |mask| && forall r :: 0 <= r < |mask| ==> |mask[r]| == |p.tauP|
    requires forall i :: 0 <= i < |p.f| ==> NonNegative(p.f[i])
    ensures NonNegative(ShutInRedistribution(p.f, mask, p.cap)[n])
  {
    var g := ShutInRedistribution(p.f, mask, p.cap);
    forall i | 0 <= i < |p.f|
      ensures g[n][i] >= 0.0
    {
      MultiplierBounds(p.f[i], mask[n], p.cap);
    }
  }

  lemma ScaledRowNonNegative(a: Vec, g: Vec)
    requires |a| == |g| && NonNegative(a) && NonNegative(g)
    ensures NonNegative(ScaledRow(a, g))
  {
    forall i | 0 <= i < |a|
      ensures ScaledRow(a, g)[i] >= 0.0
    {
      MulNonNegative(a[i], g[i], ScaledRow(a, g)[i]);
    }
  }

  lemma ScaledRowMonotone(a: Vec, b: Vec, g: Vec, i: nat)
    requires |a| == |b| == |g| && i < |a| && a[i] <= b[i] && NonNegative(g)
    ensures ScaledRow(a, g)[i] <= ScaledRow(b, g)[i]
  {
    MulNonNegative(b[i] - a[i], g[i], (b[i] - a[i]) * g[i]);
  }

  lemma EffectiveIsPhysical(m: FieldModel)
    requires PhysicalField(m)
    ensures PhysicalField(Effective(m))
  {
    var e := Effective(m);
    forall n | 0 <= n < |e.g.inj|
      ensures NonNegative(e.g.inj[n])
    {
      EffectiveRow(m, n);
      if m.p.shutIn {
        MultipliersNonNegative(m.p, m.g.mask, n);
        ScaledRowNonNegative(m.g.inj[n], ShutInRedistribution(m.p.f, m.g.mask, m.p.cap)[n]);
      }
    }
  }

  lemma EffectiveMore(m: FieldModel, m': FieldModel, n: nat, i: nat)
    requires PhysicalField(m) && InjectsMore(m, m') && n < m.g.Steps() && i < m.g.ni
    ensures Effective(m).g.inj[n][i] <= Effective(m').g.inj[n][i]
  {
    EffectiveRow(m, n);
    EffectiveRow(m', n);
    if m.p.shutIn {
      MultipliersNonNegative(m.p, m.g.mask, n);
      ScaledRowMonotone(m.g.inj[n], m'.g.inj[n], ShutInRedistribution(m.p.f, m.g.mask, m.p.cap)[n], i);
    }
  }

  lemma EffectiveInjectsMore(m: FieldModel, m': FieldModel)
    requires PhysicalField(m) && InjectsMore(m, m')
    ensures InjectsMore(Effective(m), Effective(m'))
  {
    var e, e' := Effective(m), Effective(m');
    assert e'.g == e.g.(inj := e'.g.inj);
    forall n, i | 0 <= n < m.g.Steps() && 0 <= i < m.g.ni
      ensures e.g.inj[n][i] <= e'.g.inj[n][i]
    {
      EffectiveMore(m, m', n, i);
    }
  }

  /** Every predicted rate is non-negative, with or without redistribution. */
  lemma PredictionNonNegative(m: FieldModel, n: nat, j: nat)
    requires PhysicalField(m) && n < m.g.Steps() && j < m.g.np
    ensures PredictAt(m, n, j) >= 0.0
  {
    EffectiveIsPhysical(m);
    RateNonNegative(Effective(m), n, j);
  }

  /** More injection by any injector at any step never lowers any predicted rate. */
  lemma PredictionMonotone(m: FieldModel, m': FieldModel, n: nat, j: nat)
    requires PhysicalField(m) && InjectsMore(m, m') && n < m.g.Steps() && j < m.g.np
    ensures PredictAt(m, n, j) <= PredictAt(m', n, j)
  {
    EffectiveIsPhysical(m);
    EffectiveInjectsMore(m, m');
    RateAtStepMonotone(Effective(m), Effective(m'), n, j);
  }

  /** Driven by the scaled injection, no state of a producer ever exceeds the largest support it has seen. */
  lemma EffectiveStateBounds(m: FieldModel, j: nat, k: nat, n: nat)
    requires PhysicalField(m) && j < m.g.np && k < Pieces(m.p) && Start(m.g, j) <= n < m.g.Steps()
    ensures var e := Effective(m);
            && Start(e.g, j) == Start(m.g, j)
            && 0.0 <= PieceAt(e, j, k, n) <= RunningMax(PieceSources(e, j, k), n - Start(e.g, j))
  {
    var e := Effective(m);
    EffectiveIsPhysical(m);
    SameStartAndPotential(m, e, j);
    PieceBounds(e, j, k, n);
  }
}
