/** The CRMIP forward model with its sensitivities, as its loop runs it (waterflood_app/models/solver.py). */
module PairForward {
  import opened Common
  import opened Crm
  import opened CrmForward
  import opened Crmip

  // ---------------------------------------------------------------- rows over all pairs

  function RowLeak(x: Vec, e: Vec, u: Vec): (r: Vec)
    requires |x| == |e| == |u|
    ensures |r| == |x|
  {
    seq(|x|, i requires 0 <= i < |x| => Leak(x[i], e[i], u[i]))
  }

  function RowLeakSlope(s: Vec, x: Vec, e: Vec, de: Vec, u: Vec, du: Vec): (r: Vec)
    requires |s| == |x| == |e| == |de| == |u| == |du|
    ensures |r| == |x|
  {
    seq(|s|, i requires 0 <= i < |s| => LeakSlope(s[i], x[i], e[i], de[i], u[i], du[i]))
  }

  /** Column i of every matrix is the CRMP column of pair i. */
  ghost predicate ArePairFilters(x: Matrix, ni: nat, e: Matrix, u: Matrix, open: seq<bool>) {
    && Shape(x, |open|, ni) && Shape(e, |open|, ni) && Shape(u, |open|, ni)
    && forall i {:trigger Column(u, i)} :: 0 <= i < ni ==> IsFilter(Column(x, i), Column(e, i), Column(u, i), open)
  }

  ghost predicate ArePairSlopes(s: Matrix, ni: nat, e: Matrix, de: Matrix, u: Matrix, du: Matrix, open: seq<bool>) {
    && Shape(s, |open|, ni) && Shape(e, |open|, ni) && Shape(de, |open|, ni) && Shape(u, |open|, ni) && Shape(du, |open|, ni)
    && forall i {:trigger Column(u, i)} :: 0 <= i < ni ==>
         IsSlope(Column(s, i), Column(e, i), Column(de, i), Column(u, i), Column(du, i), open)
  }

  lemma PairFiltersExist(ni: nat, e: Matrix, u: Matrix, open: seq<bool>) returns (x: Matrix)
    requires Shape(e, |open|, ni) && Shape(u, |open|, ni)
    ensures ArePairFilters(x, ni, e, u, open)
  {
    x := seq(|open|, n requires 0 <= n < |open| =>
           seq(ni, i requires 0 <= i < ni => Filter(Column(e, i), Column(u, i), open, n)));
  }

  lemma PairSlopesExist(ni: nat, e: Matrix, de: Matrix, u: Matrix, du: Matrix, open: seq<bool>) returns (s: Matrix)
    requires Shape(e, |open|, ni) && Shape(de, |open|, ni) && Shape(u, |open|, ni) && Shape(du, |open|, ni)
    ensures ArePairSlopes(s, ni, e, de, u, du, open)
  {
    s := seq(|open|, n requires 0 <= n < |open| =>
           seq(ni, i requires 0 <= i < ni => SlopeFilter(Column(e, i), Column(de, i), Column(u, i), Column(du, i), open, n)));
  }

  lemma PairFilterRow(x: Matrix, ni: nat, e: Matrix, u: Matrix, open: seq<bool>, n: nat)
    requires ArePairFilters(x, ni, e, u, open) && n < |open|
    ensures n == 0 ==> x[n] == seq(ni, _ => 0.0)
    ensures n > 0 ==> x[n] == if open[n] then RowLeak(x[n - 1], e[n], u[n]) else x[n - 1]
  {
    forall i | 0 <= i < ni
      ensures n == 0 ==> x[n][i] == 0.0
      ensures n > 0 ==> x[n][i] == if open[n] then RowLeak(x[n - 1], e[n], u[n])[i] else x[n - 1][i]
    {
      assert IsFilter(Column(x, i), Column(e, i), Column(u, i), open);
      FilterRow(Column(x, i), Column(e, i), Column(u, i), open, n);
    }
  }

  lemma PairSlopeRow(s: Matrix, x: Matrix, ni: nat, e: Matrix, de: Matrix, u: Matrix, du: Matrix, open: seq<bool>, n: nat)
    requires ArePairSlopes(s, ni, e, de, u, du, open) && ArePairFilters(x, ni, e, u, open) && n < |open|
    ensures n == 0 ==> s[n] == seq(ni, _ => 0.0)
    ensures n > 0 ==>
      s[n] == if open[n] then RowLeakSlope(s[n - 1], x[n - 1], e[n], de[n], u[n], du[n]) else s[n - 1]
  {
    forall i | 0 <= i < ni
      ensures n == 0 ==> s[n][i] == 0.0
      ensures n > 0 ==>
        s[n][i] == if open[n] then RowLeakSlope(s[n - 1], x[n - 1], e[n], de[n], u[n], du[n])[i] else s[n - 1][i]
    {
      assert IsFilter(Column(x, i), Column(e, i), Column(u, i), open);
      assert IsSlope(Column(s, i), Column(e, i), Column(de, i), Column(u, i), Column(du, i), open);
      SlopeRow(Column(s, i), Column(x, i), Column(e, i), Column(de, i), Column(u, i), Column(du, i), open, n);
    }
  }

  ghost predicate ArePairColumns(
      inj: Matrix, ni: nat, e: Matrix, de: Matrix, src: Matrix, dsrc: Matrix, press: Matrix, open: seq<bool>,
      x: Matrix, c: Matrix, dTau: Matrix, dJ: Matrix)
  {
    && ArePairFilters(x, ni, e, src, open)
    && ArePairFilters(c, ni, e, inj, open)
    && ArePairSlopes(dTau, ni, e, de, src, dsrc, open)
    && ArePairFilters(dJ, ni, e, press, open)
  }

  lemma PairColumnsExist(
      inj: Matrix, ni: nat, e: Matrix, de: Matrix, src: Matrix, dsrc: Matrix, press: Matrix, open: seq<bool>)
    returns (x: Matrix, c: Matrix, dTau: Matrix, dJ: Matrix)
    requires Shape(inj, |open|, ni) && Shape(e, |open|, ni) && Shape(de, |open|, ni) && Shape(src, |open|, ni)
    requires Shape(dsrc, |open|, ni) && Shape(press, |open|, ni)
    ensures ArePairColumns(inj, ni, e, de, src, dsrc, press, open, x, c, dTau, dJ)
    ensures |x| == |c| == |dTau| == |dJ| == |open|
    ensures forall n :: 0 <= n < |open| ==> |x[n]| == |c[n]| == |dTau[n]| == |dJ[n]| == ni
  {
    x := PairFiltersExist(ni, e, src, open);
    c := PairFiltersExist(ni, e, inj, open);
    dTau := PairSlopesExist(ni, e, de, src, dsrc, open);
    dJ := PairFiltersExist(ni, e, press, open);
  }

  /** One row of the step loop: where it starts, and how it follows the previous one. */
  ghost predicate RowFollows(
      inj: Matrix, ni: nat, e: Matrix, de: Matrix, src: Matrix, dsrc: Matrix, press: Matrix, open: seq<bool>,
      x: Matrix, c: Matrix, dTau: Matrix, dJ: Matrix, n: nat)
    requires Shape(inj, |open|, ni) && Shape(e, |open|, ni) && Shape(de, |open|, ni) && Shape(src, |open|, ni)
    requires Shape(dsrc, |open|, ni) && Shape(press, |open|, ni) && n < |open|
    requires Shape(x, |open|, ni) && Shape(c, |open|, ni) && Shape(dTau, |open|, ni) && Shape(dJ, |open|, ni)
  {
    if n == 0 then x[n] == c[n] == dTau[n] == dJ[n] == seq(ni, _ => 0.0)
    else if !open[n] then x[n] == x[n - 1] && c[n] == c[n - 1] && dTau[n] == dTau[n - 1] && dJ[n] == dJ[n - 1]
    else
      && x[n] == RowLeak(x[n - 1], e[n], src[n])
      && c[n] == RowLeak(c[n - 1], e[n], inj[n])
      && dTau[n] == RowLeakSlope(dTau[n - 1], x[n - 1], e[n], de[n], src[n], dsrc[n])
      && dJ[n] == RowLeak(dJ[n - 1], e[n], press[n])
  }

  lemma PairRowAt(
      inj: Matrix, ni: nat, e: Matrix, de: Matrix, src: Matrix, dsrc: Matrix, press: Matrix, open: seq<bool>,
      x: Matrix, c: Matrix, dTau: Matrix, dJ: Matrix, n: nat)
    requires Shape(inj, |open|, ni) && Shape(e, |open|, ni) && Shape(de, |open|, ni) && Shape(src, |open|, ni)
    requires Shape(dsrc, |open|, ni) && Shape(press, |open|, ni) && n < |open|
    requires ArePairColumns(inj, ni, e, de, src, dsrc, press, open, x, c, dTau, dJ)
    ensures RowFollows(inj, ni, e, de, src, dsrc, press, open, x, c, dTau, dJ, n)
  {
    PairFilterRow(x, ni, e, src, open, n);
    PairFilterRow(c, ni, e, inj, open, n);
    PairSlopeRow(dTau, x, ni, e, de, src, dsrc, open, n);
    PairFilterRow(dJ, ni, e, press, open, n);
  }

  /** The step loop over all pairs at once; a closed step copies the previous row. */
  method PairRows(
      inj: Matrix, ni: nat, e: Matrix, de: Matrix, src: Matrix, dsrc: Matrix, press: Matrix, open: seq<bool>,
      needGrad: bool, ghost X: Matrix, ghost C: Matrix, ghost T: Matrix, ghost P: Matrix)
    returns (x: Matrix, c: Matrix, dTau: Matrix, dJ: Matrix)
    requires Shape(inj, |open|, ni) && Shape(e, |open|, ni) && Shape(de, |open|, ni) && Shape(src, |open|, ni)
    requires Shape(dsrc, |open|, ni) && Shape(press, |open|, ni)
    requires Shape(X, |open|, ni) && Shape(C, |open|, ni) && Shape(T, |open|, ni) && Shape(P, |open|, ni)
    requires forall n :: 0 <= n < |open| ==> RowFollows(inj, ni, e, de, src, dsrc, press, open, X, C, T, P, n)
    ensures x == X && (needGrad ==> c == C && dTau == T && dJ == P)
  {
    var m := |open|;
    if m == 0 {
      return [], [], [], [];
    }
    var zero := seq(ni, _ => 0.0);
    var xa := new Vec[m](_ => zero);
    var ca := new Vec[m](_ => zero);
    var ta := new Vec[m](_ => zero);
    var ja := new Vec[m](_ => zero);
    assert RowFollows(inj, ni, e, de, src, dsrc, press, open, X, C, T, P, 0);
    for n := 1 to m
      invariant forall r :: 0 <= r < n ==> xa[r] == X[r]
      invariant needGrad ==> forall r :: 0 <= r < n ==> ca[r] == C[r] && ta[r] == T[r] && ja[r] == P[r]
    {
      assert RowFollows(inj, ni, e, de, src, dsrc, press, open, X, C, T, P, n);
      if !open[n] {
        xa[n] := xa[n - 1];
        if needGrad {
          ca[n], ta[n], ja[n] := ca[n - 1], ta[n - 1], ja[n - 1];
        }
      } else {
        xa[n] := RowLeak(xa[n - 1], e[n], src[n]);
        if needGrad {
          ca[n] := RowLeak(ca[n - 1], e[n], inj[n]);
          ta[n] := RowLeakSlope(ta[n - 1], xa[n - 1], e[n], de[n], src[n], dsrc[n]);
          ja[n] := RowLeak(ja[n - 1], e[n], press[n]);
        }
      }
    }
    x, c, dTau, dJ := xa[..], ca[..], ta[..], ja[..];
  }

  /** The columns of every pair, filled by the step loop. */
  method PairLoop(
      inj: Matrix, ni: nat, e: Matrix, de: Matrix, src: Matrix, dsrc: Matrix, press: Matrix, open: seq<bool>,
      needGrad: bool)
    returns (x: Matrix, c: Matrix, dTau: Matrix, dJ: Matrix)
    requires Shape(inj, |open|, ni) && Shape(e, |open|, ni) && Shape(de, |open|, ni) && Shape(src, |open|, ni)
    requires Shape(dsrc, |open|, ni) && Shape(press, |open|, ni)
    ensures ArePairFilters(x, ni, e, src, open)
    ensures needGrad ==> ArePairColumns(inj, ni, e, de, src, dsrc, press, open, x, c, dTau, dJ)
  {
    ghost var X, C, T, P := PairColumnsExist(inj, ni, e, de, src, dsrc, press, open);
    forall n | 0 <= n < |open|
      ensures RowFollows(inj, ni, e, de, src, dsrc, press, open, X, C, T, P, n)
    {
      PairRowAt(inj, ni, e, de, src, dsrc, press, open, X, C, T, P, n);
    }
    x, c, dTau, dJ := PairRows(inj, ni, e, de, src, dsrc, press, open, needGrad, X, C, T, P);
  }

  // ---------------------------------------------------------------- the matrices of one producer

  /** Pair i's vectors side by side. */
  function SideBySide(columns: seq<Vec>, m: nat): (a: Matrix)
    requires forall i :: 0 <= i < |columns| ==> |columns[i]| == m
    ensures Shape(a, m, |columns|)
    ensures forall i :: 0 <= i < |columns| ==> Column(a, i) == columns[i]
  {
    var a := seq(m, n requires 0 <= n < m => seq(|columns|, i requires 0 <= i < |columns| => columns[i][n]));
    assert forall i :: 0 <= i < |columns| ==> Column(a, i) == columns[i];
    a
  }

  function Pair(theta: Vec, d: ProducerData, i: nat): Params<real>
    requires d.Valid() && GoodPairTheta(theta, d) && i < d.ni
  {
    PairParams(theta, d, i, 0.0)
  }

  function PairSource(theta: Vec, d: ProducerData, i: nat): (s: Vec)
    requires d.Valid() && GoodPairTheta(theta, d) && i < d.ni
    ensures |s| == d.Steps()
  {
    Source(Pair(theta, d, i).f, Pair(theta, d, i).tau, Pair(theta, d, i).J, PairData(d, i))
  }

  /** The matrices hold each pair's decays, sources and their derivatives. */
  ghost predicate ArePairInputs(
      exp: Exp, theta: Vec, d: ProducerData, e: Matrix, de: Matrix, src: Matrix, dsrc: Matrix, press: Matrix)
    requires d.Valid() && GoodPairTheta(theta, d)
  {
    && Shape(e, d.Steps(), d.ni) && Shape(de, d.Steps(), d.ni) && Shape(src, d.Steps(), d.ni)
    && Shape(dsrc, d.Steps(), d.ni) && Shape(press, d.Steps(), d.ni)
    && forall i {:trigger Pair(theta, d, i)} :: 0 <= i < d.ni ==>
         && Column(e, i) == Decays(exp, d.dt, Pair(theta, d, i).tau)
         && Column(de, i) == DecaySlopes(exp, d.dt, Pair(theta, d, i).tau)
         && Column(src, i) == PairSource(theta, d, i)
         && Column(dsrc, i) == SourceSlopes(Pair(theta, d, i).J, PairData(d, i))
         && Column(press, i) == PressureSource(Pair(theta, d, i).tau, PairData(d, i))
  }

  method PairInputs(exp: Exp, theta: Vec, d: ProducerData)
    returns (e: Matrix, de: Matrix, src: Matrix, dsrc: Matrix, press: Matrix)
    requires d.Valid() && GoodPairTheta(theta, d)
    ensures ArePairInputs(exp, theta, d, e, de, src, dsrc, press)
  {
    var m, ni := d.Steps(), d.ni;
    e := SideBySide(seq(ni, i requires 0 <= i < ni => Decays(exp, d.dt, Pair(theta, d, i).tau)), m);
    de := SideBySide(seq(ni, i requires 0 <= i < ni => DecaySlopes(exp, d.dt, Pair(theta, d, i).tau)), m);
    src := SideBySide(seq(ni, i requires 0 <= i < ni => PairSource(theta, d, i)), m);
    dsrc := SideBySide(seq(ni, i requires 0 <= i < ni => SourceSlopes(Pair(theta, d, i).J, PairData(d, i))), m);
    press := SideBySide(seq(ni, i requires 0 <= i < ni => PressureSource(Pair(theta, d, i).tau, PairData(d, i))), m);
  }

  lemma PairRateAt(
      exp: Exp, theta: Vec, d: ProducerData, n: nat,
      e: Matrix, de: Matrix, src: Matrix, dsrc: Matrix, press: Matrix, x: Matrix)
    requires d.Valid() && GoodPairTheta(theta, d) && n < d.Steps()
    requires ArePairInputs(exp, theta, d, e, de, src, dsrc, press)
    requires ArePairFilters(x, d.ni, e, src, OpenSteps(d))
    ensures PairRate(exp, theta, d, n) == if d.Open(n) then Primary(exp, theta, d, n) + Sum(x[n], d.ni) else 0.0
  {
    forall i | 0 <= i < d.ni
      ensures x[n][i] == PairState(exp, theta, d, i, n)
    {
      StateAt(exp, theta, d, e, src, x, i, n);
    }
    assert x[n] == PairStates(exp, theta, d, n);
  }

  /** row[k] is the exact derivative of the rate at step n with respect to theta[k]. */
  ghost predicate IsPairJacobianRow(row: Vec, exp: Exp, theta: Vec, d: ProducerData, n: nat)
    requires d.Valid() && GoodPairTheta(theta, d) && n < d.Steps()
  {
    && |row| == |theta|
    && forall k {:trigger PairSlope(exp, theta, d, n, k)} :: 0 <= k < |theta| ==> row[k] == PairSlope(exp, theta, d, n, k)
  }

  method CrmipForward(exp: Exp, theta: Vec, d: ProducerData, needGrad: bool)
    returns (qhat: Vec, jac: Option<Matrix>)
    requires d.Valid() && GoodPairTheta(theta, d)
    ensures |qhat| == d.Steps()
    ensures forall n {:trigger PairRate(exp, theta, d, n)} :: 0 <= n < d.Steps() ==> qhat[n] == PairRate(exp, theta, d, n)
    ensures jac.Some? == needGrad
    ensures needGrad ==> |jac.value| == d.Steps()
    ensures needGrad ==> forall n :: 0 <= n < d.Steps() ==> IsPairJacobianRow(jac.value[n], exp, theta, d, n)
  {
    var m, ni := d.Steps(), d.ni;
    var open := OpenSteps(d);
    var e, de, src, dsrc, press := PairInputs(exp, theta, d);
    var x, c, dTau, dJ := PairLoop(d.inj, ni, e, de, src, dsrc, press, open, needGrad);
    qhat := seq(m, n requires 0 <= n < m => if !open[n] then 0.0 else Primary(exp, theta, d, n) + Sum(x[n], ni));
    forall n | 0 <= n < m
      ensures qhat[n] == PairRate(exp, theta, d, n)
    {
      PairRateAt(exp, theta, d, n, e, de, src, dsrc, press, x);
    }
    if !needGrad {
      return qhat, None;
    }
    var rows := new Vec[m](_ => []);
    var n := 0;
    while n < m
      invariant 0 <= n <= m
      invariant forall r :: 0 <= r < n ==> IsPairJacobianRow(rows[r], exp, theta, d, r)
    {
      rows[n] := PairJacobianRow(exp, theta, d, n, c[n], dTau[n], dJ[n]);
      PairRowIsExact(exp, theta, d, n, e, de, src, dsrc, press, x, c, dTau, dJ);
      n := n + 1;
    }
    jac := Some(rows[..]);
  }

  lemma StateAt(exp: Exp, theta: Vec, d: ProducerData, e: Matrix, src: Matrix, x: Matrix, i: nat, n: nat)
    requires d.Valid() && GoodPairTheta(theta, d) && i < d.ni && n < d.Steps()
    requires ArePairFilters(x, d.ni, e, src, OpenSteps(d))
    requires Column(e, i) == Decays(exp, d.dt, Pair(theta, d, i).tau) && Column(src, i) == PairSource(theta, d, i)
    ensures x[n][i] == PairState(exp, theta, d, i, n)
  {
    assert OpenSteps(PairData(d, i)) == OpenSteps(d);
    assert IsFilter(Column(x, i), Column(e, i), Column(src, i), OpenSteps(d));
    assert Column(x, i)[n] == Filter(Column(e, i), Column(src, i), OpenSteps(d), n);
  }

  /** One row of the Jacobian in the layout of theta; zero while shut in. */
  function PairJacobianRow(exp: Exp, theta: Vec, d: ProducerData, n: nat, c: Vec, dTau: Vec, dJ: Vec): (row: Vec)
    requires d.Valid() && GoodPairTheta(theta, d) && n < d.Steps() && |c| == |dTau| == |dJ| == d.ni
    ensures |row| == |theta|
  {
    if !d.Open(n) then seq(|theta|, _ => 0.0)
    else c + dTau + [PrimaryEntry(exp, theta, d, n, 2 * d.ni), PrimaryEntry(exp, theta, d, n, 2 * d.ni + 1)]
         + (if d.HasJ() then dJ else [])
  }

  lemma EntriesAt(
      exp: Exp, theta: Vec, d: ProducerData, n: nat, i: nat,
      e: Matrix, de: Matrix, src: Matrix, dsrc: Matrix, press: Matrix, x: Matrix, c: Matrix, dTau: Matrix, dJ: Matrix)
    requires d.Valid() && GoodPairTheta(theta, d) && n < d.Steps() && i < d.ni
    requires ArePairInputs(exp, theta, d, e, de, src, dsrc, press)
    requires ArePairColumns(d.inj, d.ni, e, de, src, dsrc, press, OpenSteps(d), x, c, dTau, dJ)
    ensures c[n][i] == PairEntry(exp, theta, d, i, n, i)
    ensures dTau[n][i] == PairEntry(exp, theta, d, i, n, d.ni + i)
    ensures d.HasJ() ==> dJ[n][i] == PairEntry(exp, theta, d, i, n, 2 * d.ni + 2 + i)
  {
    var pair, open := PairData(d, i), OpenSteps(d);
    var p := Pair(theta, d, i);
    assert OpenSteps(pair) == open;
    assert Column(pair.inj, 0) == Column(d.inj, i);
    assert IsFilter(Column(c, i), Column(e, i), Column(d.inj, i), open);
    assert Column(c, i)[n] == Filter(Column(e, i), Column(d.inj, i), open, n);
    assert IsSlope(Column(dTau, i), Column(e, i), Column(de, i), Column(src, i), Column(dsrc, i), open);
    assert Column(dTau, i)[n] == SlopeFilter(Column(e, i), Column(de, i), Column(src, i), Column(dsrc, i), open, n);
    assert IsFilter(Column(dJ, i), Column(e, i), Column(press, i), open);
    assert Column(dJ, i)[n] == Filter(Column(e, i), Column(press, i), open, n);
  }

  lemma PairRowEntry(
      exp: Exp, theta: Vec, d: ProducerData, n: nat, k: nat,
      e: Matrix, de: Matrix, src: Matrix, dsrc: Matrix, press: Matrix, x: Matrix, c: Matrix, dTau: Matrix, dJ: Matrix)
    requires d.Valid() && GoodPairTheta(theta, d) && n < d.Steps() && k < |theta|
    requires ArePairInputs(exp, theta, d, e, de, src, dsrc, press)
    requires ArePairColumns(d.inj, d.ni, e, de, src, dsrc, press, OpenSteps(d), x, c, dTau, dJ)
    ensures PairJacobianRow(exp, theta, d, n, c[n], dTau[n], dJ[n])[k] == PairJacobianEntry(exp, theta, d, n, k)
  {
    if PairOf(d, k) < d.ni {
      EntriesAt(exp, theta, d, n, PairOf(d, k), e, de, src, dsrc, press, x, c, dTau, dJ);
    }
  }

  lemma PairRowIsExact(
      exp: Exp, theta: Vec, d: ProducerData, n: nat,
      e: Matrix, de: Matrix, src: Matrix, dsrc: Matrix, press: Matrix, x: Matrix, c: Matrix, dTau: Matrix, dJ: Matrix)
    requires d.Valid() && GoodPairTheta(theta, d) && n < d.Steps()
    requires ArePairInputs(exp, theta, d, e, de, src, dsrc, press)
    requires ArePairColumns(d.inj, d.ni, e, de, src, dsrc, press, OpenSteps(d), x, c, dTau, dJ)
    ensures IsPairJacobianRow(PairJacobianRow(exp, theta, d, n, c[n], dTau[n], dJ[n]), exp, theta, d, n)
  {
    var row := PairJacobianRow(exp, theta, d, n, c[n], dTau[n], dJ[n]);
    forall k | 0 <= k < |theta|
      ensures row[k] == PairSlope(exp, theta, d, n, k)
    {
      PairRowEntry(exp, theta, d, n, k, e, de, src, dsrc, press, x, c, dTau, dJ);
      PairJacobianIsExact(exp, theta, d, n, k);
    }
  }
}
