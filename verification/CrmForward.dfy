/**
 The forward models with their hand-written sensitivities, as the loops of
 waterflood_app/models/solver.py run them, proved against the recursion and its dual-number derivative.
 */
module CrmForward {
  import opened Common
  import opened Duals
  import opened Crm

  // ---------------------------------------------------------------- columns of the step loop

  /** x holds the filter of u at every step. */
  ghost predicate IsFilter(x: Vec, e: Vec, u: Vec, open: seq<bool>) {
    && |x| == |e| == |u| == |open|
    && forall n {:trigger Filter(e, u, open, n)} :: 0 <= n < |x| ==> x[n] == Filter(e, u, open, n)
  }

  /** s holds the sensitivity of that filter when decays and sources both move. */
  ghost predicate IsSlope(s: Vec, e: Vec, de: Vec, u: Vec, du: Vec, open: seq<bool>) {
    && |s| == |e| == |de| == |u| == |du| == |open|
    && forall n {:trigger SlopeFilter(e, de, u, du, open, n)} :: 0 <= n < |s| ==> s[n] == SlopeFilter(e, de, u, du, open, n)
  }

  /** Each column of c holds the filter of the same column of u. */
  ghost predicate AreFilters(c: Matrix, ni: nat, e: Vec, u: Matrix, open: seq<bool>) {
    && Shape(c, |e|, ni) && Shape(u, |e|, ni)
    && forall i {:trigger Column(u, i)} :: 0 <= i < ni ==> IsFilter(Column(c, i), e, Column(u, i), open)
  }

  lemma FilterColumn(e: Vec, u: Vec, open: seq<bool>) returns (x: Vec)
    requires |e| == |u| == |open|
    ensures IsFilter(x, e, u, open)
  {
    x := seq(|e|, n requires 0 <= n < |e| => Filter(e, u, open, n));
  }

  lemma FilterColumns(ni: nat, e: Vec, u: Matrix, open: seq<bool>) returns (c: Matrix)
    requires |e| == |open| && Shape(u, |e|, ni)
    ensures AreFilters(c, ni, e, u, open)
  {
    c := seq(|e|, n requires 0 <= n < |e| => seq(ni, i requires 0 <= i < ni => Filter(e, Column(u, i), open, n)));
  }

  lemma SlopeColumn(e: Vec, de: Vec, u: Vec, du: Vec, open: seq<bool>) returns (s: Vec)
    requires |e| == |de| == |u| == |du| == |open|
    ensures IsSlope(s, e, de, u, du, open)
  {
    s := seq(|e|, n requires 0 <= n < |e| => SlopeFilter(e, de, u, du, open, n));
  }

  lemma FilterRow(x: Vec, e: Vec, u: Vec, open: seq<bool>, n: nat)
    requires IsFilter(x, e, u, open) && n < |e|
    ensures n == 0 ==> x[n] == 0.0
    ensures n > 0 ==> x[n] == if open[n] then Leak(x[n - 1], e[n], u[n]) else x[n - 1]
  {
    assert x[n] == Filter(e, u, open, n);
    if n > 0 {
      assert x[n - 1] == Filter(e, u, open, n - 1);
    }
  }

  /** One row of the allocation sensitivities: c * e + (1 - e) * u, entry by entry. */
  function LeakRow(c: Vec, e: real, u: Vec): (r: Vec)
    requires |c| == |u|
    ensures |r| == |c|
  {
    seq(|c|, i requires 0 <= i < |c| => Leak(c[i], e, u[i]))
  }

  lemma FilterRows(c: Matrix, ni: nat, e: Vec, u: Matrix, open: seq<bool>, n: nat)
    requires AreFilters(c, ni, e, u, open) && n < |e| && |open| == |e|
    ensures n == 0 ==> c[n] == seq(ni, _ => 0.0)
    ensures n > 0 ==> c[n] == if open[n] then LeakRow(c[n - 1], e[n], u[n]) else c[n - 1]
  {
    forall i | 0 <= i < ni
      ensures n == 0 ==> c[n][i] == 0.0
      ensures n > 0 ==> c[n][i] == if open[n] then LeakRow(c[n - 1], e[n], u[n])[i] else c[n - 1][i]
    {
      assert IsFilter(Column(c, i), e, Column(u, i), open);
      FilterRow(Column(c, i), e, Column(u, i), open, n);
    }
  }

  lemma SlopeRow(s: Vec, x: Vec, e: Vec, de: Vec, u: Vec, du: Vec, open: seq<bool>, n: nat)
    requires IsSlope(s, e, de, u, du, open) && IsFilter(x, e, u, open) && n < |e|
    ensures n == 0 ==> s[n] == 0.0
    ensures n > 0 ==>
      s[n] == if open[n] then LeakSlope(s[n - 1], x[n - 1], e[n], de[n], u[n], du[n]) else s[n - 1]
  {
    assert s[n] == SlopeFilter(e, de, u, du, open, n);
    if n > 0 {
      assert s[n - 1] == SlopeFilter(e, de, u, du, open, n - 1);
      assert x[n - 1] == Filter(e, u, open, n - 1);
    }
  }

  /** The four columns the step loop fills. */
  ghost predicate AreColumns(
      inj: Matrix, ni: nat, e: Vec, de: Vec, src: Vec, dsrc: Vec, press: Vec, open: seq<bool>,
      x: Vec, c: Matrix, dTau: Vec, dJ: Vec)
  {
    && IsFilter(x, e, src, open)
    && AreFilters(c, ni, e, inj, open)
    && IsSlope(dTau, e, de, src, dsrc, open)
    && IsFilter(dJ, e, press, open)
  }

  lemma ColumnsExist(
      inj: Matrix, ni: nat, e: Vec, de: Vec, src: Vec, dsrc: Vec, press: Vec, open: seq<bool>)
    returns (x: Vec, c: Matrix, dTau: Vec, dJ: Vec)
    requires |e| == |de| == |src| == |dsrc| == |press| == |open| && Shape(inj, |e|, ni)
    ensures AreColumns(inj, ni, e, de, src, dsrc, press, open, x, c, dTau, dJ)
    ensures |x| == |dTau| == |dJ| == |e| && Shape(c, |e|, ni)
  {
    x := FilterColumn(e, src, open);
    c := FilterColumns(ni, e, inj, open);
    dTau := SlopeColumn(e, de, src, dsrc, open);
    dJ := FilterColumn(e, press, open);
  }

  lemma RowAt(
      inj: Matrix, ni: nat, e: Vec, de: Vec, src: Vec, dsrc: Vec, press: Vec, open: seq<bool>,
      x: Vec, c: Matrix, dTau: Vec, dJ: Vec, n: nat)
    requires |e| == |de| == |src| == |dsrc| == |press| == |open| && Shape(inj, |e|, ni)
    requires |x| == |dTau| == |dJ| == |e| && Shape(c, |e|, ni) && n < |e|
    requires AreColumns(inj, ni, e, de, src, dsrc, press, open, x, c, dTau, dJ)
    ensures n == 0 ==> x[n] == 0.0 && c[n] == seq(ni, _ => 0.0) && dTau[n] == 0.0 && dJ[n] == 0.0
    ensures n > 0 && !open[n] ==>
      x[n] == x[n - 1] && c[n] == c[n - 1] && dTau[n] == dTau[n - 1] && dJ[n] == dJ[n - 1]
    ensures n > 0 && open[n] ==>
      && x[n] == Leak(x[n - 1], e[n], src[n])
      && c[n] == LeakRow(c[n - 1], e[n], inj[n])
      && dTau[n] == LeakSlope(dTau[n - 1], x[n - 1], e[n], de[n], src[n], dsrc[n])
      && dJ[n] == Leak(dJ[n - 1], e[n], press[n])
  {
    FilterRow(x, e, src, open, n);
    FilterRows(c, ni, e, inj, open, n);
    SlopeRow(dTau, x, e, de, src, dsrc, open, n);
    FilterRow(dJ, e, press, open, n);
  }

  /**
   The step loop: states and sensitivities are filled row by row; a closed step copies the previous row.
   e, src: decays and sources; de, dsrc: their tau-derivatives; press: what multiplies J.
   */
  method StepLoop(
      inj: Matrix, ni: nat, e: Vec, de: Vec, src: Vec, dsrc: Vec, press: Vec, open: seq<bool>, needGrad: bool)
    returns (x: Vec, c: Matrix, dTau: Vec, dJ: Vec)
    requires |e| == |de| == |src| == |dsrc| == |press| == |open| && Shape(inj, |e|, ni)
    ensures IsFilter(x, e, src, open)
    ensures needGrad ==> AreColumns(inj, ni, e, de, src, dsrc, press, open, x, c, dTau, dJ)
  {
    var m := |e|;
    if m == 0 {
      return [], [], [], [];
    }
    var xa := new real[m](_ => 0.0);
    var ca := new Vec[m](_ => seq(ni, _ => 0.0));
    var ta := new real[m](_ => 0.0);
    var ja := new real[m](_ => 0.0);
    ghost var X, C, T, P := ColumnsExist(inj, ni, e, de, src, dsrc, press, open);
    RowAt(inj, ni, e, de, src, dsrc, press, open, X, C, T, P, 0);
    for n := 1 to m
      invariant forall r :: 0 <= r < n ==> xa[r] == X[r]
      invariant needGrad ==> forall r :: 0 <= r < n ==> ca[r] == C[r] && ta[r] == T[r] && ja[r] == P[r]
    {
      RowAt(inj, ni, e, de, src, dsrc, press, open, X, C, T, P, n);
      if !open[n] {
        xa[n] := xa[n - 1];
        if needGrad {
          ca[n], ta[n], ja[n] := ca[n - 1], ta[n - 1], ja[n - 1];
        }
      } else {
        xa[n] := Leak(xa[n - 1], e[n], src[n]);
        if needGrad {
          ca[n] := LeakRow(ca[n - 1], e[n], inj[n]);
          ta[n] := LeakSlope(ta[n - 1], xa[n - 1], e[n], de[n], src[n], dsrc[n]);
          ja[n] := Leak(ja[n - 1], e[n], press[n]);
        }
      }
    }
    x, c, dTau, dJ := xa[..], ca[..], ta[..], ja[..];
    assert x == X;
    assert needGrad ==> c == C && dTau == T && dJ == P;
  }

  // ---------------------------------------------------------------- CRMP

  ghost predicate IsRate(qhat: Vec, exp: Exp, theta: Vec, d: ProducerData, tied: bool)
    requires d.Valid() && GoodTheta(theta, d, tied)
  {
    && |qhat| == d.Steps()
    && forall n {:trigger Rate(exp, RealParams(theta, d, tied), d, n)} :: 0 <= n < d.Steps() ==>
         qhat[n] == Rate(exp, RealParams(theta, d, tied), d, n)
  }

  /** row[k] is the exact derivative of the rate at step n with respect to theta[k]. */
  ghost predicate IsJacobianRow(row: Vec, exp: Exp, theta: Vec, d: ProducerData, tied: bool, n: nat)
    requires d.Valid() && GoodTheta(theta, d, tied) && n < d.Steps()
  {
    && |row| == |theta|
    && forall k {:trigger Slope(exp, theta, d, tied, n, k)} :: 0 <= k < |theta| ==>
         row[k] == Slope(exp, theta, d, tied, n, k)
  }

  ghost predicate IsJacobian(jac: Matrix, exp: Exp, theta: Vec, d: ProducerData, tied: bool)
    requires d.Valid() && GoodTheta(theta, d, tied)
  {
    |jac| == d.Steps() && forall n :: 0 <= n < d.Steps() ==> IsJacobianRow(jac[n], exp, theta, d, tied, n)
  }

  lemma RateAt(exp: Exp, p: Params<real>, d: ProducerData, x: Vec, n: nat)
    requires d.Valid() && |p.f| == d.ni && p.tau != 0.0 && p.tauP != 0.0 && n < d.Steps()
    requires IsFilter(x, Decays(exp, d.dt, p.tau), Source(p.f, p.tau, p.J, d), OpenSteps(d))
    ensures Rate(exp, p, d, n) == if d.Open(n) then PrimaryTerm(exp, p, d, n) + x[n] else 0.0
  {
    assert x[n] == State(exp, p, d, n);
  }

  method CrmpForward(exp: Exp, theta: Vec, d: ProducerData, needGrad: bool, tied: bool)
    returns (qhat: Vec, jac: Option<Matrix>)
    requires d.Valid() && GoodTheta(theta, d, tied)
    ensures IsRate(qhat, exp, theta, d, tied)
    ensures jac.Some? == needGrad
    ensures needGrad ==> IsJacobian(jac.value, exp, theta, d, tied)
  {
    var m, ni := d.Steps(), d.ni;
    var p := RealParams(theta, d, tied);
    var open := OpenSteps(d);
    var e := Decays(exp, d.dt, p.tau);
    var de := DecaySlopes(exp, d.dt, p.tau);
    var src := Source(p.f, p.tau, p.J, d);
    var press := PressureSource(p.tau, d);
    var x, c, dTau, dJ := StepLoop(d.inj, ni, e, de, src, SourceSlopes(p.J, d), press, open, needGrad);
    qhat := seq(m, n requires 0 <= n < m => if !open[n] then 0.0 else PrimaryTerm(exp, p, d, n) + x[n]);
    forall n | 0 <= n < m
      ensures qhat[n] == Rate(exp, p, d, n)
    {
      RateAt(exp, p, d, x, n);
    }
    if !needGrad {
      return qhat, None;
    }
    var rows := new Vec[m](_ => []);
    var n := 0;
    while n < m
      invariant 0 <= n <= m
      invariant forall r :: 0 <= r < n ==> IsJacobianRow(rows[r], exp, theta, d, tied, r)
    {
      rows[n] := JacobianRow(exp, theta, d, tied, n, c[n], dTau[n], dJ[n]);
      RowIsExact(exp, theta, d, tied, n, c, dTau, dJ);
      n := n + 1;
    }
    jac := Some(rows[..]);
  }

  /** One row of the Jacobian in the layout of theta; zero while shut in. */
  function JacobianRow(
      exp: Exp, theta: Vec, d: ProducerData, tied: bool, n: nat, c: Vec, dTau: real, dJ: real): (row: Vec)
    requires d.Valid() && GoodTheta(theta, d, tied) && n < d.Steps() && |c| == d.ni
    ensures |row| == |theta|
  {
    var p := RealParams(theta, d, tied);
    var last := if d.HasJ() then [dJ] else [];
    if !d.Open(n) then seq(|theta|, _ => 0.0)
    else if tied then c + [PrimaryTauSlope(exp, p, d, n) + dTau] + last
    else c + [dTau, GainSlope(exp, p, d, n), PrimaryTauSlope(exp, p, d, n)] + last
  }

  /** The columns of the step loop, as the forward model runs it. */
  ghost predicate AreSensitivities(
      exp: Exp, theta: Vec, d: ProducerData, tied: bool, c: Matrix, dTau: Vec, dJ: Vec)
    requires d.Valid() && GoodTheta(theta, d, tied)
  {
    var p := RealParams(theta, d, tied);
    var e := Decays(exp, d.dt, p.tau);
    && AreFilters(c, d.ni, e, d.inj, OpenSteps(d))
    && IsSlope(dTau, e, DecaySlopes(exp, d.dt, p.tau), Source(p.f, p.tau, p.J, d), SourceSlopes(p.J, d), OpenSteps(d))
    && IsFilter(dJ, e, PressureSource(p.tau, d), OpenSteps(d))
  }

  lemma RowEntry(
      exp: Exp, theta: Vec, d: ProducerData, tied: bool, n: nat, k: nat, c: Matrix, dTau: Vec, dJ: Vec)
    requires d.Valid() && GoodTheta(theta, d, tied) && n < d.Steps() && k < |theta|
    requires AreSensitivities(exp, theta, d, tied, c, dTau, dJ)
    ensures JacobianRow(exp, theta, d, tied, n, c[n], dTau[n], dJ[n])[k] == JacobianEntry(exp, theta, d, tied, n, k)
  {
    var p := RealParams(theta, d, tied);
    var e := Decays(exp, d.dt, p.tau);
    ColumnsAt(d, e, DecaySlopes(exp, d.dt, p.tau), Source(p.f, p.tau, p.J, d), PressureSource(p.tau, d),
              SourceSlopes(p.J, d), OpenSteps(d), c, dTau, dJ, n, k);
  }

  lemma RowIsExact(
      exp: Exp, theta: Vec, d: ProducerData, tied: bool, n: nat, c: Matrix, dTau: Vec, dJ: Vec)
    requires d.Valid() && GoodTheta(theta, d, tied) && n < d.Steps()
    requires AreSensitivities(exp, theta, d, tied, c, dTau, dJ)
    ensures IsJacobianRow(JacobianRow(exp, theta, d, tied, n, c[n], dTau[n], dJ[n]), exp, theta, d, tied, n)
  {
    forall k | 0 <= k < |theta|
      ensures JacobianRow(exp, theta, d, tied, n, c[n], dTau[n], dJ[n])[k] == Slope(exp, theta, d, tied, n, k)
    {
      RowEntry(exp, theta, d, tied, n, k, c, dTau, dJ);
      JacobianIsExact(exp, theta, d, tied, n, k);
    }
  }

  /** What the sensitivity columns hold at one step. */
  lemma ColumnsAt(
      d: ProducerData, e: Vec, de: Vec, src: Vec, press: Vec, dsrc: Vec, open: seq<bool>,
      c: Matrix, dTau: Vec, dJ: Vec, n: nat, k: nat)
    requires d.Valid() && n < d.Steps() == |e| == |open|
    requires AreFilters(c, d.ni, e, d.inj, open) && IsSlope(dTau, e, de, src, dsrc, open) && IsFilter(dJ, e, press, open)
    ensures k < d.ni ==> c[n][k] == Filter(e, Column(d.inj, k), open, n)
    ensures dTau[n] == SlopeFilter(e, de, src, dsrc, open, n)
    ensures dJ[n] == Filter(e, press, open, n)
  {
    if k < d.ni {
      assert IsFilter(Column(c, k), e, Column(d.inj, k), open);
      assert Column(c, k)[n] == Filter(e, Column(d.inj, k), open, n);
    }
    assert dTau[n] == SlopeFilter(e, de, src, dsrc, open, n);
    assert dJ[n] == Filter(e, press, open, n);
  }
}
