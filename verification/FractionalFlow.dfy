/**
 The oil-cut fit (waterflood_app/models/fractional_flow.py): a line through ln(1/f_o - 1) against
 ln(offset + CWI), its slope held in [0, 50], and a search over the offset. The logarithm, the exponential, the
 offset grid, the least-squares solver and the scalar minimiser are parameters; of the solver only the normal
 equations are used, of the minimiser nothing.
 */
module FractionalFlow {
  import opened Common

  // ---------------------------------------------------------------- squared error of a line

  function Residual(x: Vec, y: Vec, a: real, b: real, k: nat): real
    requires k < |x| == |y|
  {
    y[k] - LineAt(a, b, x[k])
  }

  function LineAt(a: real, b: real, x: real): real {
    a + b * x
  }

  /** Sum of squared residuals of the line a + b x over the first n points. */
  function Sse(x: Vec, y: Vec, a: real, b: real, n: nat): real
    requires n <= |x| == |y|
  {
    if n == 0 then 0.0 else Sse(x, y, a, b, n - 1) + Square(Residual(x, y, a, b, n - 1))
  }

  function ResidualSum(x: Vec, y: Vec, a: real, b: real, n: nat): real
    requires n <= |x| == |y|
  {
    if n == 0 then 0.0 else ResidualSum(x, y, a, b, n - 1) + Residual(x, y, a, b, n - 1)
  }

  function ResidualMoment(x: Vec, y: Vec, a: real, b: real, n: nat): real
    requires n <= |x| == |y|
  {
    if n == 0 then 0.0 else ResidualMoment(x, y, a, b, n - 1) + Times(x[n - 1], Residual(x, y, a, b, n - 1))
  }

  /** What a least-squares solution of ln(WOR) on [1, x] satisfies. */
  ghost predicate NormalEquations(x: Vec, y: Vec, a: real, b: real)
    requires |x| == |y|
  {
    ResidualSum(x, y, a, b, |x|) == 0.0 && ResidualMoment(x, y, a, b, |x|) == 0.0
  }

  /** Sum of (c + d x)^2: what moving the line by (c, d) adds to the error of a least-squares solution. */
  function Spread(x: Vec, c: real, d: real, n: nat): real
    requires n <= |x|
  {
    if n == 0 then 0.0 else Spread(x, c, d, n - 1) + Square(LineAt(c, d, x[n - 1]))
  }

  lemma {:induction false} SpreadNonNegative(x: Vec, c: real, d: real, n: nat)
    requires n <= |x|
    ensures Spread(x, c, d, n) >= 0.0
  {
    if n > 0 {
      SpreadNonNegative(x, c, d, n - 1);
      SquareNonNegative(LineAt(c, d, x[n - 1]), Square(LineAt(c, d, x[n - 1])));
    }
  }

  lemma SquareOfDifference(r: real, t: real)
    ensures Square(r - t) == Square(r) - 2.0 * Times(t, r) + Square(t)
  {
  }

  lemma ShiftStep(before: real, error: real, sum: real, moment: real, spread: real, r: real, x: real, c: real, d: real)
    requires before == error - 2.0 * Times(c, sum) - 2.0 * Times(d, moment) + spread
    ensures before + Square(r - LineAt(c, d, x)) ==
            error + Square(r) - 2.0 * Times(c, sum + r) - 2.0 * Times(d, moment + Times(x, r)) + (spread + Square(LineAt(c, d, x)))
  {
    var t := LineAt(c, d, x);
    SquareOfDifference(r, t);
    assert Times(t, r) == Times(c, r) + Times(d, Times(x, r)) by {
      assert (c + d * x) * r == c * r + d * (x * r);
    }
    SumParts(c, sum, r);
    SumParts(d, moment, Times(x, r));
  }

  lemma ShiftedResidual(x: Vec, y: Vec, a: real, b: real, c: real, d: real, k: nat)
    requires k < |x| == |y|
    ensures Residual(x, y, a + c, b + d, k) == Residual(x, y, a, b, k) - LineAt(c, d, x[k])
  {
  }

  lemma {:induction false} SseShift(x: Vec, y: Vec, a: real, b: real, c: real, d: real, n: nat)
    requires n <= |x| == |y|
    ensures Sse(x, y, a + c, b + d, n) ==
            Sse(x, y, a, b, n) - 2.0 * Times(c, ResidualSum(x, y, a, b, n)) - 2.0 * Times(d, ResidualMoment(x, y, a, b, n))
            + Spread(x, c, d, n)
  {
    if n > 0 {
      SseShift(x, y, a, b, c, d, n - 1);
      ShiftedResidual(x, y, a, b, c, d, n - 1);
      ShiftStep(Sse(x, y, a + c, b + d, n - 1), Sse(x, y, a, b, n - 1), ResidualSum(x, y, a, b, n - 1),
                ResidualMoment(x, y, a, b, n - 1), Spread(x, c, d, n - 1), Residual(x, y, a, b, n - 1), x[n - 1], c, d);
    }
  }

  lemma SumParts(c: real, u: real, v: real)
    ensures Times(c, u + v) == Times(c, u) + Times(c, v)
  {
  }

  /** Around a least-squares solution the error grows by the spread, and by nothing else. */
  lemma SseAround(x: Vec, y: Vec, a: real, b: real, a': real, b': real)
    requires |x| == |y| && NormalEquations(x, y, a, b)
    ensures Sse(x, y, a', b', |x|) == Sse(x, y, a, b, |x|) + Spread(x, a' - a, b' - b, |x|)
  {
    SseShift(x, y, a, b, a' - a, b' - b, |x|);
  }

  // ---------------------------------------------------------------- the spread around the mean

  /** The mean; zero of no values, where the deviations from it are summed over nothing. */
  function Mean(v: Vec): real {
    if v == [] then 0.0 else Sum(v, |v|) / (|v| as real)
  }

  /** Sum of (x - m)^2. */
  function Scatter(x: Vec, m: real, n: nat): real
    requires n <= |x|
  {
    if n == 0 then 0.0 else Scatter(x, m, n - 1) + Square(x[n - 1] - m)
  }

  lemma SquareOfSum(u: real, d: real, v: real)
    ensures Square(u + d * v) == Square(u) + 2.0 * Times(Times(u, d), v) + Times(Square(d), Square(v))
  {
    assert (u + d * v) * (u + d * v) == u * u + 2.0 * (u * (d * v)) + (d * v) * (d * v);
    assert u * (d * v) == u * d * v;
    assert (d * v) * (d * v) == d * d * (v * v);
  }

  lemma Recentered(c: real, d: real, m: real, x: real)
    ensures LineAt(c, d, x) == LineAt(c, d, m) + d * (x - m)
  {
  }

  lemma CenterStep(before: real, n: nat, off: real, scatter: real, c: real, d: real, m: real, x: real)
    requires n > 0
    requires var u := LineAt(c, d, m);
             before == Times((n - 1) as real, Square(u)) + 2.0 * Times(Times(u, d), off) + Times(Square(d), scatter)
    ensures var u := LineAt(c, d, m);
            before + Square(LineAt(c, d, x)) ==
            Times(n as real, Square(u)) + 2.0 * Times(Times(u, d), off + (x - m)) + Times(Square(d), scatter + Square(x - m))
  {
    var u := LineAt(c, d, m);
    Recentered(c, d, m, x);
    SquareOfSum(u, d, x - m);
    SumParts(Times(u, d), off, x - m);
    SumParts(Square(d), scatter, Square(x - m));
    CountParts(n, Square(u));
  }

  lemma {:induction false} SpreadAround(x: Vec, c: real, d: real, m: real, n: nat)
    requires n <= |x|
    ensures Spread(x, c, d, n) ==
            Times(n as real, Square(LineAt(c, d, m))) + 2.0 * Times(Times(LineAt(c, d, m), d), Off(x, m, n))
            + Times(Square(d), Scatter(x, m, n))
  {
    if n > 0 {
      SpreadAround(x, c, d, m, n - 1);
      CenterStep(Spread(x, c, d, n - 1), n, Off(x, m, n - 1), Scatter(x, m, n - 1), c, d, m, x[n - 1]);
    }
  }

  /** Sum of x - m. */
  function Off(x: Vec, m: real, n: nat): real
    requires n <= |x|
  {
    if n == 0 then 0.0 else Off(x, m, n - 1) + (x[n - 1] - m)
  }

  lemma {:induction false} OffIs(x: Vec, m: real, n: nat)
    requires n <= |x|
    ensures Off(x, m, n) == Sum(x, n) - Times(n as real, m)
  {
    if n > 0 {
      OffIs(x, m, n - 1);
      CountParts(n, m);
    }
  }

  lemma CountParts(n: nat, q: real)
    requires n > 0
    ensures Times(n as real, q) == Times((n - 1) as real, q) + q
  {
  }

  lemma MeanCenters(x: Vec)
    requires |x| > 0
    ensures Off(x, Mean(x), |x|) == 0.0
  {
    OffIs(x, Mean(x), |x|);
  }

  lemma CenteredSpread(spread: real, n: real, u: real, d: real, off: real, scatter: real)
    requires spread == Times(n, Square(u)) + 2.0 * Times(Times(u, d), off) + Times(Square(d), scatter)
    requires n > 0.0 && off == 0.0
    ensures spread >= Times(Square(d), scatter)
    ensures u == 0.0 ==> spread == Times(Square(d), scatter)
    ensures u != 0.0 ==> spread > Times(Square(d), scatter)
  {
    SquareNonNegative(u, Square(u));
    MulNonNegative(n, Square(u), Times(n, Square(u)));
    if u != 0.0 {
      SquarePositive(u, Square(u));
      MulPositive(n, Square(u), Times(n, Square(u)));
    }
  }

  /** Among the moves that change the slope by d, the one that keeps the line through the mean point spreads least. */
  lemma SpreadAtLeast(x: Vec, c: real, d: real)
    requires |x| > 0
    ensures Spread(x, c, d, |x|) >= Times(Square(d), Scatter(x, Mean(x), |x|))
    ensures LineAt(c, d, Mean(x)) == 0.0 ==> Spread(x, c, d, |x|) == Times(Square(d), Scatter(x, Mean(x), |x|))
    ensures LineAt(c, d, Mean(x)) != 0.0 ==> Spread(x, c, d, |x|) > Times(Square(d), Scatter(x, Mean(x), |x|))
  {
    var m := Mean(x);
    SpreadAround(x, c, d, m, |x|);
    MeanCenters(x);
    CenteredSpread(Spread(x, c, d, |x|), |x| as real, LineAt(c, d, m), d, Off(x, m, |x|), Scatter(x, m, |x|));
  }

  lemma {:induction false} ScatterNonNegative(x: Vec, m: real, n: nat)
    requires n <= |x|
    ensures Scatter(x, m, n) >= 0.0
    ensures (exists k :: 0 <= k < n && x[k] != m) ==> Scatter(x, m, n) > 0.0
  {
    if n > 0 {
      ScatterNonNegative(x, m, n - 1);
      SquareNonNegative(x[n - 1] - m, Square(x[n - 1] - m));
      if x[n - 1] != m {
        SquarePositive(x[n - 1] - m, Square(x[n - 1] - m));
      }
    }
  }

  // ---------------------------------------------------------------- the clamped line

  const MAX_SLOPE := 50.0

  datatype Line = Line(lnAlpha: real, beta: real)

  function Rest(x: Vec, y: Vec, b: real): (r: Vec)
    requires |x| == |y|
    ensures |r| == |x|
  {
    seq(|x|, k requires 0 <= k < |x| => y[k] - b * x[k])
  }

  /** The solver's line, or the bound with the intercept fitted to it. */
  function Clamped(x: Vec, y: Vec, coef: Line): Line
    requires |x| == |y|
  {
    if 0.0 <= coef.beta <= MAX_SLOPE then coef
    else
      var beta := if coef.beta < 0.0 then 0.0 else MAX_SLOPE;
      Line(Mean(Rest(x, y, beta)), beta)
  }

  lemma RestStep(y: real, x: real, a: real, b: real, b': real)
    ensures y - b' * x == (y - LineAt(a, b, x)) + a + Times(b - b', x)
  {
  }

  lemma {:induction false} SumOfRest(x: Vec, y: Vec, a: real, b: real, b': real, n: nat)
    requires n <= |x| == |y|
    ensures Sum(Rest(x, y, b'), n) == ResidualSum(x, y, a, b, n) + Times(n as real, a) + Times(b - b', Sum(x, n))
  {
    if n > 0 {
      SumOfRest(x, y, a, b, b', n - 1);
      CountParts(n, a);
      SumParts(b - b', Sum(x, n - 1), x[n - 1]);
      RestStep(y[n - 1], x[n - 1], a, b, b');
    }
  }

  lemma MeanOf(s: real, n: real, a: real, d: real, sx: real, mean: real, mx: real)
    requires n > 0.0 && s == Times(n, a) + Times(d, sx) && mean == s / n && mx == sx / n
    ensures LineAt(mean - a, -d, mx) == 0.0
  {
    assert d * sx / n == d * (sx / n);
    assert (n * a) / n == a;
    assert -d * mx == -(d * mx);
  }

  /** The re-estimated intercept puts the line through the mean point. */
  lemma ThroughMean(x: Vec, y: Vec, a: real, b: real, b': real)
    requires |x| == |y| > 0 && NormalEquations(x, y, a, b)
    ensures LineAt(Mean(Rest(x, y, b')) - a, b' - b, Mean(x)) == 0.0
  {
    SumOfRest(x, y, a, b, b', |x|);
    MeanOf(Sum(Rest(x, y, b'), |x|), |x| as real, a, b - b', Sum(x, |x|), Mean(Rest(x, y, b')), Mean(x));
    assert -(b - b') == b' - b;
  }

  lemma SquareFarther(d: real, d': real)
    requires (d >= 0.0 && d' >= d) || (d <= 0.0 && d' <= d)
    ensures Square(d') >= Square(d)
    ensures d' != d ==> Square(d') > Square(d)
  {
    var t := Square(d') - Square(d);
    assert t == (d' - d) * (d' + d) && t == (d - d') * (-d - d');
    if d >= 0.0 && d' >= d {
      MulNonNegative(d' - d, d' + d, t);
      if d' != d {
        MulPositive(d' - d, d' + d, t);
      }
    } else {
      MulNonNegative(d - d', -d - d', t);
      if d' != d {
        MulPositive(d - d', -d - d', t);
      }
    }
  }

  lemma TimesMonotone(p: real, q: real, v: real)
    requires p <= q && v >= 0.0
    ensures Times(p, v) <= Times(q, v)
    ensures p < q && v > 0.0 ==> Times(p, v) < Times(q, v)
  {
    MulNonNegative(q - p, v, (q - p) * v);
    if p < q && v > 0.0 {
      MulPositive(q - p, v, (q - p) * v);
    }
  }

  /** Moving the slope farther from the least-squares slope costs more. */
  lemma SlopeFarther(d: real, d': real, v: real)
    requires v >= 0.0 && ((d >= 0.0 && d' >= d) || (d <= 0.0 && d' <= d))
    ensures Times(Square(d'), v) >= Times(Square(d), v)
    ensures v > 0.0 && d' != d ==> Times(Square(d'), v) > Times(Square(d), v)
  {
    SquareFarther(d, d');
    TimesMonotone(Square(d), Square(d'), v);
  }

  /** A move that leaves two points of distinct abscissae where they are moves nothing. */
  lemma FlatMove(x: Vec, c: real, d: real, i: nat, j: nat)
    requires i < |x| && j < |x| && x[i] != x[j] && Spread(x, c, d, |x|) == 0.0
    ensures c == 0.0 && d == 0.0
  {
    SpreadPositive(x, c, d, i, |x|);
    SpreadPositive(x, c, d, j, |x|);
    TwoZeros(c, d, x[i], x[j]);
  }

  lemma TwoZeros(c: real, d: real, p: real, q: real)
    requires p != q && LineAt(c, d, p) == 0.0 && LineAt(c, d, q) == 0.0
    ensures c == 0.0 && d == 0.0
  {
    assert d * (p - q) == 0.0;
    assert d == d * (p - q) / (p - q);
  }

  lemma {:induction false} SpreadPositive(x: Vec, c: real, d: real, k: nat, n: nat)
    requires k < n <= |x|
    ensures LineAt(c, d, x[k]) != 0.0 ==> Spread(x, c, d, n) > 0.0
  {
    SpreadNonNegative(x, c, d, n - 1);
    SquareNonNegative(LineAt(c, d, x[n - 1]), Square(LineAt(c, d, x[n - 1])));
    if LineAt(c, d, x[k]) != 0.0 {
      if k == n - 1 {
        SquarePositive(LineAt(c, d, x[k]), Square(LineAt(c, d, x[k])));
      } else {
        SpreadPositive(x, c, d, k, n - 1);
      }
    }
  }

  ghost predicate HasTwo(x: Vec) {
    exists i, j :: 0 <= i < |x| && 0 <= j < |x| && x[i] != x[j]
  }

  /** The clamped line is the best of all lines with a slope in [0, 50]; with two distinct abscissae, the only best. */
  lemma ClampedIsBest(x: Vec, y: Vec, coef: Line, a: real, b: real)
    requires |x| == |y| && NormalEquations(x, y, coef.lnAlpha, coef.beta) && 0.0 <= b <= MAX_SLOPE
    ensures var best := Clamped(x, y, coef);
            && 0.0 <= best.beta <= MAX_SLOPE
            && Sse(x, y, best.lnAlpha, best.beta, |x|) <= Sse(x, y, a, b, |x|)
            && (HasTwo(x) && (a != best.lnAlpha || b != best.beta) ==>
                  Sse(x, y, best.lnAlpha, best.beta, |x|) < Sse(x, y, a, b, |x|))
  {
    var best := Clamped(x, y, coef);
    SseAround(x, y, coef.lnAlpha, coef.beta, a, b);
    if best == coef {
      var c, d := a - coef.lnAlpha, b - coef.beta;
      SpreadNonNegative(x, c, d, |x|);
      if HasTwo(x) && Spread(x, c, d, |x|) == 0.0 {
        var i, j :| 0 <= i < |x| && 0 <= j < |x| && x[i] != x[j];
        FlatMove(x, c, d, i, j);
      }
    } else if x != [] {
      ClampedBeats(x, y, coef, a, b);
    }
  }

  lemma TwoScatter(x: Vec)
    requires |x| > 0 && HasTwo(x)
    ensures Scatter(x, Mean(x), |x|) > 0.0
  {
    var i, j :| 0 <= i < |x| && 0 <= j < |x| && x[i] != x[j];
    assert x[i] != Mean(x) || x[j] != Mean(x);
    ScatterNonNegative(x, Mean(x), |x|);
  }

  lemma ClampedBeats(x: Vec, y: Vec, coef: Line, a: real, b: real)
    requires |x| == |y| > 0 && NormalEquations(x, y, coef.lnAlpha, coef.beta) && 0.0 <= b <= MAX_SLOPE
    requires !(0.0 <= coef.beta <= MAX_SLOPE)
    ensures var best := Clamped(x, y, coef);
            && Sse(x, y, best.lnAlpha, best.beta, |x|) <= Sse(x, y, a, b, |x|)
            && (HasTwo(x) && (a != best.lnAlpha || b != best.beta) ==>
                  Sse(x, y, best.lnAlpha, best.beta, |x|) < Sse(x, y, a, b, |x|))
  {
    var best := Clamped(x, y, coef);
    var v := Scatter(x, Mean(x), |x|);
    var c0, d0 := best.lnAlpha - coef.lnAlpha, best.beta - coef.beta;
    var c, d := a - coef.lnAlpha, b - coef.beta;
    SseAround(x, y, coef.lnAlpha, coef.beta, a, b);
    SseAround(x, y, coef.lnAlpha, coef.beta, best.lnAlpha, best.beta);
    ThroughMean(x, y, coef.lnAlpha, coef.beta, best.beta);
    SpreadAtLeast(x, c0, d0);
    SpreadAtLeast(x, c, d);
    ScatterNonNegative(x, Mean(x), |x|);
    SlopeFarther(d0, d, v);
    if HasTwo(x) {
      TwoScatter(x);
      if d == d0 && a != best.lnAlpha {
        OffMean(c, c0, d0, Mean(x));
      }
    }
  }

  lemma OffMean(c: real, c0: real, d: real, m: real)
    requires c != c0 && LineAt(c0, d, m) == 0.0
    ensures LineAt(c, d, m) != 0.0
  {
  }

  // ---------------------------------------------------------------- the fit at one offset

  /** What the fit calls: logarithm, exponential and least-squares solver. */
  datatype Numerics = Numerics(ln: real -> real, exp: real -> real, lstsq: (Vec, Vec) -> Line)

  /** The solver meets the normal equations; without any points its coefficients are zero. */
  ghost predicate Solves(lstsq: (Vec, Vec) -> Line) {
    && lstsq([], []) == Line(0.0, 0.0)
    && forall x: Vec, y: Vec {:trigger lstsq(x, y)} :: |x| == |y| ==>
         NormalEquations(x, y, lstsq(x, y).lnAlpha, lstsq(x, y).beta)
  }

  ghost predicate PositiveExp(exp: real -> real) {
    forall z: real :: exp(z) > 0.0
  }

  /** ln(offset + CWI) */
  function Abscissae(ln: real -> real, cwi: Vec, offset: real): (x: Vec)
    ensures |x| == |cwi|
  {
    seq(|cwi|, k requires 0 <= k < |cwi| => ln(offset + cwi[k]))
  }

  /** ln(1 / f_o - 1) */
  function LogWor(ln: real -> real, fo: Vec): (y: Vec)
    requires forall k :: 0 <= k < |fo| ==> fo[k] > 0.0
    ensures |y| == |fo|
  {
    seq(|fo|, k requires 0 <= k < |fo| => ln(1.0 / fo[k] - 1.0))
  }

  datatype LogFit = LogFit(alpha: real, line: Line, sse: real, ssTot: real)

  const MAX_LN_ALPHA := 700.0

  /** The scatter of the values around their mean, or one when there is none. */
  function Total(y: Vec): real {
    var total := Scatter(y, Mean(y), |y|);
    if total == 0.0 then 1.0 else total
  }

  function LogLinear(num: Numerics, x: Vec, y: Vec): LogFit
    requires |x| == |y|
  {
    var line := Clamped(x, y, num.lstsq(x, y));
    LogFit(num.exp(Min(line.lnAlpha, MAX_LN_ALPHA)), line, Sse(x, y, line.lnAlpha, line.beta, |x|), Total(y))
  }

  /** No line with a slope in [0, 50] has a smaller error at this offset. */
  lemma LogLinearIsBest(num: Numerics, x: Vec, y: Vec, a: real, b: real)
    requires |x| == |y| && Solves(num.lstsq) && 0.0 <= b <= MAX_SLOPE
    ensures 0.0 <= LogLinear(num, x, y).line.beta <= MAX_SLOPE
    ensures LogLinear(num, x, y).sse <= Sse(x, y, a, b, |x|)
  {
    ClampedIsBest(x, y, num.lstsq(x, y), a, b);
  }

  // ---------------------------------------------------------------- the steps that count

  datatype History = History(cwi: Vec, oil: Vec, liq: Vec, mask: seq<bool>) {
    predicate Valid() {
      |cwi| == |oil| == |liq| == |mask|
    }

    /** f_o where liquid was produced; elsewhere not a number. */
    function OilCut(k: nat): Option<real>
      requires Valid() && k < |cwi|
    {
      if liq[k] > 0.0 then Some(oil[k] / liq[k]) else None
    }

    /** Masked, with an oil cut strictly between the limits and a cumulative volume; positive where no offset is fitted. */
    predicate Usable(k: nat, strict: bool)
      requires Valid() && k < |cwi|
    {
      && mask[k] && OilCut(k).Some? && 0.0001 < OilCut(k).value < 1.0 - 0.0001
      && cwi[k] >= 0.0 && (strict ==> cwi[k] > 0.0)
    }
  }

  function UsableSteps(h: History, strict: bool, n: nat): (s: seq<nat>)
    requires h.Valid() && n <= |h.cwi|
    ensures forall a :: 0 <= a < |s| ==> s[a] < n && h.Usable(s[a], strict)
  {
    if n == 0 then []
    else if h.Usable(n - 1, strict) then UsableSteps(h, strict, n - 1) + [n - 1]
    else UsableSteps(h, strict, n - 1)
  }

  function MeasuredSteps(h: History, n: nat): (s: seq<nat>)
    requires h.Valid() && n <= |h.cwi|
    ensures forall a :: 0 <= a < |s| ==> s[a] < n && h.mask[s[a]] && h.OilCut(s[a]).Some?
  {
    if n == 0 then []
    else if h.mask[n - 1] && h.OilCut(n - 1).Some? then MeasuredSteps(h, n - 1) + [n - 1]
    else MeasuredSteps(h, n - 1)
  }

  /** A step that counts: on, with liquid, an oil cut inside the limits, and a volume that is positive where it has to be. */
  ghost predicate CountsFor(h: History, strict: bool, k: nat) {
    && h.Valid() && k < |h.cwi| && h.mask[k] && h.liq[k] > 0.0
    && 0.0001 < h.oil[k] / h.liq[k] < 0.9999 && (if strict then h.cwi[k] > 0.0 else h.cwi[k] >= 0.0)
  }

  ghost predicate InOrder(s: seq<nat>) {
    forall a, b :: 0 <= a < b < |s| ==> s[a] < s[b]
  }

  /** The steps taken are the ones that count, in order. */
  lemma {:induction false} UsableStepsAre(h: History, strict: bool, n: nat)
    requires h.Valid() && n <= |h.cwi|
    ensures InOrder(UsableSteps(h, strict, n))
    ensures forall k: nat :: k in UsableSteps(h, strict, n) <==> k < n && CountsFor(h, strict, k)
  {
    if n > 0 {
      UsableStepsAre(h, strict, n - 1);
      assert h.Usable(n - 1, strict) <==> CountsFor(h, strict, n - 1);
    }
  }

  /** The steps a constant fit averages over: on, with liquid. */
  lemma {:induction false} MeasuredStepsAre(h: History, n: nat)
    requires h.Valid() && n <= |h.cwi|
    ensures InOrder(MeasuredSteps(h, n))
    ensures forall k: nat :: k in MeasuredSteps(h, n) <==> k < n && h.mask[k] && h.liq[k] > 0.0
  {
    if n > 0 {
      MeasuredStepsAre(h, n - 1);
    }
  }

  function OilCuts(h: History, steps: seq<nat>): (v: Vec)
    requires h.Valid() && forall a :: 0 <= a < |steps| ==> steps[a] < |h.cwi| && h.OilCut(steps[a]).Some?
    ensures |v| == |steps|
    ensures forall a :: 0 <= a < |steps| ==> v[a] == h.OilCut(steps[a]).value
  {
    seq(|steps|, a requires 0 <= a < |steps| => h.OilCut(steps[a]).value)
  }

  function Volumes(h: History, steps: seq<nat>): (v: Vec)
    requires h.Valid() && forall a :: 0 <= a < |steps| ==> steps[a] < |h.cwi|
    ensures |v| == |steps|
    ensures forall a :: 0 <= a < |steps| ==> v[a] == h.cwi[steps[a]]
  {
    seq(|steps|, a requires 0 <= a < |steps| => h.cwi[steps[a]])
  }

  function Largest(v: Vec, n: nat): (m: real)
    requires 0 < n <= |v|
    ensures forall k :: 0 <= k < n ==> v[k] <= m
  {
    if n == 1 then v[0] else Max(Largest(v, n - 1), v[n - 1])
  }

  // ---------------------------------------------------------------- the offset search

  /** An offset at which every logarithm exists. */
  predicate Admissible(cwi: Vec, offset: real) {
    forall k :: 0 <= k < |cwi| ==> offset + cwi[k] > 0.0
  }

  datatype PowerLaw = PowerLaw(alpha: real, beta: real, offset: real, r2: real)

  /** The fit is the one of its offset. */
  ghost predicate IsFitAt(fit: LogFit, num: Numerics, cwi: Vec, y: Vec, offset: real)
    requires |cwi| == |y|
  {
    Admissible(cwi, offset) && fit == LogLinear(num, Abscissae(num.ln, cwi, offset), y)
  }

  /** The error of the line fitted at an offset. */
  function ErrorAt(num: Numerics, cwi: Vec, y: Vec, offset: real): real
    requires |cwi| == |y|
  {
    LogLinear(num, Abscissae(num.ln, cwi, offset), y).sse
  }

  ghost predicate NoneBetter(num: Numerics, cwi: Vec, y: Vec, offsets: seq<real>, sse: real)
    requires |cwi| == |y|
  {
    forall k :: 0 <= k < |offsets| && Admissible(cwi, offsets[k]) ==> sse <= ErrorAt(num, cwi, y, offsets[k])
  }

  /** The earliest of the first n offsets that has the smallest error among the admissible ones. */
  ghost predicate IsFirstBest(num: Numerics, cwi: Vec, y: Vec, offsets: seq<real>, n: nat, m: nat)
    requires |cwi| == |y| && n <= |offsets|
  {
    && m < n && (forall k :: 0 <= k < |cwi| ==> offsets[m] + cwi[k] > 0.0)
    && forall k :: 0 <= k < n && Admissible(cwi, offsets[k]) ==>
         && ErrorAt(num, cwi, y, offsets[m]) <= ErrorAt(num, cwi, y, offsets[k])
         && (k < m ==> ErrorAt(num, cwi, y, offsets[m]) < ErrorAt(num, cwi, y, offsets[k]))
  }

  /**
   The offset loop and the refinement: the earliest best offset, or, when that is positive, the scalar minimiser's
   where it is no worse. Whatever the minimiser returns, no offset tried has a smaller error.
   */
  method SearchOffset(num: Numerics, cwi: Vec, y: Vec, offsets: seq<real>, refine: bool, refined: real)
    returns (offset: real, fit: LogFit, ghost m: nat)
    requires |cwi| == |y| && PositiveExp(num.exp)
    requires forall k :: 0 <= k < |cwi| ==> cwi[k] >= 0.0
    requires exists k :: 0 <= k < |offsets| && Admissible(cwi, offsets[k])
    ensures IsFitAt(fit, num, cwi, y, offset)
    ensures NoneBetter(num, cwi, y, offsets, fit.sse)
    ensures IsFirstBest(num, cwi, y, offsets, |offsets|, m)
    ensures offset ==
            if refine && offsets[m] > 0.0 && ErrorAt(num, cwi, y, num.exp(refined)) <= ErrorAt(num, cwi, y, offsets[m])
            then num.exp(refined) else offsets[m]
  {
    var best: Option<(real, LogFit)> := None;
    m := 0;
    for n := 0 to |offsets|
      invariant best.Some? ==>
        && IsFirstBest(num, cwi, y, offsets, n, m) && best.value.0 == offsets[m]
        && IsFitAt(best.value.1, num, cwi, y, best.value.0)
      invariant best.None? ==> forall k :: 0 <= k < n ==> !Admissible(cwi, offsets[k])
    {
      if Admissible(cwi, offsets[n]) {
        var f := LogLinear(num, Abscissae(num.ln, cwi, offsets[n]), y);
        if best.None? || f.sse < best.value.1.sse {
          best := Some((offsets[n], f));
          m := n;
        }
      }
    }
    offset, fit := best.value.0, best.value.1;
    if refine && offset > 0.0 {
      var c0 := num.exp(refined);
      var f := LogLinear(num, Abscissae(num.ln, cwi, c0), y);
      if f.sse <= fit.sse {
        offset, fit := c0, f;
      }
    }
  }

  /** What the grid of positive offsets is for a largest volume: the source takes 24 of them, log-spaced. */
  ghost predicate IsOffsetGrid(grid: real -> seq<real>) {
    forall m: real :: |grid(m)| > 0 && forall k :: 0 <= k < |grid(m)| ==> grid(m)[k] > 0.0
  }

  function Offsets(cwi: Vec, fitOffset: bool, grid: real -> seq<real>): seq<real>
    requires fitOffset ==> |cwi| > 0
  {
    if !fitOffset then [0.0]
    else
      var top := Largest(cwi, |cwi|);
      [0.0] + grid(if top == 0.0 then 1.0 else top)
  }

  /** Zero is always tried; the grid of positive offsets follows the largest volume, or one when that is zero. */
  lemma OffsetsAre(cwi: Vec, fitOffset: bool, grid: real -> seq<real>, top: real, c0: real)
    requires top in cwi && forall k :: 0 <= k < |cwi| ==> cwi[k] <= top
    ensures c0 in Offsets(cwi, fitOffset, grid) <==>
            c0 == 0.0 || (fitOffset && c0 in grid(if top == 0.0 then 1.0 else top))
  {
    LargestIsOne(cwi, |cwi|);
    assert Largest(cwi, |cwi|) == top;
  }

  lemma {:induction false} LargestIsOne(v: Vec, n: nat)
    requires 0 < n <= |v|
    ensures Largest(v, n) in v
  {
    if n > 1 {
      LargestIsOne(v, n - 1);
    }
  }

  const FEW := 3

  /** Fewer than three usable steps: a constant oil cut, the mean of the measured ones. */
  function Constant(h: History): PowerLaw
    requires h.Valid()
  {
    var steps := MeasuredSteps(h, |h.cwi|);
    var mean := if steps == [] then 0.5 else Mean(OilCuts(h, steps));
    var cut := Min(Max(mean, 0.001), 1.0 - 0.001);
    PowerLaw(1.0 / cut - 1.0, 0.0, 0.0, 0.0)
  }

  /** A constant fit reproduces the clipped mean oil cut. */
  lemma ConstantReproduces(h: History)
    requires h.Valid()
    ensures var steps := MeasuredSteps(h, |h.cwi|);
            var mean := if steps == [] then 0.5 else Mean(OilCuts(h, steps));
            && 1.0 + Constant(h).alpha != 0.0 && 1.0 / (1.0 + Constant(h).alpha) == Clip(mean, 0.001, 0.999)
            && Constant(h).beta == 0.0 && Constant(h).offset == 0.0 && Constant(h).r2 == 0.0
  {
    var steps := MeasuredSteps(h, |h.cwi|);
    var cut := Clip(if steps == [] then 0.5 else Mean(OilCuts(h, steps)), 0.001, 1.0 - 0.001);
    assert 1.0 + Constant(h).alpha == 1.0 / cut;
    InverseTwice(cut);
  }

  lemma InverseTwice(c: real)
    requires c > 0.0
    ensures 1.0 / c != 0.0 && 1.0 / (1.0 / c) == c
  {
    assert c * (1.0 / c) == 1.0;
  }

  /** ln(WOR) of every step that counts lies on one line over ln(c0 + CWI). */
  ghost predicate IsExact(ln: real -> real, h: History, strict: bool, c0: real, a: real, b: real) {
    forall k: nat :: CountsFor(h, strict, k) ==>
      h.oil[k] != 0.0 && c0 + h.cwi[k] > 0.0 && ln((h.liq[k] - h.oil[k]) / h.oil[k]) == LineAt(a, b, ln(c0 + h.cwi[k]))
  }

  lemma WaterOilRatio(oil: real, liq: real)
    requires liq > 0.0 && oil / liq > 0.0
    ensures oil > 0.0 && 1.0 / (oil / liq) - 1.0 == (liq - oil) / oil
  {
    assert oil == oil / liq * liq;
    assert 1.0 / (oil / liq) * (oil / liq) == 1.0;
    assert 1.0 / (oil / liq) == liq / oil;
    assert (liq - oil) / oil == liq / oil - oil / oil;
  }

  lemma {:induction false} ZeroError(x: Vec, y: Vec, a: real, b: real, n: nat)
    requires n <= |x| == |y| && forall k :: 0 <= k < |x| ==> y[k] == LineAt(a, b, x[k])
    ensures Sse(x, y, a, b, n) == 0.0
  {
    if n > 0 {
      ZeroError(x, y, a, b, n - 1);
      assert Residual(x, y, a, b, n - 1) == 0.0;
    }
  }

  lemma ExactEntry(ln: real -> real, h: History, strict: bool, c0: real, a: real, b: real, k: nat)
    requires IsExact(ln, h, strict, c0, a, b) && CountsFor(h, strict, k)
    ensures h.oil[k] / h.liq[k] > 0.0 && c0 + h.cwi[k] > 0.0
    ensures ln(1.0 / (h.oil[k] / h.liq[k]) - 1.0) == LineAt(a, b, ln(c0 + h.cwi[k]))
  {
    WaterOilRatio(h.oil[k], h.liq[k]);
  }

  lemma ExactEntries(ln: real -> real, h: History, strict: bool, c0: real, a: real, b: real, steps: seq<nat>, i: nat)
    requires h.Valid() && IsExact(ln, h, strict, c0, a, b) && steps == UsableSteps(h, strict, |h.cwi|) && i < |steps|
    ensures var cwi, y := Volumes(h, steps), LogWor(ln, OilCuts(h, steps));
            c0 + cwi[i] > 0.0 && y[i] == LineAt(a, b, Abscissae(ln, cwi, c0)[i])
  {
    UsableStepsAre(h, strict, |h.cwi|);
    assert steps[i] in steps;
    ExactEntry(ln, h, strict, c0, a, b, steps[i]);
  }

  /** Data that follow the law at an offset leave no error there. */
  lemma ExactDataFit(ln: real -> real, h: History, strict: bool, c0: real, a: real, b: real, cwi: Vec, y: Vec)
    requires h.Valid() && IsExact(ln, h, strict, c0, a, b)
    requires var steps := UsableSteps(h, strict, |h.cwi|);
             cwi == Volumes(h, steps) && y == LogWor(ln, OilCuts(h, steps))
    ensures Admissible(cwi, c0) && Sse(Abscissae(ln, cwi, c0), y, a, b, |y|) == 0.0
  {
    forall i | 0 <= i < |cwi|
      ensures c0 + cwi[i] > 0.0 && y[i] == LineAt(a, b, Abscissae(ln, cwi, c0)[i])
    {
      ExactEntries(ln, h, strict, c0, a, b, UsableSteps(h, strict, |h.cwi|), i);
    }
    ZeroError(Abscissae(ln, cwi, c0), y, a, b, |y|);
  }

  lemma {:induction false} SseNonNegative(x: Vec, y: Vec, a: real, b: real, n: nat)
    requires n <= |x| == |y|
    ensures Sse(x, y, a, b, n) >= 0.0
  {
    if n > 0 {
      SseNonNegative(x, y, a, b, n - 1);
      SquareNonNegative(Residual(x, y, a, b, n - 1), Square(Residual(x, y, a, b, n - 1)));
    }
  }

  lemma {:induction false} FlatError(x: Vec, y: Vec, m: real, n: nat)
    requires n <= |x| == |y|
    ensures Sse(x, y, m, 0.0, n) == Scatter(y, m, n)
  {
    if n > 0 {
      FlatError(x, y, m, n - 1);
      assert Residual(x, y, m, 0.0, n - 1) == y[n - 1] - m;
    }
  }

  /** An r2 from an error no larger than that of the flat line is between zero and one, and one exactly without error. */
  lemma R2Bounds(x: Vec, y: Vec, sse: real, r2: real)
    requires |x| == |y| && 0.0 <= sse <= Sse(x, y, Mean(y), 0.0, |y|) && r2 == 1.0 - sse / Total(y)
    ensures 0.0 <= r2 <= 1.0 && (r2 == 1.0 <==> sse == 0.0)
  {
    FlatError(x, y, Mean(y), |y|);
    var total := Scatter(y, Mean(y), |y|);
    SseNonNegative(x, y, Mean(y), 0.0, |y|);
    if total > 0.0 {
      QuotientInUnit(sse, total);
    }
  }

  lemma QuotientInUnit(a: real, b: real)
    requires 0.0 <= a <= b && b > 0.0
    ensures 0.0 <= a / b <= 1.0 && (a / b == 0.0 <==> a == 0.0)
  {
    assert a / b * b == a;
  }

  /** What the fit of enough steps is: the best line of the best offset, its r2, and no error for data that follow the law. */
  ghost predicate IsFit(
      fit: PowerLaw, line: Line, sse: real, num: Numerics, h: History, fitOffset: bool, strict: bool,
      grid: real -> seq<real>)
    requires h.Valid() && strict == !fitOffset && (fitOffset ==> |UsableSteps(h, false, |h.cwi|)| > 0)
  {
    var steps := UsableSteps(h, strict, |h.cwi|);
    var cwi, y := Volumes(h, steps), LogWor(num.ln, OilCuts(h, steps));
    && (forall k :: 0 <= k < |cwi| ==> fit.offset + cwi[k] > 0.0)
    && fit.alpha == num.exp(if line.lnAlpha > 700.0 then 700.0 else line.lnAlpha)
    && fit.beta == line.beta && 0.0 <= fit.beta <= 50.0 && fit.r2 == 1.0 - sse / Total(y)
    && 0.0 <= fit.r2 <= 1.0 && (fit.r2 == 1.0 <==> sse == 0.0)
    && (steps == [] ==> line == Line(0.0, 0.0) && fit.offset == 0.0 && fit.r2 == 1.0)
    && sse == Sse(Abscissae(num.ln, cwi, fit.offset), y, line.lnAlpha, line.beta, |y|)
    && (forall c0: real, a: real, b: real {:trigger Sse(Abscissae(num.ln, cwi, c0), y, a, b, |y|)} ::
          c0 in Offsets(cwi, fitOffset, grid) && Admissible(cwi, c0) && 0.0 <= b <= 50.0 ==>
          sse <= Sse(Abscissae(num.ln, cwi, c0), y, a, b, |y|))
    && forall c0: real, a: real, b: real {:trigger IsExact(num.ln, h, strict, c0, a, b)} ::
         c0 in Offsets(cwi, fitOffset, grid) && IsExact(num.ln, h, strict, c0, a, b) && 0.0 <= b <= 50.0 ==>
         sse == 0.0 && fit.r2 == 1.0
  }

  /**
   The fit, with the line and the squared error behind it. When no offset is fitted and no usable step has a positive
   volume, the line is fitted to nothing: its coefficients are zero and its r2 is one.
   */
  method FitPowerLaw(num: Numerics, h: History, fitOffset: bool, grid: real -> seq<real>, refined: real)
    returns (fit: PowerLaw, ghost line: Line, ghost sse: real)
    requires h.Valid() && Solves(num.lstsq) && PositiveExp(num.exp) && IsOffsetGrid(grid)
    ensures |UsableSteps(h, false, |h.cwi|)| < 3 ==> fit == Constant(h)
    ensures |UsableSteps(h, false, |h.cwi|)| >= 3 ==> IsFit(fit, line, sse, num, h, fitOffset, !fitOffset, grid)
  {
    line, sse := Line(0.0, 0.0), 0.0;
    if |UsableSteps(h, false, |h.cwi|)| < FEW {
      return Constant(h), line, sse;
    }
    var steps := UsableSteps(h, !fitOffset, |h.cwi|);
    var cwi, y := Volumes(h, steps), LogWor(num.ln, OilCuts(h, steps));
    var offsets := Offsets(cwi, fitOffset, grid);
    SomeAdmissible(cwi, fitOffset, grid);
    var offset, f, m := SearchOffset(num, cwi, y, offsets, fitOffset, refined);
    fit := PowerLaw(f.alpha, Max(f.line.beta, 0.0), offset, 1.0 - f.sse / f.ssTot);
    line, sse := f.line, f.sse;
    FitIs(fit, f, num, h, fitOffset, !fitOffset, grid, cwi, y);
  }

  lemma FitIs(
      fit: PowerLaw, f: LogFit, num: Numerics, h: History, fitOffset: bool, strict: bool, grid: real -> seq<real>,
      cwi: Vec, y: Vec)
    requires h.Valid() && Solves(num.lstsq) && strict == !fitOffset && (fitOffset ==> |UsableSteps(h, false, |h.cwi|)| > 0)
    requires var steps := UsableSteps(h, strict, |h.cwi|);
             cwi == Volumes(h, steps) && y == LogWor(num.ln, OilCuts(h, steps))
    requires IsFitAt(f, num, cwi, y, fit.offset) && (cwi == [] ==> fit.offset == 0.0)
    requires fit == PowerLaw(f.alpha, Max(f.line.beta, 0.0), fit.offset, 1.0 - f.sse / Total(y))
    requires NoneBetter(num, cwi, y, Offsets(cwi, fitOffset, grid), f.sse)
    ensures IsFit(fit, f.line, f.sse, num, h, fitOffset, strict, grid)
  {
    var offsets, x := Offsets(cwi, fitOffset, grid), Abscissae(num.ln, cwi, fit.offset);
    LogLinearIsBest(num, x, y, Mean(y), 0.0);
    SseNonNegative(x, y, f.line.lnAlpha, f.line.beta, |y|);
    R2Bounds(x, y, f.sse, fit.r2);
    forall c0: real, a: real, b: real {:trigger Sse(Abscissae(num.ln, cwi, c0), y, a, b, |y|)}
      | c0 in offsets && Admissible(cwi, c0) && 0.0 <= b <= 50.0
      ensures f.sse <= Sse(Abscissae(num.ln, cwi, c0), y, a, b, |y|)
    {
      var k :| 0 <= k < |offsets| && offsets[k] == c0;
      LogLinearIsBest(num, Abscissae(num.ln, cwi, c0), y, a, b);
    }
    forall c0: real, a: real, b: real {:trigger IsExact(num.ln, h, strict, c0, a, b)}
      | c0 in offsets && IsExact(num.ln, h, strict, c0, a, b) && 0.0 <= b <= 50.0
      ensures f.sse == 0.0
    {
      ExactDataFit(num.ln, h, strict, c0, a, b, cwi, y);
      assert f.sse <= Sse(Abscissae(num.ln, cwi, c0), y, a, b, |y|);
    }
  }

  lemma SomeAdmissible(cwi: Vec, fitOffset: bool, grid: real -> seq<real>)
    requires (fitOffset ==> |cwi| > 0) && IsOffsetGrid(grid)
    requires forall k :: 0 <= k < |cwi| ==> cwi[k] >= 0.0 && (!fitOffset ==> cwi[k] > 0.0)
    ensures exists k :: 0 <= k < |Offsets(cwi, fitOffset, grid)| && Admissible(cwi, Offsets(cwi, fitOffset, grid)[k])
  {
    var offsets := Offsets(cwi, fitOffset, grid);
    var k := if fitOffset then 1 else 0;
    assert |offsets| > k && (fitOffset ==> offsets[k] > 0.0);
    assert Admissible(cwi, offsets[k]);
  }
}
