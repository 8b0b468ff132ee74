/**
 The objective of one CRMP producer as a function of its parameters (waterflood_app/models/solver.py,
 _objective): the gradient it reports is exact, and with the time constants fixed the sign conditions of
 the bounded search hold at a point if and only if no point of the box is better.
 */
module GlobalMinimum {
  import opened Common
  import opened Crm
  import opened CrmForward
  import opened Objective
  import opened LinearForm

  function ObjectiveAt(exp: Exp, theta: Vec, d: ProducerData, tied: bool, lam: real, lamD: real): real
    requires d.Valid() && GoodTheta(theta, d, tied)
  {
    Value(Rates(exp, theta, d, tied), theta, d, lam, lamD)
  }

  function GradientAt(exp: Exp, theta: Vec, d: ProducerData, tied: bool, lam: real, lamD: real): (g: Vec)
    requires d.Valid() && GoodTheta(theta, d, tied)
    ensures |g| == |theta|
  {
    Gradient(SlopeMatrix(exp, theta, d, tied), Rates(exp, theta, d, tied), theta, d, lam, lamD)
  }

  /** The objective and its gradient, assembled from the forward model's own outputs. */
  method EvaluateObjective(exp: Exp, theta: Vec, d: ProducerData, tied: bool, lam: real, lamD: real)
    returns (val: real, grad: Vec)
    requires d.Valid() && GoodTheta(theta, d, tied)
    ensures val == ObjectiveAt(exp, theta, d, tied, lam, lamD)
    ensures grad == GradientAt(exp, theta, d, tied, lam, lamD)
  {
    var qhat, jac := CrmpForward(exp, theta, d, true, tied);
    assert qhat == Rates(exp, theta, d, tied) by {
      forall n | 0 <= n < d.Steps()
        ensures qhat[n] == Rates(exp, theta, d, tied)[n]
      {
        assert qhat[n] == Rate(exp, RealParams(theta, d, tied), d, n);
      }
    }
    assert jac.value == SlopeMatrix(exp, theta, d, tied) by {
      forall n | 0 <= n < d.Steps()
        ensures jac.value[n] == SlopeMatrix(exp, theta, d, tied)[n]
      {
        SameRow(exp, theta, d, tied, jac.value[n], n);
      }
    }
    val := Value(qhat, theta, d, lam, lamD);
    grad := Gradient(jac.value, qhat, theta, d, lam, lamD);
  }

  lemma SameRow(exp: Exp, theta: Vec, d: ProducerData, tied: bool, row: Vec, n: nat)
    requires d.Valid() && GoodTheta(theta, d, tied) && n < d.Steps() && IsJacobianRow(row, exp, theta, d, tied, n)
    ensures row == SlopeMatrix(exp, theta, d, tied)[n]
  {
    forall k | 0 <= k < |theta|
      ensures row[k] == SlopeMatrix(exp, theta, d, tied)[n][k]
    {
      assert row[k] == Slope(exp, theta, d, tied, n, k);
    }
  }

  lemma MovesAlongJacobian(exp: Exp, theta: Vec, theta': Vec, d: ProducerData, tied: bool)
    requires d.Valid() && GoodTheta(theta, d, tied) && GoodTheta(theta', d, tied)
    requires SameTimeConstants(theta, theta', d, tied)
    ensures MovesAlong(Rates(exp, theta, d, tied), Rates(exp, theta', d, tied), SlopeMatrix(exp, theta, d, tied),
                       Move(theta, theta'), d)
  {
    var jac := SlopeMatrix(exp, theta, d, tied);
    forall n | 0 <= n < d.Steps()
      ensures Rates(exp, theta', d, tied)[n] == Rates(exp, theta, d, tied)[n] + Dot(jac[n], Move(theta, theta'), |theta|)
    {
      assert IsJacobianRow(jac[n], exp, theta, d, tied, n);
      RateMoves(exp, theta, theta', d, tied, jac[n], n);
    }
  }

  /** val(theta + delta) = val(theta) + grad . delta + (1/2) || w * (jac delta) ||^2 for fixed time constants. */
  lemma ObjectiveExpansion(exp: Exp, theta: Vec, theta': Vec, d: ProducerData, tied: bool, lam: real, lamD: real)
    requires d.Valid() && GoodTheta(theta, d, tied) && GoodTheta(theta', d, tied)
    requires SameTimeConstants(theta, theta', d, tied)
    ensures ObjectiveAt(exp, theta', d, tied, lam, lamD) ==
            ObjectiveAt(exp, theta, d, tied, lam, lamD)
            + Dot(Move(theta, theta'), GradientAt(exp, theta, d, tied, lam, lamD), |theta|)
            + 0.5 * Curvature(SlopeMatrix(exp, theta, d, tied), Move(theta, theta'), d, Rows(d))
  {
    MovesAlongJacobian(exp, theta, theta', d, tied);
    ExactExpansion(Rates(exp, theta, d, tied), Rates(exp, theta', d, tied), SlopeMatrix(exp, theta, d, tied),
                   theta, theta', d, lam, lamD);
  }

  // ---------------------------------------------------------------- one coordinate at a time

  /** The vector with the single entry s at k. */
  function Along(len: nat, k: nat, s: real): (v: Vec)
    requires k < len
    ensures |v| == len && forall i :: 0 <= i < len ==> v[i] == if i == k then s else 0.0
  {
    seq(len, i requires 0 <= i < len => if i == k then s else 0.0)
  }

  lemma {:induction false} DotAlong(a: Vec, k: nat, s: real, len: nat, n: nat)
    requires k < len && |a| == len && n <= len
    ensures Dot(a, Along(len, k, s), n) == if k < n then Times(a[k], s) else 0.0
  {
    if n > 0 {
      DotAlong(a, k, s, len, n - 1);
    }
  }

  /** || w * jac[:, k] ||^2 */
  function ColumnCurvature(jac: Matrix, d: ProducerData, len: nat, k: nat, n: nat): real
    requires d.Valid() && n <= d.Steps() && Shape(jac, d.Steps(), len) && k < len
  {
    if n == 0 then 0.0 else ColumnCurvature(jac, d, len, k, n - 1) + Square(Times(d.w[n - 1], jac[n - 1][k]))
  }

  lemma ScaledSquare(w: real, a: real, s: real, as': real)
    requires as' == Times(a, s)
    ensures Square(Times(w, as')) == Times(Square(s), Square(Times(w, a)))
  {
  }

  lemma {:induction false} CurvatureAlong(jac: Matrix, d: ProducerData, len: nat, k: nat, s: real, n: nat)
    requires d.Valid() && n <= d.Steps() && Shape(jac, d.Steps(), len) && k < len
    ensures Curvature(jac, Along(len, k, s), d, n) == Times(Square(s), ColumnCurvature(jac, d, len, k, n))
    ensures ColumnCurvature(jac, d, len, k, n) >= 0.0
  {
    if n > 0 {
      CurvatureAlong(jac, d, len, k, s, n - 1);
      DotAlong(jac[n - 1], k, s, len, len);
      ScaledSquare(d.w[n - 1], jac[n - 1][k], s, Dot(jac[n - 1], Along(len, k, s), len));
      var column := Times(d.w[n - 1], jac[n - 1][k]);
      SquareNonNegative(column, Square(column));
      CurvatureAdd(Square(s), ColumnCurvature(jac, d, len, k, n - 1), Square(column));
    }
  }

  lemma CurvatureAdd(q: real, a: real, b: real)
    ensures Times(q, a + b) == Times(q, a) + Times(q, b)
  {
  }

  /** A step short enough that the slope wins over the curvature. */
  lemma DescentStep(g: real, c: real, room: real) returns (t: real)
    requires g < 0.0 && c >= 0.0 && room > 0.0
    ensures 0.0 < t <= room
    ensures Times(g, t) + 0.5 * Times(Square(t), c) < 0.0
  {
    var q := -g / (c + 1.0);
    assert q > 0.0;
    assert q * (c + 1.0) == -g;
    t := Min(room, q);
    DescentBound(g, c, q, t);
  }

  lemma DescentBound(g: real, c: real, q: real, t: real)
    requires g < 0.0 && c >= 0.0 && 0.0 < t <= q && q * (c + 1.0) == -g
    ensures Times(g, t) + 0.5 * Times(Square(t), c) < 0.0
  {
    MulNonNegative(q - t, c, (q - t) * c);
    var slack := -g - t * c;
    assert slack > 0.0;
    MulPositive(t, -g + slack, t * (-g + slack));
    assert t * (-g + slack) == -2.0 * (t * g) - t * (t * c);
    assert t * (t * c) == Square(t) * c;
  }

  // ---------------------------------------------------------------- necessity, for any quadratic

  ghost predicate IsQuadraticAt(F: Vec -> real, theta: Vec, g: real, c: real, k: nat, x: real)
    requires k < |theta|
  {
    F(theta[k := x]) == F(theta) + Times(g, x - theta[k]) + 0.5 * Times(Square(x - theta[k]), c)
  }

  /** F is a quadratic along every free coordinate, with slope g and curvature c at theta. */
  ghost predicate IsQuadratic(F: Vec -> real, theta: Vec, g: Vec, c: Vec, fixed: set<nat>) {
    && |g| == |c| == |theta|
    && forall k: nat, x {:trigger IsQuadraticAt(F, theta, g[k], c[k], k, x)} :: k < |theta| && k !in fixed ==>
         IsQuadraticAt(F, theta, g[k], c[k], k, x)
  }

  ghost predicate BeatsCoordinateMoves(F: Vec -> real, theta: Vec, lo: Vec, hi: Vec, fixed: set<nat>)
    requires |lo| == |hi| == |theta|
  {
    forall k, x {:trigger theta[k := x]} :: 0 <= k < |theta| && k !in fixed && lo[k] <= x <= hi[k] ==>
      F(theta) <= F(theta[k := x])
  }

  lemma NoCoordinatePays(F: Vec -> real, theta: Vec, g: Vec, c: Vec, lo: Vec, hi: Vec, fixed: set<nat>, k: nat, x: real)
    requires IsQuadratic(F, theta, g, c, fixed) && |lo| == |hi| == |theta|
    requires BeatsCoordinateMoves(F, theta, lo, hi, fixed)
    requires k < |theta| && k !in fixed && lo[k] <= x <= hi[k]
    ensures Times(g[k], x - theta[k]) + 0.5 * Times(Square(x - theta[k]), c[k]) >= 0.0
  {
    assert IsQuadraticAt(F, theta, g[k], c[k], k, x);
    assert F(theta) <= F(theta[k := x]);
  }

  lemma NecessaryForQuadratic(F: Vec -> real, theta: Vec, g: Vec, c: Vec, lo: Vec, hi: Vec, fixed: set<nat>)
    requires IsQuadratic(F, theta, g, c, fixed) && InBox(theta, lo, hi)
    requires forall k :: 0 <= k < |c| ==> c[k] >= 0.0
    requires BeatsCoordinateMoves(F, theta, lo, hi, fixed)
    ensures SignConditions(theta, g, lo, hi, fixed)
  {
    forall k | 0 <= k < |theta| && k !in fixed
      ensures theta[k] < hi[k] ==> g[k] >= 0.0
      ensures theta[k] > lo[k] ==> g[k] <= 0.0
    {
      if theta[k] < hi[k] && g[k] < 0.0 {
        var t := DescentStep(g[k], c[k], hi[k] - theta[k]);
        NoCoordinatePays(F, theta, g, c, lo, hi, fixed, k, theta[k] + t);
      }
      if theta[k] > lo[k] && g[k] > 0.0 {
        var t := DescentStep(-g[k], c[k], theta[k] - lo[k]);
        SignFlip(g[k], t);
        NoCoordinatePays(F, theta, g, c, lo, hi, fixed, k, theta[k] - t);
      }
    }
  }

  lemma SignFlip(g: real, t: real)
    ensures Times(g, -t) == Times(-g, t) && Square(-t) == Square(t)
  {
  }

  // ---------------------------------------------------------------- the characterisation

  /** No point of the box with the same time constants has a smaller objective. */
  ghost predicate IsBoxMinimum(
      exp: Exp, theta: Vec, d: ProducerData, tied: bool, lam: real, lamD: real, lo: Vec, hi: Vec)
    requires d.Valid() && GoodTheta(theta, d, tied)
  {
    forall theta' {:trigger InBox(theta', lo, hi)} ::
      InBox(theta', lo, hi) && SameTimeConstants(theta, theta', d, tied) && GoodTheta(theta', d, tied) ==>
        ObjectiveAt(exp, theta, d, tied, lam, lamD) <= ObjectiveAt(exp, theta', d, tied, lam, lamD)
  }

  lemma SufficientForMinimum(
      exp: Exp, theta: Vec, d: ProducerData, tied: bool, lam: real, lamD: real, lo: Vec, hi: Vec)
    requires d.Valid() && GoodTheta(theta, d, tied) && InBox(theta, lo, hi)
    requires SignConditions(theta, GradientAt(exp, theta, d, tied, lam, lamD), lo, hi, TimeConstants(d, tied))
    ensures IsBoxMinimum(exp, theta, d, tied, lam, lamD, lo, hi)
  {
    forall theta' | InBox(theta', lo, hi) && SameTimeConstants(theta, theta', d, tied) && GoodTheta(theta', d, tied)
      ensures ObjectiveAt(exp, theta, d, tied, lam, lamD) <= ObjectiveAt(exp, theta', d, tied, lam, lamD)
    {
      MovesAlongJacobian(exp, theta, theta', d, tied);
      SignConditionsSuffice(Rates(exp, theta, d, tied), Rates(exp, theta', d, tied), SlopeMatrix(exp, theta, d, tied),
                            theta, theta', d, lam, lamD, lo, hi, TimeConstants(d, tied));
    }
  }

  /** Moving one free coordinate changes the objective by slope and curvature of that coordinate alone. */
  lemma CoordinateMove(
      exp: Exp, theta: Vec, d: ProducerData, tied: bool, lam: real, lamD: real, k: nat, x: real)
    requires d.Valid() && GoodTheta(theta, d, tied) && k < |theta| && k !in TimeConstants(d, tied)
    ensures GoodTheta(theta[k := x], d, tied) && SameTimeConstants(theta, theta[k := x], d, tied)
    ensures ObjectiveAt(exp, theta[k := x], d, tied, lam, lamD) ==
            ObjectiveAt(exp, theta, d, tied, lam, lamD)
            + Times(GradientAt(exp, theta, d, tied, lam, lamD)[k], x - theta[k])
            + 0.5 * Times(Square(x - theta[k]), CurvatureVector(exp, theta, d, tied)[k])
    ensures CurvatureVector(exp, theta, d, tied)[k] >= 0.0
  {
    var theta' := theta[k := x];
    var s := x - theta[k];
    assert d.ni in TimeConstants(d, tied) && (!tied ==> d.ni + 2 in TimeConstants(d, tied));
    assert Move(theta, theta') == Along(|theta|, k, s);
    ObjectiveExpansion(exp, theta, theta', d, tied, lam, lamD);
    var grad := GradientAt(exp, theta, d, tied, lam, lamD);
    DotSymmetric(Along(|theta|, k, s), grad, |theta|);
    DotAlong(grad, k, s, |theta|, |theta|);
    CurvatureAlong(SlopeMatrix(exp, theta, d, tied), d, |theta|, k, s, Rows(d));
  }

  function CurvatureVector(exp: Exp, theta: Vec, d: ProducerData, tied: bool): (c: Vec)
    requires d.Valid() && GoodTheta(theta, d, tied)
    ensures |c| == |theta|
  {
    var jac := SlopeMatrix(exp, theta, d, tied);
    seq(|theta|, k requires 0 <= k < |theta| => ColumnCurvature(jac, d, |theta|, k, Rows(d)))
  }

  lemma StaysInBox(theta: Vec, lo: Vec, hi: Vec, k: nat, x: real)
    requires InBox(theta, lo, hi) && k < |theta| && lo[k] <= x <= hi[k]
    ensures InBox(theta[k := x], lo, hi)
  {
  }

  lemma NecessaryForMinimum(
      exp: Exp, theta: Vec, d: ProducerData, tied: bool, lam: real, lamD: real, lo: Vec, hi: Vec)
    requires d.Valid() && GoodTheta(theta, d, tied) && InBox(theta, lo, hi)
    requires IsBoxMinimum(exp, theta, d, tied, lam, lamD, lo, hi)
    ensures SignConditions(theta, GradientAt(exp, theta, d, tied, lam, lamD), lo, hi, TimeConstants(d, tied))
  {
    ghost var F := (th: Vec) => if GoodTheta(th, d, tied) then ObjectiveAt(exp, th, d, tied, lam, lamD) else 0.0;
    var g, c := GradientAt(exp, theta, d, tied, lam, lamD), CurvatureVector(exp, theta, d, tied);
    forall k: nat, x {:trigger IsQuadraticAt(F, theta, g[k], c[k], k, x)} | k < |theta| && k !in TimeConstants(d, tied)
      ensures IsQuadraticAt(F, theta, g[k], c[k], k, x)
    {
      CoordinateMove(exp, theta, d, tied, lam, lamD, k, x);
    }
    forall k: nat, x {:trigger theta[k := x]} | k < |theta| && k !in TimeConstants(d, tied) && lo[k] <= x <= hi[k]
      ensures F(theta) <= F(theta[k := x])
    {
      CoordinateMove(exp, theta, d, tied, lam, lamD, k, x);
      StaysInBox(theta, lo, hi, k, x);
    }
    CurvatureIsNonNegative(exp, theta, d, tied);
    NecessaryForQuadratic(F, theta, g, c, lo, hi, TimeConstants(d, tied));
  }

  lemma CurvatureIsNonNegative(exp: Exp, theta: Vec, d: ProducerData, tied: bool)
    requires d.Valid() && GoodTheta(theta, d, tied)
    ensures forall k :: 0 <= k < |theta| ==> CurvatureVector(exp, theta, d, tied)[k] >= 0.0
  {
    forall k | 0 <= k < |theta|
      ensures CurvatureVector(exp, theta, d, tied)[k] >= 0.0
    {
      CurvatureAlong(SlopeMatrix(exp, theta, d, tied), d, |theta|, k, 0.0, Rows(d));
    }
  }

  /** Meeting the sign conditions is the same as being a global minimum of the box at these time constants. */
  lemma SignConditionsIffMinimum(
      exp: Exp, theta: Vec, d: ProducerData, tied: bool, lam: real, lamD: real, lo: Vec, hi: Vec)
    requires d.Valid() && GoodTheta(theta, d, tied) && InBox(theta, lo, hi)
    ensures SignConditions(theta, GradientAt(exp, theta, d, tied, lam, lamD), lo, hi, TimeConstants(d, tied))
            <==> IsBoxMinimum(exp, theta, d, tied, lam, lamD, lo, hi)
  {
    if SignConditions(theta, GradientAt(exp, theta, d, tied, lam, lamD), lo, hi, TimeConstants(d, tied)) {
      SufficientForMinimum(exp, theta, d, tied, lam, lamD, lo, hi);
    }
    if IsBoxMinimum(exp, theta, d, tied, lam, lamD, lo, hi) {
      NecessaryForMinimum(exp, theta, d, tied, lam, lamD, lo, hi);
    }
  }
}
