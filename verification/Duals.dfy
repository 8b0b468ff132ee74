/**
 Dual numbers re + eps * E with E * E = 0. Running a program on dual numbers yields its exact
 directional derivative, so they serve as the reference definition the hand-written sensitivities
 are compared with.
 */
module Duals {
  import opened Common

  datatype Dual = Dual(re: real, eps: real) {
    function Add(y: Dual): Dual {
      Dual(re + y.re, eps + y.eps)
    }

    function Sub(y: Dual): Dual {
      Dual(re - y.re, eps - y.eps)
    }

    function Mul(y: Dual): Dual {
      Dual(re * y.re, re * y.eps + eps * y.re)
    }

    /** Quotient rule, (u / v)' = (u' - (u / v) v') / v. */
    function Div(y: Dual): Dual
      requires y.re != 0.0
    {
      Dual(re / y.re, (eps - re / y.re * y.eps) / y.re)
    }

    /** The chain rule for a function that is its own derivative. */
    function Exp(exp: Exp): Dual {
      Dual(exp[re], exp[re] * eps)
    }
  }

  function Lift(x: real): Dual {
    Dual(x, 0.0)
  }

  /** The parameter vector with the unit perturbation on entry k. */
  function Seed(theta: Vec, k: nat): (s: seq<Dual>)
    ensures |s| == |theta|
    ensures forall i :: 0 <= i < |s| ==> s[i] == Dual(theta[i], if i == k then 1.0 else 0.0)
  {
    seq(|theta|, i requires 0 <= i < |theta| => Dual(theta[i], if i == k then 1.0 else 0.0))
  }

  /** Inner product of perturbed parameters with fixed data. */
  function DualDot(f: seq<Dual>, v: Vec, n: nat): Dual
    requires n <= |f| && n <= |v|
  {
    if n == 0 then Lift(0.0) else DualDot(f, v, n - 1).Add(f[n - 1].Mul(Lift(v[n - 1])))
  }

  lemma {:induction false} DualDotParts(f: seq<Dual>, theta: Vec, k: nat, v: Vec, n: nat)
    requires n <= |f| && n <= |v| && n <= |theta|
    requires forall i :: 0 <= i < n ==> f[i] == Dual(theta[i], if i == k then 1.0 else 0.0)
    ensures DualDot(f, v, n).re == Dot(theta, v, n)
    ensures DualDot(f, v, n).eps == if k < n then v[k] else 0.0
  {
    if n > 0 {
      DualDotParts(f, theta, k, v, n - 1);
    }
  }

  // ---------------------------------------------------------------- why they are derivatives

  /** Value at re + h eps, to first order. */
  function Moved(x: Dual, h: real): real {
    x.re + h * x.eps
  }

  /** Sums and differences move exactly; a product up to the square of h. */
  lemma MovesWith(x: Dual, y: Dual, h: real)
    ensures Moved(x.Add(y), h) == Moved(x, h) + Moved(y, h)
    ensures Moved(x.Sub(y), h) == Moved(x, h) - Moved(y, h)
    ensures Moved(x.Mul(y), h) + Times(Square(h), x.eps * y.eps) == Moved(x, h) * Moved(y, h)
  {
    assert (x.re + h * x.eps) * (y.re + h * y.eps) ==
           x.re * y.re + h * (x.re * y.eps + x.eps * y.re) + h * h * (x.eps * y.eps);
  }

  /** Division undoes multiplication, in both parts. */
  lemma QuotientUndone(x: Dual, y: Dual)
    requires y.re != 0.0
    ensures x.Div(y).Mul(y) == x
  {
    var q := x.re / y.re;
    var s := (x.eps - q * y.eps) / y.re;
    assert q * y.re == x.re;
    assert s * y.re == x.eps - q * y.eps;
  }

  /** Where the exponential turns sums into products, it does so over dual numbers. */
  lemma ExpOfSum(exp: Exp, x: Dual, y: Dual)
    requires exp[x.re + y.re] == exp[x.re] * exp[y.re]
    ensures x.Add(y).Exp(exp) == x.Exp(exp).Mul(y.Exp(exp))
  {
    var a, b := exp[x.re], exp[y.re];
    assert a * b * (x.eps + y.eps) == a * (b * y.eps) + a * x.eps * b;
  }

  /** A constant has none but its value, and its exponential is a constant. */
  lemma ExpOfConstant(exp: Exp, x: real)
    ensures Lift(x).Exp(exp) == Lift(exp[x])
  {
  }
}
