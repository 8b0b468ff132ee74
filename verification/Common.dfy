/** Shared vocabulary: optional values, and finite real vectors with the sums the models are made of. */
module Common {

  datatype Option<+T> = None | Some(value: T)

  type Vec = seq<real>
  type Matrix = seq<seq<real>>

  /** The exponential as a total map: the models use nothing of it but its values. */
  type Exp = m: imap<real, real> | forall z: real :: z in m ghost witness imap z: real :: 0.0

  ghost predicate Shape(a: Matrix, rows: nat, cols: nat) {
    |a| == rows && forall r :: 0 <= r < rows ==> |a[r]| == cols
  }

  function Max(a: real, b: real): real {
    if a >= b then a else b
  }

  function Min(a: real, b: real): real {
    if a <= b then a else b
  }

  function Abs(a: real): real {
    if a >= 0.0 then a else -a
  }

  /** numpy.clip for one value: the upper bound wins when the bounds cross. */
  function Clip(a: real, lo: real, hi: real): real {
    Min(Max(a, lo), hi)
  }

  function Times(a: real, b: real): real {
    a * b
  }

  function Square(x: real): real {
    x * x
  }

  /** Sum of the first n entries. */
  function Sum(v: Vec, n: nat): real
    requires n <= |v|
  {
    if n == 0 then 0.0 else Sum(v, n - 1) + v[n - 1]
  }

  /** Inner product of the first n entries. */
  function Dot(a: Vec, b: Vec, n: nat): real
    requires n <= |a| && n <= |b|
  {
    if n == 0 then 0.0 else Dot(a, b, n - 1) + a[n - 1] * b[n - 1]
  }

  lemma MulPositive(a: real, b: real, product: real)
    requires a > 0.0 && b > 0.0 && product == a * b
    ensures product > 0.0
  {
  }

  lemma MulNonNegative(a: real, b: real, product: real)
    requires a >= 0.0 && b >= 0.0 && product == a * b
    ensures product >= 0.0
  {
  }

  lemma SquareNonNegative(a: real, square: real)
    requires square == a * a
    ensures square >= 0.0
  {
    if a >= 0.0 {
      MulNonNegative(a, a, square);
    } else {
      MulNonNegative(-a, -a, square);
    }
  }

  lemma SquarePositive(a: real, square: real)
    requires a != 0.0 && square == a * a
    ensures square > 0.0
  {
    if a > 0.0 {
      MulPositive(a, a, square);
    } else {
      MulPositive(-a, -a, square);
    }
  }

  function Column(a: Matrix, k: nat): (c: Vec)
    requires forall r :: 0 <= r < |a| ==> k < |a[r]|
    ensures |c| == |a|
  {
    seq(|a|, r requires 0 <= r < |a| => a[r][k])
  }

  lemma {:induction false} SumPrefix(v: Vec, w: Vec, n: nat)
    requires n <= |v| && n <= |w|
    requires forall i :: 0 <= i < n ==> v[i] == w[i]
    ensures Sum(v, n) == Sum(w, n)
  {
    if n > 0 {
      SumPrefix(v, w, n - 1);
    }
  }

  lemma {:induction false} SumNonNegative(v: Vec, n: nat)
    requires n <= |v| && forall i :: 0 <= i < n ==> v[i] >= 0.0
    ensures Sum(v, n) >= 0.0
  {
    if n > 0 {
      SumNonNegative(v, n - 1);
    }
  }

  lemma {:induction false} SumMonotone(v: Vec, w: Vec, n: nat)
    requires n <= |v| && n <= |w|
    requires forall i :: 0 <= i < n ==> v[i] <= w[i]
    ensures Sum(v, n) <= Sum(w, n)
  {
    if n > 0 {
      SumMonotone(v, w, n - 1);
    }
  }

  /** Sums are linear: w = u + s * v entry by entry. */
  lemma {:induction false} SumLinear(w: Vec, u: Vec, v: Vec, s: real, n: nat)
    requires n <= |w| && n <= |u| && n <= |v|
    requires forall i :: 0 <= i < n ==> w[i] == u[i] + s * v[i]
    ensures Sum(w, n) == Sum(u, n) + s * Sum(v, n)
  {
    if n > 0 {
      SumLinear(w, u, v, s, n - 1);
    }
  }

  /** Changing one entry changes the sum by the difference. */
  lemma {:induction false} SumUpdate(v: Vec, k: nat, x: real, n: nat)
    requires k < |v| && n <= |v|
    ensures Sum(v[k := x], n) == if k < n then Sum(v, n) + x - v[k] else Sum(v, n)
  {
    if n > 0 {
      SumUpdate(v, k, x, n - 1);
    }
  }

  lemma {:induction false} DotPrefix(a: Vec, b: Vec, c: Vec, d: Vec, n: nat)
    requires n <= |a| && n <= |b| && n <= |c| && n <= |d|
    requires forall i :: 0 <= i < n ==> a[i] == c[i] && b[i] == d[i]
    ensures Dot(a, b, n) == Dot(c, d, n)
  {
    if n > 0 {
      DotPrefix(a, b, c, d, n - 1);
    }
  }

  lemma {:induction false} DotSymmetric(a: Vec, b: Vec, n: nat)
    requires n <= |a| && n <= |b|
    ensures Dot(a, b, n) == Dot(b, a, n)
  {
    if n > 0 {
      DotSymmetric(a, b, n - 1);
    }
  }

  lemma DistributeOne(a: real, b: real, c: real, s: real, d: real)
    requires d == b + s * c
    ensures a * d == a * b + s * (a * c)
  {
  }

  lemma {:induction false} DotAddScaled(a: Vec, d: Vec, b: Vec, c: Vec, s: real, n: nat)
    requires n <= |a| && n <= |b| && n <= |c| && n <= |d|
    requires forall i :: 0 <= i < n ==> d[i] == b[i] + s * c[i]
    ensures Dot(a, d, n) == Dot(a, b, n) + s * Dot(a, c, n)
  {
    if n > 0 {
      DotAddScaled(a, d, b, c, s, n - 1);
      DistributeOne(a[n - 1], b[n - 1], c[n - 1], s, d[n - 1]);
    }
  }

  lemma {:induction false} DotZero(a: Vec, z: Vec, n: nat)
    requires n <= |a| && n <= |z| && forall i :: 0 <= i < n ==> z[i] == 0.0
    ensures Dot(a, z, n) == 0.0
  {
    if n > 0 {
      DotZero(a, z, n - 1);
    }
  }

  lemma {:induction false} DotNonNegative(a: Vec, b: Vec, n: nat)
    requires n <= |a| && n <= |b|
    requires forall i :: 0 <= i < n ==> a[i] >= 0.0 && b[i] >= 0.0
    ensures Dot(a, b, n) >= 0.0
  {
    if n > 0 {
      DotNonNegative(a, b, n - 1);
    }
  }

  lemma {:induction false} DotMonotone(a: Vec, b: Vec, c: Vec, n: nat)
    requires n <= |a| && n <= |b| && n <= |c|
    requires forall i :: 0 <= i < n ==> a[i] >= 0.0 && b[i] <= c[i]
    ensures Dot(a, b, n) <= Dot(a, c, n)
  {
    if n > 0 {
      DotMonotone(a, b, c, n - 1);
      assert a[n - 1] * b[n - 1] <= a[n - 1] * c[n - 1];
    }
  }
}
