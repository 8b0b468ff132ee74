/**
 Shut-in redistribution (waterflood_app/models/solver.py): a closed producer's share of each injector
 goes to the open producers, capped at a multiple of their normal share; and the physical bounds of the
 recursion it drives.
 */
module Redistribution {
  import opened Common
  import opened Crm

  type Mask = seq<bool>

  /** Below this allocation an injector counts as having no open producer. */
  const NO_OPEN_PRODUCER := 0.000000000001

  function Indicator(mask: Mask): (v: Vec)
    ensures |v| == |mask|
  {
    seq(|mask|, k requires 0 <= k < |mask| => if mask[k] then 1.0 else 0.0)
  }

  /** One injector's allocation to the open producers. */
  function OpenSum(f: Vec, mask: Mask): real
    requires |f| == |mask|
  {
    Dot(Indicator(mask), f, |f|)
  }

  /** The multiplier on one injector's rate while exactly the masked producers are open. */
  function Multiplier(f: Vec, mask: Mask, cap: real): real
    requires |f| == |mask|
  {
    var open := OpenSum(f, mask);
    var g := if open > NO_OPEN_PRODUCER then Sum(f, |f|) / Max(open, NO_OPEN_PRODUCER) else 1.0;
    Min(g, Max(1.0, cap))
  }

  /** (M, Ni) multipliers for an allocation (Ni, Np) and an open mask (M, Np). */
  function ShutInRedistribution(f: Matrix, openMask: seq<Mask>, cap: real): (g: Matrix)
    requires forall i, n :: 0 <= i < |f| && 0 <= n < |openMask| ==> |f[i]| == |openMask[n]|
    ensures Shape(g, |openMask|, |f|)
    ensures forall n, i :: 0 <= n < |openMask| && 0 <= i < |f| ==> g[n][i] == Multiplier(f[i], openMask[n], cap)
  {
    seq(|openMask|, n requires 0 <= n < |openMask| =>
      seq(|f|, i requires 0 <= i < |f| => Multiplier(f[i], openMask[n], cap)))
  }

  ghost predicate NonNegative(v: Vec) {
    forall k :: 0 <= k < |v| ==> v[k] >= 0.0
  }

  // ---------------------------------------------------------------- the multiplier

  lemma {:induction false} OpenSumAtMost(f: Vec, mask: Mask, n: nat)
    requires NonNegative(f) && |f| == |mask| && n <= |f|
    ensures 0.0 <= Dot(Indicator(mask), f, n) <= Sum(f, n)
    ensures (forall k :: 0 <= k < n ==> mask[k]) ==> Dot(Indicator(mask), f, n) == Sum(f, n)
  {
    if n > 0 {
      OpenSumAtMost(f, mask, n - 1);
    }
  }

  lemma QuotientAtLeastOne(a: real, b: real)
    requires a >= b > 0.0
    ensures a / b >= 1.0
    ensures a == b ==> a / b == 1.0
  {
  }

  /** For non-negative allocations the multiplier lies in [1, max(1, cap)]. */
  lemma MultiplierBounds(f: Vec, mask: Mask, cap: real)
    requires NonNegative(f) && |f| == |mask|
    ensures 1.0 <= Multiplier(f, mask, cap) <= Max(1.0, cap)
  {
    OpenSumAtMost(f, mask, |f|);
    var open := OpenSum(f, mask);
    if open > NO_OPEN_PRODUCER {
      QuotientAtLeastOne(Sum(f, |f|), open);
    }
  }

  /** Nothing is redistributed while every producer is open. */
  lemma AllOpenMultiplier(f: Vec, mask: Mask, cap: real)
    requires NonNegative(f) && |f| == |mask| && forall k :: 0 <= k < |mask| ==> mask[k]
    ensures Multiplier(f, mask, cap) == 1.0
  {
    OpenSumAtMost(f, mask, |f|);
    if OpenSum(f, mask) > NO_OPEN_PRODUCER {
      QuotientAtLeastOne(Sum(f, |f|), OpenSum(f, mask));
    }
  }

  /** The entries of open producers; nothing at closed ones. */
  function Masked(v: Vec, mask: Mask): (r: Vec)
    requires |v| == |mask|
    ensures |r| == |v| && forall k :: 0 <= k < |v| ==> r[k] == if mask[k] then v[k] else 0.0
  {
    seq(|v|, k requires 0 <= k < |v| => if mask[k] then v[k] else 0.0)
  }

  lemma {:induction false} OpenSumIsMasked(f: Vec, mask: Mask, n: nat)
    requires |f| == |mask| && n <= |f|
    ensures Dot(Indicator(mask), f, n) == Sum(Masked(f, mask), n)
  {
    if n > 0 {
      OpenSumIsMasked(f, mask, n - 1);
    }
  }

  /** What every producer receives from one unit of injection at this multiplier. */
  function Received(f: Vec, g: real): (r: Vec)
    ensures |r| == |f| && forall k :: 0 <= k < |f| ==> r[k] == Times(f[k], g)
  {
    seq(|f|, k requires 0 <= k < |f| => Times(f[k], g))
  }

  /** What the open producers receive from one unit of injection. */
  function Delivered(f: Vec, mask: Mask, cap: real): real
    requires |f| == |mask|
  {
    Sum(Masked(Received(f, Multiplier(f, mask, cap)), mask), |f|)
  }

  lemma ProductAtMost(x: real, g: real, q: real, y: real)
    requires x > 0.0 && g <= q && q == y / x
    ensures Times(x, g) <= y
    ensures g == q ==> Times(x, g) == y
  {
    assert x * q == y;
    assert x * g <= x * q;
  }

  lemma ScaledStep(sum: real, v: real, g: real, open: bool)
    ensures Times(sum, g) + (if open then Times(v, g) else 0.0) == Times(sum + if open then v else 0.0, g)
  {
  }

  lemma {:induction false} ReceivedTotal(f: Vec, mask: Mask, g: real, n: nat)
    requires |f| == |mask| && n <= |f|
    ensures Sum(Masked(Received(f, g), mask), n) == Times(Sum(Masked(f, mask), n), g)
  {
    if n > 0 {
      ReceivedTotal(f, mask, g, n - 1);
      ScaledStep(Sum(Masked(f, mask), n - 1), f[n - 1], g, mask[n - 1]);
    }
  }

  /** The multiplier from the allocation to open producers: the quotient up to the cap, or one when there is hardly any. */
  lemma MultiplierIs(f: Vec, mask: Mask, cap: real)
    requires |f| == |mask|
    ensures var open := Sum(Masked(f, mask), |f|);
            && (open <= 0.000000000001 ==> Multiplier(f, mask, cap) == 1.0)
            && (open > 0.000000000001 && Sum(f, |f|) / open <= Max(1.0, cap) ==>
                  Multiplier(f, mask, cap) == Sum(f, |f|) / open)
            && (open > 0.000000000001 && Sum(f, |f|) / open > Max(1.0, cap) ==> Multiplier(f, mask, cap) == Max(1.0, cap))
  {
    OpenSumIsMasked(f, mask, |f|);
  }

  /** How the closed producers share their part does not matter, only how much it is. */
  lemma ClosedSharesIrrelevant(f: Vec, f': Vec, mask: Mask, cap: real)
    requires |f| == |f'| == |mask| && Sum(f, |f|) == Sum(f', |f'|)
    requires forall k :: 0 <= k < |mask| && mask[k] ==> f[k] == f'[k]
    ensures Multiplier(f, mask, cap) == Multiplier(f', mask, cap)
  {
    OpenSumIsMasked(f, mask, |f|);
    OpenSumIsMasked(f', mask, |f|);
    SumPrefix(Masked(f, mask), Masked(f', mask), |f|);
  }

  /**
   Redistribution never creates water, and loses none unless the cap or the empty-field guard applies: what the open
   producers receive is then the whole of the injector's allocations, open and closed.
   */
  lemma DeliveredAtMostTotal(f: Vec, mask: Mask, cap: real)
    requires |f| == |mask|
    ensures NonNegative(f) ==> Delivered(f, mask, cap) <= Sum(f, |f|)
    ensures var open := Sum(Masked(f, mask), |f|);
            open > NO_OPEN_PRODUCER && Sum(f, |f|) / open <= Max(1.0, cap) ==> Delivered(f, mask, cap) == Sum(f, |f|)
  {
    var g, open, total := Multiplier(f, mask, cap), Sum(Masked(f, mask), |f|), Sum(f, |f|);
    ReceivedTotal(f, mask, g, |f|);
    assert Delivered(f, mask, cap) == Times(open, g);
    MultiplierIs(f, mask, cap);
    if open > NO_OPEN_PRODUCER {
      ProductAtMost(open, g, total / open, total);
    } else if NonNegative(f) {
      OpenSumIsMasked(f, mask, |f|);
      OpenSumAtMost(f, mask, |f|);
    }
  }

  // ---------------------------------------------------------------- bounds of the recursion

  /** What the model needs of the exponential: a decay factor in (0, 1] for non-positive arguments. */
  ghost predicate IsDecay(exp: Exp) {
    forall z: real :: z <= 0.0 ==> 0.0 < exp[z] <= 1.0
  }

  ghost predicate AreFactors(e: Vec, n: nat) {
    n < |e| && forall r :: 0 <= r <= n ==> 0.0 <= e[r] <= 1.0
  }

  lemma LeakBetween(x: real, e: real, u: real, lo: real, hi: real)
    requires 0.0 <= e <= 1.0 && lo <= x <= hi && lo <= u <= hi
    ensures lo <= Leak(x, e, u) <= hi
  {
    MulNonNegative(x - lo, e, (x - lo) * e);
    MulNonNegative(1.0 - e, u - lo, (1.0 - e) * (u - lo));
    MulNonNegative(hi - x, e, (hi - x) * e);
    MulNonNegative(1.0 - e, hi - u, (1.0 - e) * (hi - u));
  }

  lemma LeakMonotone(x: real, y: real, e: real, u: real, v: real)
    requires 0.0 <= e <= 1.0 && x <= y && u <= v
    ensures Leak(x, e, u) <= Leak(y, e, v)
  {
    MulNonNegative(y - x, e, (y - x) * e);
    MulNonNegative(1.0 - e, v - u, (1.0 - e) * (v - u));
  }

  /** The largest source seen so far, at least zero. */
  function RunningMax(u: Vec, n: nat): (m: real)
    requires n < |u|
    ensures m == 0.0 || exists r :: 0 < r <= n && m == u[r]
  {
    if n == 0 then 0.0 else Max(RunningMax(u, n - 1), u[n])
  }

  /** Driven by a non-negative source, the state stays between zero and the running maximum. */
  lemma {:induction false} FilterBounds(e: Vec, u: Vec, open: Mask, n: nat)
    requires n < |u| && n < |open| && AreFactors(e, n)
    requires forall r :: 0 <= r <= n ==> u[r] >= 0.0
    ensures 0.0 <= Filter(e, u, open, n) <= RunningMax(u, n)
  {
    if n > 0 {
      FilterBounds(e, u, open, n - 1);
      if open[n] {
        LeakBetween(Filter(e, u, open, n - 1), e[n], u[n], 0.0, RunningMax(u, n));
      }
    }
  }

  lemma {:induction false} FilterMonotone(e: Vec, u: Vec, v: Vec, open: Mask, n: nat)
    requires n < |u| && n < |v| && n < |open| && AreFactors(e, n)
    requires forall r :: 0 <= r <= n ==> u[r] <= v[r]
    ensures Filter(e, u, open, n) <= Filter(e, v, open, n)
  {
    if n > 0 {
      FilterMonotone(e, u, v, open, n - 1);
      if open[n] {
        LeakMonotone(Filter(e, u, open, n - 1), Filter(e, v, open, n - 1), e[n], u[n], v[n]);
      }
    }
  }

  lemma NegativeQuotient(a: real, b: real)
    requires a >= 0.0 && b > 0.0
    ensures -a / b <= 0.0
  {
  }

  lemma ProductNonNegative(a: real, b: real, c: real, product: real)
    requires a >= 0.0 && b >= 0.0 && c >= 0.0 && product == a * b * c
    ensures product >= 0.0
  {
  }
}
