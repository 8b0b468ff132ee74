/**
 The CRMIP variant (waterflood_app/models/solver.py): one state per injector-producer pair, each with
 its own time constant and productivity. A pair is a one-injector CRMP run, so its recursion and its
 sensitivities are the CRMP ones.
 */
module Crmip {
  import opened Common
  import opened Duals
  import opened Crm
  import opened CrmForward

  /** [f_1..f_Ni, tau_1..tau_Ni, gainP, tauP, (J_1..J_Ni)] */
  function PairThetaLength(d: ProducerData): nat {
    2 * d.ni + 2 + if d.HasJ() then d.ni else 0
  }

  ghost predicate GoodPairTheta(theta: Vec, d: ProducerData) {
    && |theta| == PairThetaLength(d)
    && (forall i :: d.ni <= i < 2 * d.ni ==> theta[i] != 0.0)
    && theta[2 * d.ni + 1] != 0.0
  }

  /** Injector i on its own. */
  function PairData(d: ProducerData, i: nat): (pair: ProducerData)
    requires d.Valid() && i < d.ni
    ensures pair.Valid() && pair.ni == 1 && pair.Steps() == d.Steps()
    ensures forall n :: 0 <= n < d.Steps() ==>
      pair.inj[n] == [d.inj[n][i]] && pair.Open(n) == d.Open(n) && pair.Pressure(n) == d.Pressure(n)
  {
    d.(ni := 1,
       inj := seq(d.Steps(), n requires 0 <= n < d.Steps() => [d.inj[n][i]]),
       dist := None, allowed := None)
  }

  /** Parameters of pair i, over any kind of number. */
  function PairParams<T>(theta: seq<T>, d: ProducerData, i: nat, zero: T): Params<T>
    requires |theta| == PairThetaLength(d) && i < d.ni
  {
    Params([theta[i]], theta[d.ni + i], theta[2 * d.ni], theta[2 * d.ni + 1],
           if d.HasJ() then theta[2 * d.ni + 2 + i] else zero)
  }

  lemma SingleDot(a: real, b: real)
    ensures Dot([a], [b], 1) == a * b
  {
    assert Dot([a], [b], 0) == 0.0;
  }

  /** Allocated injection and the pressure term of one pair. */
  function Drive(f: real, inj: real, J: real, tau: real, pressure: real): real {
    f * inj + -J * tau * pressure
  }

  /** What drives pair i at step n. */
  lemma PairSourceAt(theta: Vec, d: ProducerData, i: nat, n: nat)
    requires d.Valid() && |theta| == PairThetaLength(d) && i < d.ni && n < d.Steps()
    ensures var p := PairParams(theta, d, i, 0.0);
            Source(p.f, p.tau, p.J, PairData(d, i))[n] == Drive(theta[i], d.inj[n][i], p.J, theta[d.ni + i], d.Pressure(n))
  {
    SingleDot(theta[i], d.inj[n][i]);
  }

  function PairState(exp: Exp, theta: Vec, d: ProducerData, i: nat, n: nat): real
    requires d.Valid() && GoodPairTheta(theta, d) && i < d.ni && n < d.Steps()
  {
    State(exp, PairParams(theta, d, i, 0.0), PairData(d, i), n)
  }

  function PairStates(exp: Exp, theta: Vec, d: ProducerData, n: nat): (x: Vec)
    requires d.Valid() && GoodPairTheta(theta, d) && n < d.Steps()
    ensures |x| == d.ni
  {
    seq(d.ni, i requires 0 <= i < d.ni => PairState(exp, theta, d, i, n))
  }

  function Primary(exp: Exp, theta: Vec, d: ProducerData, n: nat): real
    requires d.Valid() && GoodPairTheta(theta, d) && n < d.Steps()
  {
    theta[2 * d.ni] * d.q0 * exp[-d.t[n] / theta[2 * d.ni + 1]]
  }

  /** The rate: primary term plus the sum of the pair states, zero while shut in. */
  function PairRate(exp: Exp, theta: Vec, d: ProducerData, n: nat): real
    requires d.Valid() && GoodPairTheta(theta, d) && n < d.Steps()
  {
    if !d.Open(n) then 0.0 else Primary(exp, theta, d, n) + Sum(PairStates(exp, theta, d, n), d.ni)
  }

  // ---------------------------------------------------------------- over dual numbers

  function DualPairState(exp: Exp, theta: Vec, k: nat, d: ProducerData, i: nat, n: nat): Dual
    requires d.Valid() && GoodPairTheta(theta, d) && i < d.ni && n < d.Steps()
  {
    DualState(exp, PairParams(Seed(theta, k), d, i, Lift(0.0)), PairData(d, i), n)
  }

  function DualPairStates(exp: Exp, theta: Vec, k: nat, d: ProducerData, n: nat): (x: seq<Dual>)
    requires d.Valid() && GoodPairTheta(theta, d) && n < d.Steps()
    ensures |x| == d.ni
  {
    seq(d.ni, i requires 0 <= i < d.ni => DualPairState(exp, theta, k, d, i, n))
  }

  function DualSum(v: seq<Dual>, n: nat): Dual
    requires n <= |v|
  {
    if n == 0 then Lift(0.0) else DualSum(v, n - 1).Add(v[n - 1])
  }

  function SeededPrimary(exp: Exp, theta: Vec, k: nat, d: ProducerData, n: nat): Dual
    requires d.Valid() && GoodPairTheta(theta, d) && n < d.Steps()
  {
    DualPrimary(exp, Seed(theta, k)[2 * d.ni], d.q0, d.t[n], Seed(theta, k)[2 * d.ni + 1])
  }

  function DualPairRate(exp: Exp, theta: Vec, k: nat, d: ProducerData, n: nat): Dual
    requires d.Valid() && GoodPairTheta(theta, d) && n < d.Steps()
  {
    if !d.Open(n) then Lift(0.0)
    else SeededPrimary(exp, theta, k, d, n).Add(DualSum(DualPairStates(exp, theta, k, d, n), d.ni))
  }

  function PairSlope(exp: Exp, theta: Vec, d: ProducerData, n: nat, k: nat): real
    requires d.Valid() && GoodPairTheta(theta, d) && n < d.Steps()
  {
    DualPairRate(exp, theta, k, d, n).eps
  }

  // ---------------------------------------------------------------- the hand-written entries

  /** The sensitivity of pair i's state to parameter k, as coded. */
  function PairEntry(exp: Exp, theta: Vec, d: ProducerData, i: nat, n: nat, k: nat): real
    requires d.Valid() && GoodPairTheta(theta, d) && i < d.ni && n < d.Steps()
  {
    var p := PairParams(theta, d, i, 0.0);
    var pair := PairData(d, i);
    if k == i then Filter(Decays(exp, d.dt, p.tau), Column(pair.inj, 0), OpenSteps(pair), n)
    else if k == d.ni + i then TauSlope(exp, p.f, p.tau, p.J, pair, n)
    else if d.HasJ() && k == 2 * d.ni + 2 + i then Filter(Decays(exp, d.dt, p.tau), PressureSource(p.tau, pair), OpenSteps(pair), n)
    else 0.0
  }

  /** The pair a parameter belongs to; ni for the primary parameters, which move no pair. */
  function PairOf(d: ProducerData, k: nat): nat {
    if k < d.ni then k
    else if k < 2 * d.ni then k - d.ni
    else if k < 2 * d.ni + 2 then d.ni
    else k - 2 * d.ni - 2
  }

  lemma PairEntryIsDual(exp: Exp, theta: Vec, d: ProducerData, n: nat, k: nat)
    requires d.Valid() && GoodPairTheta(theta, d) && n < d.Steps() && k < |theta| && PairOf(d, k) < d.ni
    ensures PairEntry(exp, theta, d, PairOf(d, k), n, k) == DualPairState(exp, theta, k, d, PairOf(d, k), n).eps
  {
    var i := PairOf(d, k);
    var p := PairParams(theta, d, i, 0.0);
    var s := PairParams(Seed(theta, k), d, i, Lift(0.0));
    var pair := PairData(d, i);
    if k == i {
      StateSlopeLinear(exp, p, s, 0, pair, Column(pair.inj, 0), n);
    } else if k == d.ni + i {
      assert s.f == LiftAll(p.f);
      StateSlopeTau(exp, p, s, pair, n);
    } else {
      StateSlopeLinear(exp, p, s, 1, pair, PressureSource(p.tau, pair), n);
    }
  }

  /** A parameter moves no other pair. */
  lemma OtherPairs(exp: Exp, theta: Vec, d: ProducerData, i: nat, n: nat, k: nat)
    requires d.Valid() && GoodPairTheta(theta, d) && i < d.ni && n < d.Steps() && k < |theta| && i != PairOf(d, k)
    ensures DualPairState(exp, theta, k, d, i, n).eps == 0.0
  {
    var p := PairParams(theta, d, i, 0.0);
    var s := PairParams(Seed(theta, k), d, i, Lift(0.0));
    assert s.f == LiftAll(p.f);
    StateSlopeZero(exp, p, s, PairData(d, i), n);
  }

  lemma {:induction false} DualSumOneHot(v: seq<Dual>, j: nat, n: nat)
    requires n <= |v| && forall i :: 0 <= i < n && i != j ==> v[i].eps == 0.0
    ensures DualSum(v, n).eps == if j < n then v[j].eps else 0.0
  {
    if n > 0 {
      DualSumOneHot(v, j, n - 1);
    }
  }

  /** Only the parameter's own pair contributes to its column. */
  lemma PairSumEps(exp: Exp, theta: Vec, k: nat, d: ProducerData, n: nat)
    requires d.Valid() && GoodPairTheta(theta, d) && n < d.Steps() && k < |theta|
    ensures DualSum(DualPairStates(exp, theta, k, d, n), d.ni).eps ==
            if PairOf(d, k) < d.ni then PairEntry(exp, theta, d, PairOf(d, k), n, k) else 0.0
  {
    var v := DualPairStates(exp, theta, k, d, n);
    forall i | 0 <= i < d.ni && i != PairOf(d, k)
      ensures v[i].eps == 0.0
    {
      OtherPairs(exp, theta, d, i, n, k);
    }
    DualSumOneHot(v, PairOf(d, k), d.ni);
    if PairOf(d, k) < d.ni {
      PairEntryIsDual(exp, theta, d, n, k);
    }
  }

  /** Sensitivity of the primary term to its own two parameters. */
  function PrimaryEntry(exp: Exp, theta: Vec, d: ProducerData, n: nat, k: nat): real
    requires d.Valid() && GoodPairTheta(theta, d) && n < d.Steps()
  {
    if k == 2 * d.ni then d.q0 * exp[-d.t[n] / theta[2 * d.ni + 1]]
    else if k == 2 * d.ni + 1 then theta[2 * d.ni] * d.q0 * DecaySlope(exp, d.t[n], theta[2 * d.ni + 1])
    else 0.0
  }

  lemma PrimaryEntryIsDual(exp: Exp, theta: Vec, d: ProducerData, n: nat, k: nat)
    requires d.Valid() && GoodPairTheta(theta, d) && n < d.Steps()
    ensures PrimaryEntry(exp, theta, d, n, k) == SeededPrimary(exp, theta, k, d, n).eps
  {
    var s := Seed(theta, k);
    PrimaryParts(exp, s[2 * d.ni], d.q0, d.t[n], s[2 * d.ni + 1]);
  }

  /** The hand-written Jacobian entry for parameter k at step n. */
  function PairJacobianEntry(exp: Exp, theta: Vec, d: ProducerData, n: nat, k: nat): real
    requires d.Valid() && GoodPairTheta(theta, d) && n < d.Steps() && k < |theta|
  {
    if !d.Open(n) then 0.0
    else if k == 2 * d.ni || k == 2 * d.ni + 1 then PrimaryEntry(exp, theta, d, n, k)
    else PairEntry(exp, theta, d, PairOf(d, k), n, k)
  }

  lemma PairRateSlope(exp: Exp, theta: Vec, k: nat, d: ProducerData, n: nat, primary: Dual, pairs: Dual)
    requires d.Valid() && GoodPairTheta(theta, d) && n < d.Steps() && d.Open(n)
    requires primary == SeededPrimary(exp, theta, k, d, n)
    requires pairs == DualSum(DualPairStates(exp, theta, k, d, n), d.ni)
    ensures PairSlope(exp, theta, d, n, k) == primary.eps + pairs.eps
  {
    assert DualPairRate(exp, theta, k, d, n) == primary.Add(pairs);
  }

  /** Every CRMIP sensitivity is the exact derivative of the forward recursion. */
  lemma PairJacobianIsExact(exp: Exp, theta: Vec, d: ProducerData, n: nat, k: nat)
    requires d.Valid() && GoodPairTheta(theta, d) && n < d.Steps() && k < |theta|
    ensures PairJacobianEntry(exp, theta, d, n, k) == PairSlope(exp, theta, d, n, k)
  {
    if d.Open(n) {
      PairSumEps(exp, theta, k, d, n);
      PrimaryEntryIsDual(exp, theta, d, n, k);
      PairRateSlope(exp, theta, k, d, n, SeededPrimary(exp, theta, k, d, n),
                    DualSum(DualPairStates(exp, theta, k, d, n), d.ni));
    }
  }

  // ---------------------------------------------------------------- the real part of a dual run

  lemma PairStateReal(exp: Exp, theta: Vec, k: nat, d: ProducerData, i: nat, n: nat)
    requires d.Valid() && GoodPairTheta(theta, d) && i < d.ni && n < d.Steps()
    ensures DualPairState(exp, theta, k, d, i, n).re == PairState(exp, theta, d, i, n)
  {
    StateReal(exp, PairParams(theta, d, i, 0.0), PairParams(Seed(theta, k), d, i, Lift(0.0)), if i == k then 0 else 1,
              PairData(d, i), n);
  }

  lemma {:induction false} SumReal(v: seq<Dual>, x: Vec, n: nat)
    requires n <= |v| && n <= |x| && forall i :: 0 <= i < n ==> v[i].re == x[i]
    ensures DualSum(v, n).re == Sum(x, n)
  {
    if n > 0 {
      SumReal(v, x, n - 1);
    }
  }

  /** Whatever parameter is perturbed, the real part of the dual run is the variant's rate. */
  lemma RealPartIsPairRate(exp: Exp, theta: Vec, k: nat, d: ProducerData, n: nat)
    requires d.Valid() && GoodPairTheta(theta, d) && n < d.Steps()
    ensures DualPairRate(exp, theta, k, d, n).re == PairRate(exp, theta, d, n)
  {
    if d.Open(n) {
      var v, x := DualPairStates(exp, theta, k, d, n), PairStates(exp, theta, d, n);
      forall i | 0 <= i < d.ni
        ensures v[i].re == x[i]
      {
        PairStateReal(exp, theta, k, d, i, n);
      }
      SumReal(v, x, d.ni);
      var primary := Primary(exp, theta, d, n);
      assert SeededPrimary(exp, theta, k, d, n).re == primary by {
        SeededPrimaryReal(exp, theta, k, d, n);
      }
      PairRateParts(exp, theta, k, d, n, v, x, primary);
    }
  }

  lemma SeededPrimaryReal(exp: Exp, theta: Vec, k: nat, d: ProducerData, n: nat)
    requires d.Valid() && GoodPairTheta(theta, d) && n < d.Steps()
    ensures SeededPrimary(exp, theta, k, d, n).re == Primary(exp, theta, d, n)
  {
    var gain, tau := theta[2 * d.ni], theta[2 * d.ni + 1];
    PrimaryReal(exp, Seed(theta, k)[2 * d.ni], d.q0, d.t[n], Seed(theta, k)[2 * d.ni + 1], gain, tau);
  }

  lemma PairRateParts(exp: Exp, theta: Vec, k: nat, d: ProducerData, n: nat, v: seq<Dual>, x: Vec, primary: real)
    requires d.Valid() && GoodPairTheta(theta, d) && n < d.Steps() && d.Open(n)
    requires v == DualPairStates(exp, theta, k, d, n) && x == PairStates(exp, theta, d, n)
    requires DualSum(v, d.ni).re == Sum(x, d.ni)
    requires primary == Primary(exp, theta, d, n) && primary == SeededPrimary(exp, theta, k, d, n).re
    ensures DualPairRate(exp, theta, k, d, n).re == PairRate(exp, theta, d, n)
  {
  }
}
