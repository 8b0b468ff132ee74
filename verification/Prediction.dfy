/** The field prediction as the source fills it, one producer's column at a time (waterflood_app/models/solver.py). */
module Prediction {
  import opened Common
  import opened Statistics
  import opened Crm
  import opened CrmForward
  import opened Crmip
  import opened PairForward
  import opened Redistribution
  import opened Field

  // ---------------------------------------------------------------- the slow form

  /** table holds every producer's rate at every step. */
  ghost predicate IsRateTable(table: Matrix, m: FieldModel) {
    && Shape(table, m.g.Steps(), m.g.np)
    && forall n, j {:trigger RateAtStep(m, n, j)} :: 0 <= n < m.g.Steps() && 0 <= j < m.g.np ==>
         table[n][j] == RateAtStep(m, n, j)
  }

  lemma RateTableExists(m: FieldModel) returns (table: Matrix)
    ensures IsRateTable(table, m) && |table| == m.g.Steps()
    ensures forall n :: 0 <= n < m.g.Steps() ==> |table[n]| == m.g.np
  {
    table := seq(m.g.Steps(), n requires 0 <= n < m.g.Steps() =>
               seq(m.g.np, j requires 0 <= j < m.g.np => RateAtStep(m, n, j)));
  }

  /** qhat holds producer j's rates from its first producing step on. */
  ghost predicate IsSlice(qhat: Vec, m: FieldModel, j: nat)
    requires j < m.g.np
  {
    && |qhat| == m.g.Steps() - Start(m.g, j)
    && forall r {:trigger SliceRate(m, j, r)} :: 0 <= r < |qhat| ==> qhat[r] == SliceRate(m, j, r)
  }

  lemma RateEntry(table: Matrix, m: FieldModel, j: nat, n: nat)
    requires IsRateTable(table, m) && j < m.g.np && n < m.g.Steps()
    ensures n < Start(m.g, j) ==> table[n][j] == 0.0
    ensures n >= Start(m.g, j) ==> table[n][j] == SliceRate(m, j, n - Start(m.g, j))
  {
    assert table[n][j] == RateAtStep(m, n, j);
  }

  lemma SliceEntry(qhat: Vec, m: FieldModel, j: nat, r: nat, rate: real)
    requires j < m.g.np && IsSlice(qhat, m, j) && r < |qhat|
    requires rate == SliceRate(m, j, r)
    ensures qhat[r] == rate
  {
  }

  lemma RateColumn(table: Matrix, m: FieldModel, j: nat, qhat: Vec)
    requires IsRateTable(table, m) && j < m.g.np
    requires IsSlice(qhat, m, j)
    ensures forall n :: 0 <= n < m.g.Steps() ==>
      table[n][j] == if n < Start(m.g, j) then 0.0 else qhat[n - Start(m.g, j)]
  {
    forall n | 0 <= n < m.g.Steps()
      ensures table[n][j] == if n < Start(m.g, j) then 0.0 else qhat[n - Start(m.g, j)]
    {
      RateEntry(table, m, j, n);
      if n >= Start(m.g, j) {
        SliceEntry(qhat, m, j, n - Start(m.g, j), table[n][j]);
      }
    }
  }

  /** out[start:, j] = qhat */
  method FillColumn(a: array2<real>, j: nat, start: nat, qhat: Vec)
    requires j < a.Length1 && start + |qhat| == a.Length0
    modifies a
    ensures forall n, i :: 0 <= n < a.Length0 && 0 <= i < a.Length1 ==>
      a[n, i] == if i == j && n >= start then qhat[n - start] else old(a[n, i])
  {
    for n := start to a.Length0
      invariant forall r, i :: 0 <= r < a.Length0 && 0 <= i < a.Length1 ==>
        a[r, i] == if i == j && start <= r < n then qhat[r - start] else old(a[r, i])
    {
      a[n, j] := qhat[n - start];
    }
  }

  /** Writes one producer's column at a time, from its first producing step on. */
  method PredictField(m: FieldModel) returns (out: Matrix)
    ensures IsRateTable(out, Effective(m))
  {
    out := FillField(Effective(m));
  }

  method FillField(m: FieldModel) returns (out: Matrix)
    ensures IsRateTable(out, m)
  {
    var steps, np := m.g.Steps(), m.g.np;
    var a := new real[steps, np]((_, _) => 0.0);
    ghost var table := RateTableExists(m);
    for j := 0 to np
      invariant forall n, i :: 0 <= n < steps && 0 <= i < np ==> a[n, i] == if i < j then table[n][i] else 0.0
    {
      var qhat, jac := ForwardOf(m, j);
      RateColumn(table, m, j, qhat);
      FillColumn(a, j, Start(m.g, j), qhat);
    }
    out := seq(steps, n requires 0 <= n < steps reads a => seq(np, j requires 0 <= j < np reads a => a[n, j]));
    forall n | 0 <= n < steps
      ensures out[n] == table[n]
    {
    }
  }

  /** The variant's forward model on producer j's slice. */
  method ForwardOf(m: FieldModel, j: nat)
    returns (qhat: Vec, jac: Option<Matrix>)
    requires j < m.g.np
    ensures IsSlice(qhat, m, j) && |qhat| == m.g.Steps() - Start(m.g, j)
  {
    var d := ProducerDataOf(m, j);
    if m.p.Crmp? {
      var theta := CrmpTheta(m, j);
      qhat, jac := CrmpForward(m.exp, theta, d, false, false);
      forall r | 0 <= r < |qhat|
        ensures qhat[r] == SliceRate(m, j, r)
      {
        CrmpThetaUnpacks(m, j);
        assert qhat[r] == Rate(m.exp, RealParams(theta, d, false), d, r);
      }
    } else {
      qhat, jac := CrmipForward(m.exp, ProducerTheta(m, j), d, false);
      forall r | 0 <= r < |qhat|
        ensures qhat[r] == SliceRate(m, j, r)
      {
        assert qhat[r] == PairRate(m.exp, ProducerTheta(m, j), d, r);
      }
    }
  }

  /** Free-primary parameter vector of producer j. */
  function CrmpTheta(m: FieldModel, j: nat): (theta: Vec)
    requires j < m.g.np && m.p.Crmp?
    ensures GoodTheta(theta, ProducerDataOf(m, j), false)
  {
    Column(m.p.f, j) + [m.p.tau[j], m.p.gainP[j], m.p.tauP[j]] + if UsesJ(m) then [m.p.J.value[j]] else []
  }

  lemma CrmpThetaUnpacks(m: FieldModel, j: nat)
    requires j < m.g.np && m.p.Crmp?
    ensures RealParams(CrmpTheta(m, j), ProducerDataOf(m, j), false) == ProducerParams(m, j)
  {
    assert CrmpTheta(m, j)[..m.g.ni] == Column(m.p.f, j);
  }
}
