/**
 Well types from rates (waterflood_app/ingest/welltype.py): the mode of every step, the type and conversions of every
 well, and the split of converted wells into a producing and an injecting entity.
 */
module WellType {
  import opened Common

  /** One row of the rates table; a rate may be missing. */
  datatype Row = Row(well: string, date: int, oil: Option<real>, water: Option<real>, gas: Option<real>, inj: Option<real>)

  datatype Mode = ProdStep | InjStep | BothStep | IdleStep

  datatype Role = Producer | Injector

  datatype Kind = PROD | INJ | MIXED | NONE

  function Filled(rate: Option<real>): (q: real)
    ensures rate == Some(q) || (rate.None? && q == 0.0)
  {
    if rate.Some? then rate.value else 0.0
  }

  function Classify(r: Row): Mode {
    var prod, inj := Filled(r.oil) + Filled(r.water), Filled(r.inj);
    if prod > 0.0 && inj > 0.0 then BothStep
    else if prod > 0.0 then ProdStep
    else if inj > 0.0 then InjStep
    else IdleStep
  }

  // ---------------------------------------------------------------- types and conversions

  datatype Step = Step(date: int, mode: Mode)

  datatype Conversion = Conversion(date: int, from: Role, to: Role)

  datatype Derived = Derived(kind: Kind, conversions: seq<Conversion>, simultaneous: nat)

  function RoleOf(m: Mode): Option<Role> {
    match m
    case ProdStep => Some(Producer)
    case InjStep => Some(Injector)
    case _ => None
  }

  function Active(steps: seq<Step>): (a: seq<Step>)
    ensures forall k :: 0 <= k < |a| ==> a[k].mode != IdleStep
  {
    if steps == [] then []
    else Active(steps[..|steps| - 1]) + if steps[|steps| - 1].mode == IdleStep then [] else [steps[|steps| - 1]]
  }

  predicate Seen(steps: seq<Step>, m: Mode) {
    exists k :: 0 <= k < |steps| && steps[k].mode == m
  }

  function KindOf(active: seq<Step>): Kind {
    var p, i := Seen(active, ProdStep) || Seen(active, BothStep), Seen(active, InjStep) || Seen(active, BothStep);
    if p && i then MIXED else if p then PROD else if i then INJ else NONE
  }

  /** Role of the first single-role step from k on. */
  function Next(active: seq<Step>, k: nat): Option<Role>
    requires k <= |active|
    decreases |active| - k
  {
    if k == |active| then None
    else if RoleOf(active[k].mode).Some? then RoleOf(active[k].mode)
    else Next(active, k + 1)
  }

  /** Role of the last single-role step before k. */
  function Previous(active: seq<Step>, k: nat): Option<Role>
    requires k <= |active|
  {
    if k == 0 then None
    else if RoleOf(active[k - 1].mode).Some? then RoleOf(active[k - 1].mode)
    else Previous(active, k - 1)
  }

  /**
   What every step's role comes to: its own, or that of the next single-role step; after the last of those it stays,
   and a well that never has one produces.
   */
  function Resolved(active: seq<Step>, k: nat): Role
    requires k < |active|
  {
    if Next(active, k).Some? then Next(active, k).value
    else if Previous(active, k).Some? then Previous(active, k).value
    else Producer
  }

  /** The conversions are the changes of the resolved role, in order. */
  function Changes(active: seq<Step>, n: nat): (c: seq<Conversion>)
    requires n <= |active|
  {
    if n <= 1 then []
    else if Resolved(active, n - 1) == Resolved(active, n - 2) then Changes(active, n - 1)
    else Changes(active, n - 1) + [Conversion(active[n - 1].date, Resolved(active, n - 2), Resolved(active, n - 1))]
  }

  /** The role the loop gives a step, from the role before it and the steps after it. */
  function LoopRole(active: seq<Step>, k: nat, last: Option<Role>): Role
    requires k < |active|
  {
    var m := active[k].mode;
    if m == BothStep then
      var next := Next(active, k + 1);
      if next.Some? && last.Some? && next != last then next.value
      else if last.Some? then last.value
      else if next.Some? then next.value
      else Producer
    else if m == InjStep then Injector
    else Producer
  }

  lemma {:induction false} NextSkips(active: seq<Step>, k: nat)
    requires k < |active| && active[k].mode == BothStep
    ensures Next(active, k) == Next(active, k + 1)
  {
  }

  /** After the last single-role step the previous one is the last there is. */
  lemma {:induction false} TrailingRole(active: seq<Step>, k: nat)
    requires 0 < k < |active| && Next(active, k).None?
    ensures Resolved(active, k) == Resolved(active, k - 1)
  {
    if RoleOf(active[k - 1].mode).None? {
      assert Next(active, k - 1) == Next(active, k);
    }
  }

  lemma LoopRoleIsResolved(active: seq<Step>, k: nat, last: Option<Role>)
    requires k < |active| && active[k].mode != IdleStep
    requires last == if k == 0 then None else Some(Resolved(active, k - 1))
    ensures LoopRole(active, k, last) == Resolved(active, k)
  {
    if active[k].mode == BothStep {
      NextSkips(active, k);
      if k > 0 && Next(active, k).None? {
        TrailingRole(active, k);
      }
    }
  }

  /** Type and conversions of one well, step by step through its active modes; the steps come in date order. */
  method DeriveWell(steps: seq<Step>) returns (d: Derived)
    ensures d.kind == KindOf(Active(steps)) && d.conversions == Changes(Active(steps), |Active(steps)|)
    ensures d.simultaneous == |set k | 0 <= k < |Active(steps)| && Active(steps)[k].mode == BothStep|
  {
    var active := Active(steps);
    var conversions: seq<Conversion>, last: Option<Role>, both: nat := [], None, 0;
    for k := 0 to |active|
      invariant last == if k == 0 then None else Some(Resolved(active, k - 1))
      invariant conversions == Changes(active, k)
      invariant both == |set i | 0 <= i < k && active[i].mode == BothStep|
    {
      LoopRoleIsResolved(active, k, last);
      var role := LoopRole(active, k, last);
      if last.Some? && role != last.value {
        conversions := conversions + [Conversion(active[k].date, last.value, role)];
      }
      ghost var seen := set i | 0 <= i < k && active[i].mode == BothStep;
      assert (set i | 0 <= i < k + 1 && active[i].mode == BothStep) == if active[k].mode == BothStep then seen + {k} else seen;
      if active[k].mode == BothStep {
        both := both + 1;
      }
      last := Some(role);
    }
    d := Derived(KindOf(active), conversions, both);
  }

  /** Neighbouring conversions share a role, and each changes it: they alternate. */
  lemma {:induction false} ConversionsChain(active: seq<Step>, n: nat)
    requires n <= |active|
    ensures var c := Changes(active, n);
            && (forall i :: 0 <= i < |c| ==> c[i].from != c[i].to)
            && (forall i :: 0 < i < |c| ==> c[i - 1].to == c[i].from)
            && (c != [] ==> c[|c| - 1].to == Resolved(active, n - 1) && c[0].from == Resolved(active, 0))
            && (c == [] && n > 0 ==> Resolved(active, n - 1) == Resolved(active, 0))
  {
    if n > 1 {
      ConversionsChain(active, n - 1);
    }
  }

  lemma {:induction false} NextIsSeen(active: seq<Step>, k: nat)
    requires k <= |active|
    ensures Next(active, k) == Some(Producer) ==> Seen(active, ProdStep)
    ensures Next(active, k) == Some(Injector) ==> Seen(active, InjStep)
    decreases |active| - k
  {
    if k < |active| && RoleOf(active[k].mode).None? {
      NextIsSeen(active, k + 1);
    }
  }

  lemma {:induction false} PreviousIsSeen(active: seq<Step>, k: nat)
    requires k <= |active|
    ensures Previous(active, k) == Some(Producer) ==> Seen(active, ProdStep)
    ensures Previous(active, k) == Some(Injector) ==> Seen(active, InjStep)
  {
    if k > 0 && RoleOf(active[k - 1].mode).None? {
      PreviousIsSeen(active, k - 1);
    }
  }

  /** With no injection-only step every role is Producer; with no production-only step the role never changes. */
  lemma {:induction false} OneRoleOnly(active: seq<Step>, n: nat)
    requires n <= |active| && !(Seen(active, ProdStep) && Seen(active, InjStep))
    ensures Changes(active, n) == []
  {
    if n > 1 {
      OneRoleOnly(active, n - 1);
      NextIsSeen(active, n - 1);
      PreviousIsSeen(active, n - 1);
      NextIsSeen(active, n - 2);
      PreviousIsSeen(active, n - 2);
      if Next(active, n - 1).None? {
        TrailingRole(active, n - 1);
      } else {
        assert Next(active, n - 2).Some?;
      }
    }
  }

  lemma {:induction false} NoChangeNoDifference(active: seq<Step>, n: nat, k: nat)
    requires k < n <= |active| && Changes(active, n) == []
    ensures Resolved(active, k) == Resolved(active, 0)
  {
    if k + 1 < n {
      NoChangeNoDifference(active, n - 1, k);
    } else if k > 0 {
      NoChangeNoDifference(active, n - 1, k - 1);
    }
  }

  /** A well has a conversion exactly when it has a production-only and an injection-only step. */
  lemma ConversionsIff(active: seq<Step>)
    ensures Changes(active, |active|) != [] <==> Seen(active, ProdStep) && Seen(active, InjStep)
  {
    if Seen(active, ProdStep) && Seen(active, InjStep) {
      var p :| 0 <= p < |active| && active[p].mode == ProdStep;
      var i :| 0 <= i < |active| && active[i].mode == InjStep;
      if Changes(active, |active|) == [] {
        NoChangeNoDifference(active, |active|, p);
        NoChangeNoDifference(active, |active|, i);
      }
    } else {
      OneRoleOnly(active, |active|);
    }
  }

  /** Only a MIXED well converts; one whose production and injection always coincide is MIXED and never does. */
  lemma OnlyMixedConverts(active: seq<Step>)
    ensures KindOf(active) != MIXED ==> Changes(active, |active|) == []
    ensures KindOf(active) == MIXED && Changes(active, |active|) == [] ==> Seen(active, BothStep)
  {
    ConversionsIff(active);
  }

  // ---------------------------------------------------------------- splitting into entities

  /** A row of the type table. */
  datatype Typed = Typed(well: string, kind: Kind)

  /** A well in the split table. */
  datatype Entity = Entity(name: string, role: Role, row: Row)

  function WithoutInjection(r: Row): Row {
    r.(inj := Some(0.0))
  }

  function WithoutProduction(r: Row): Row {
    r.(oil := Some(0.0), water := Some(0.0), gas := Some(0.0))
  }

  /** The modes that make a producing, and an injecting, entity row. */
  predicate Produces(r: Row) {
    Classify(r) == ProdStep || Classify(r) == BothStep
  }

  predicate Injects(r: Row) {
    Classify(r) == InjStep || Classify(r) == BothStep
  }

  function ProducingEntity(r: Row): Entity {
    Entity(r.well + "@P", Producer, WithoutInjection(r))
  }

  function InjectingEntity(r: Row): Entity {
    Entity(r.well + "@I", Injector, WithoutProduction(r))
  }

  function ProducingRows(rows: seq<Row>, well: string, n: nat): (s: seq<Entity>)
    requires n <= |rows|
  {
    if n == 0 then []
    else
      var r := rows[n - 1];
      var before := ProducingRows(rows, well, n - 1);
      if r.well == well && Produces(r) then before + [ProducingEntity(r)] else before
  }

  function InjectingRows(rows: seq<Row>, well: string, n: nat): (s: seq<Entity>)
    requires n <= |rows|
  {
    if n == 0 then []
    else
      var r := rows[n - 1];
      var before := InjectingRows(rows, well, n - 1);
      if r.well == well && Injects(r) then before + [InjectingEntity(r)] else before
  }

  function WholeRows(rows: seq<Row>, well: string, role: Role, n: nat): (s: seq<Entity>)
    requires n <= |rows|
  {
    if n == 0 then []
    else
      var before := WholeRows(rows, well, role, n - 1);
      if rows[n - 1].well == well then before + [Entity(well, role, rows[n - 1])] else before
  }

  function SplitWell(rows: seq<Row>, well: string, kind: Kind): seq<Entity> {
    match kind
    case MIXED => ProducingRows(rows, well, |rows|) + InjectingRows(rows, well, |rows|)
    case PROD => WholeRows(rows, well, Producer, |rows|)
    case INJ => WholeRows(rows, well, Injector, |rows|)
    case NONE => []
  }

  /** The split table before it is sorted: wells in the order of the type table. */
  method SplitRoles(rows: seq<Row>, types: seq<Typed>) returns (out: seq<Entity>)
    ensures out == SplitAll(rows, types, |types|)
  {
    out := [];
    for n := 0 to |types|
      invariant out == SplitAll(rows, types, n)
    {
      out := out + SplitWell(rows, types[n].well, types[n].kind);
    }
  }

  function SplitAll(rows: seq<Row>, types: seq<Typed>, n: nat): seq<Entity>
    requires n <= |types|
  {
    if n == 0 then [] else SplitAll(rows, types, n - 1) + SplitWell(rows, types[n - 1].well, types[n - 1].kind)
  }

  // ---------------------------------------------------------------- conservation

  datatype Stream = Oil | Water | Gas | Injection

  function Amount(r: Row, s: Stream): real {
    match s
    case Oil => Filled(r.oil)
    case Water => Filled(r.water)
    case Gas => Filled(r.gas)
    case Injection => Filled(r.inj)
  }

  function AmountOn(r: Row, date: int, s: Stream): real {
    if r.date == date then Amount(r, s) else 0.0
  }

  /** Total of one stream on one date over the first n rows. */
  function Total(rows: seq<Row>, date: int, s: Stream, n: nat): real
    requires n <= |rows|
  {
    if n == 0 then 0.0 else Total(rows, date, s, n - 1) + AmountOn(rows[n - 1], date, s)
  }

  function WellTotal(rows: seq<Row>, well: string, date: int, s: Stream, n: nat): real
    requires n <= |rows|
  {
    if n == 0 then 0.0
    else WellTotal(rows, well, date, s, n - 1) + if rows[n - 1].well == well then AmountOn(rows[n - 1], date, s) else 0.0
  }

  function EntityTotal(es: seq<Entity>, date: int, s: Stream): real {
    if es == [] then 0.0 else EntityTotal(es[..|es| - 1], date, s) + AmountOn(es[|es| - 1].row, date, s)
  }

  lemma {:induction false} EntityTotalAppend(a: seq<Entity>, b: seq<Entity>, date: int, s: Stream)
    ensures EntityTotal(a + b, date, s) == EntityTotal(a, date, s) + EntityTotal(b, date, s)
  {
    if b == [] {
      assert a + b == a;
    } else {
      EntityTotalAppend(a, b[..|b| - 1], date, s);
      assert (a + b)[..|a + b| - 1] == a + b[..|b| - 1];
    }
  }

  lemma EntityTotalNext(es: seq<Entity>, e: Entity, date: int, s: Stream)
    ensures EntityTotal(es + [e], date, s) == EntityTotal(es, date, s) + AmountOn(e.row, date, s)
  {
    assert (es + [e])[..|es|] == es;
  }

  /** What the split leaves out of a row: all of an idle well's, and of a converted well's the streams of a role the row has no mode for. */
  function LostOf(r: Row, kind: Kind, s: Stream): real {
    match kind
    case MIXED => if (if s == Injection then Injects(r) else Produces(r)) then 0.0 else Amount(r, s)
    case PROD => 0.0
    case INJ => 0.0
    case NONE => Amount(r, s)
  }

  function LostOn(r: Row, kind: Kind, date: int, s: Stream): real {
    if r.date == date then LostOf(r, kind, s) else 0.0
  }

  /** What the split leaves out of one well on one date. */
  function WellLost(rows: seq<Row>, well: string, kind: Kind, date: int, s: Stream, n: nat): real
    requires n <= |rows|
  {
    if n == 0 then 0.0
    else
      WellLost(rows, well, kind, date, s, n - 1)
      + if rows[n - 1].well == well then LostOn(rows[n - 1], kind, date, s) else 0.0
  }

  lemma {:induction false} WholeTotal(rows: seq<Row>, well: string, role: Role, date: int, s: Stream, n: nat)
    requires n <= |rows|
    ensures EntityTotal(WholeRows(rows, well, role, n), date, s) == WellTotal(rows, well, date, s, n)
  {
    if n > 0 {
      WholeTotal(rows, well, role, date, s, n - 1);
      EntityTotalNext(WholeRows(rows, well, role, n - 1), Entity(well, role, rows[n - 1]), date, s);
    }
  }

  /** What a role row of a converted well carries of a stream: its own role's, whatever the signs. */
  lemma RoleRowAmounts(r: Row, date: int, s: Stream)
    ensures AmountOn(WithoutInjection(r), date, s) == if s == Injection then 0.0 else AmountOn(r, date, s)
    ensures AmountOn(WithoutProduction(r), date, s) == if s == Injection then AmountOn(r, date, s) else 0.0
    ensures LostOn(r, MIXED, date, s) == if (if s == Injection then Injects(r) else Produces(r)) then 0.0 else AmountOn(r, date, s)
  {
  }

  lemma {:induction false} ProducingTotal(rows: seq<Row>, well: string, date: int, s: Stream, n: nat)
    requires n <= |rows|
    ensures EntityTotal(ProducingRows(rows, well, n), date, s) ==
            if s == Injection then 0.0 else WellTotal(rows, well, date, s, n) - WellLost(rows, well, MIXED, date, s, n)
  {
    if n > 0 {
      ProducingTotal(rows, well, date, s, n - 1);
      RoleRowAmounts(rows[n - 1], date, s);
      EntityTotalNext(ProducingRows(rows, well, n - 1), ProducingEntity(rows[n - 1]), date, s);
    }
  }

  lemma {:induction false} InjectingTotal(rows: seq<Row>, well: string, date: int, s: Stream, n: nat)
    requires n <= |rows|
    ensures EntityTotal(InjectingRows(rows, well, n), date, s) ==
            if s == Injection then WellTotal(rows, well, date, s, n) - WellLost(rows, well, MIXED, date, s, n) else 0.0
  {
    if n > 0 {
      InjectingTotal(rows, well, date, s, n - 1);
      RoleRowAmounts(rows[n - 1], date, s);
      EntityTotalNext(InjectingRows(rows, well, n - 1), InjectingEntity(rows[n - 1]), date, s);
    }
  }

  lemma {:induction false} WholeLost(rows: seq<Row>, well: string, kind: Kind, date: int, s: Stream, n: nat)
    requires n <= |rows|
    ensures kind == PROD || kind == INJ ==> WellLost(rows, well, kind, date, s, n) == 0.0
    ensures kind == NONE ==> WellLost(rows, well, kind, date, s, n) == WellTotal(rows, well, date, s, n)
  {
    if n > 0 {
      WholeLost(rows, well, kind, date, s, n - 1);
    }
  }

  /** One well's entities carry the well's total less what is left out, for any rates. */
  lemma SplitWellTotal(rows: seq<Row>, well: string, kind: Kind, date: int, s: Stream)
    ensures EntityTotal(SplitWell(rows, well, kind), date, s) ==
            WellTotal(rows, well, date, s, |rows|) - WellLost(rows, well, kind, date, s, |rows|)
  {
    WholeLost(rows, well, kind, date, s, |rows|);
    match kind
    case MIXED =>
      ProducingTotal(rows, well, date, s, |rows|);
      InjectingTotal(rows, well, date, s, |rows|);
      EntityTotalAppend(ProducingRows(rows, well, |rows|), InjectingRows(rows, well, |rows|), date, s);
    case PROD => WholeTotal(rows, well, Producer, date, s, |rows|);
    case INJ => WholeTotal(rows, well, Injector, date, s, |rows|);
    case NONE =>
  }

  /** Steps of one well among the first n rows. */
  function StepsOf(rows: seq<Row>, well: string, n: nat): (steps: seq<Step>)
    requires n <= |rows|
  {
    if n == 0 then []
    else
      var before := StepsOf(rows, well, n - 1);
      if rows[n - 1].well == well then before + [Step(rows[n - 1].date, Classify(rows[n - 1]))] else before
  }

  lemma {:induction false} ActiveKeeps(steps: seq<Step>, k: nat)
    requires k < |steps| && steps[k].mode != IdleStep
    ensures Seen(Active(steps), steps[k].mode)
  {
    var front, last := steps[..|steps| - 1], steps[|steps| - 1];
    if k == |steps| - 1 {
      assert Active(steps)[|Active(front)|] == last;
    } else {
      ActiveKeeps(front, k);
      var j :| 0 <= j < |Active(front)| && Active(front)[j].mode == steps[k].mode;
      assert Active(steps)[j] == Active(front)[j];
    }
  }

  lemma {:induction false} StepIn(rows: seq<Row>, well: string, n: nat, k: nat) returns (j: nat)
    requires k < n <= |rows| && rows[k].well == well
    ensures j < |StepsOf(rows, well, n)| && StepsOf(rows, well, n)[j].mode == Classify(rows[k])
  {
    if k == n - 1 {
      j := |StepsOf(rows, well, n - 1)|;
    } else {
      j := StepIn(rows, well, n - 1, k);
    }
  }

  /** A well of no kind has only idle steps. */
  lemma NoneIsIdle(rows: seq<Row>, well: string, k: nat)
    requires k < |rows| && rows[k].well == well && DerivedKind(rows, well) == NONE
    ensures Classify(rows[k]) == IdleStep
  {
    var steps := StepsOf(rows, well, |rows|);
    var j := StepIn(rows, well, |rows|, k);
    if steps[j].mode != IdleStep {
      ActiveKeeps(steps, j);
    }
  }

  /** Sum of the well totals over the first n wells of the type table. */
  function TypedTotal(rows: seq<Row>, types: seq<Typed>, date: int, s: Stream, n: nat, m: nat): real
    requires n <= |types| && m <= |rows|
  {
    if n == 0 then 0.0 else TypedTotal(rows, types, date, s, n - 1, m) + WellTotal(rows, types[n - 1].well, date, s, m)
  }

  /** What the split leaves out on one date, over the first n wells of the type table. */
  function Lost(rows: seq<Row>, types: seq<Typed>, date: int, s: Stream, n: nat): real
    requires n <= |types|
  {
    if n == 0 then 0.0
    else Lost(rows, types, date, s, n - 1) + WellLost(rows, types[n - 1].well, types[n - 1].kind, date, s, |rows|)
  }

  lemma {:induction false} SplitAllTotal(rows: seq<Row>, types: seq<Typed>, date: int, s: Stream, n: nat)
    requires n <= |types|
    ensures EntityTotal(SplitAll(rows, types, n), date, s) ==
            TypedTotal(rows, types, date, s, n, |rows|) - Lost(rows, types, date, s, n)
  {
    if n > 0 {
      SplitAllTotal(rows, types, date, s, n - 1);
      var t, total, lost := types[n - 1], TypedTotal(rows, types, date, s, n - 1, |rows|), Lost(rows, types, date, s, n - 1);
      OneMoreWell(rows, t, SplitAll(rows, types, n - 1), SplitAll(rows, types, n), date, s, total - lost);
      assert TypedTotal(rows, types, date, s, n, |rows|) == total + WellTotal(rows, t.well, date, s, |rows|);
      assert Lost(rows, types, date, s, n) == lost + WellLost(rows, t.well, t.kind, date, s, |rows|);
    }
  }

  lemma OneMoreWell(rows: seq<Row>, t: Typed, before: seq<Entity>, after: seq<Entity>, date: int, s: Stream, sum: real)
    requires after == before + SplitWell(rows, t.well, t.kind) && EntityTotal(before, date, s) == sum
    ensures EntityTotal(after, date, s) ==
            sum + WellTotal(rows, t.well, date, s, |rows|) - WellLost(rows, t.well, t.kind, date, s, |rows|)
  {
    EntityTotalAppend(before, SplitWell(rows, t.well, t.kind), date, s);
    SplitWellTotal(rows, t.well, t.kind, date, s);
  }

  /** One row adds to the total of its own well only. */
  lemma {:induction false} RowAdds(rows: seq<Row>, types: seq<Typed>, date: int, s: Stream, n: nat, m: nat, at: nat)
    requires n <= |types| && m < |rows| && at < |types| && types[at].well == rows[m].well
    requires forall a, b :: 0 <= a < b < |types| ==> types[a].well != types[b].well
    ensures TypedTotal(rows, types, date, s, n, m + 1) ==
            TypedTotal(rows, types, date, s, n, m) + if at < n then AmountOn(rows[m], date, s) else 0.0
  {
    if n > 0 {
      RowAdds(rows, types, date, s, n - 1, m, at);
    }
  }

  /** The types table lists every well of the rates table, once. */
  ghost predicate Lists(rows: seq<Row>, types: seq<Typed>) {
    && (forall a, b :: 0 <= a < b < |types| ==> types[a].well != types[b].well)
    && forall k :: 0 <= k < |rows| ==> exists a :: 0 <= a < |types| && types[a].well == rows[k].well
  }

  function DerivedKind(rows: seq<Row>, well: string): Kind {
    KindOf(Active(StepsOf(rows, well, |rows|)))
  }

  /** And gives each the kind derived from its rows. */
  ghost predicate IsTyping(rows: seq<Row>, types: seq<Typed>) {
    Lists(rows, types) && forall a :: 0 <= a < |types| ==> types[a].kind == DerivedKind(rows, types[a].well)
  }

  lemma {:induction false} TypedIsTotal(rows: seq<Row>, types: seq<Typed>, date: int, s: Stream, m: nat)
    requires m <= |rows| && Lists(rows, types)
    ensures TypedTotal(rows, types, date, s, |types|, m) == Total(rows, date, s, m)
  {
    if m == 0 {
      NothingYet(rows, types, date, s, |types|);
    } else {
      TypedIsTotal(rows, types, date, s, m - 1);
      var at :| 0 <= at < |types| && types[at].well == rows[m - 1].well;
      RowAdds(rows, types, date, s, |types|, m - 1, at);
    }
  }

  lemma {:induction false} NothingYet(rows: seq<Row>, types: seq<Typed>, date: int, s: Stream, n: nat)
    requires n <= |types|
    ensures TypedTotal(rows, types, date, s, n, 0) == 0.0
  {
    if n > 0 {
      NothingYet(rows, types, date, s, n - 1);
    }
  }

  /** The exact account, for any rates and any kinds: the split carries the table's total less what it leaves out. */
  lemma SplitAccount(rows: seq<Row>, types: seq<Typed>, date: int, s: Stream)
    requires Lists(rows, types)
    ensures EntityTotal(SplitAll(rows, types, |types|), date, s) ==
            Total(rows, date, s, |rows|) - Lost(rows, types, date, s, |types|)
  {
    SplitAllTotal(rows, types, date, s, |types|);
    TypedIsTotal(rows, types, date, s, |rows|);
  }

  /** A stream is kept on a date exactly when the amounts left out of it cancel there. */
  lemma SplitConservesIff(rows: seq<Row>, types: seq<Typed>, date: int, s: Stream)
    requires Lists(rows, types)
    ensures EntityTotal(SplitAll(rows, types, |types|), date, s) == Total(rows, date, s, |rows|)
            <==> Lost(rows, types, date, s, |types|) == 0.0
  {
    SplitAccount(rows, types, date, s);
  }

  /** Non-negative oil and water, and injection. */
  predicate NonNegativeRates(rows: seq<Row>) {
    forall k :: 0 <= k < |rows| ==> Filled(rows[k].oil) >= 0.0 && Filled(rows[k].water) >= 0.0 && Filled(rows[k].inj) >= 0.0
  }

  /** A row without production carries no oil or water, one without injection no injected water. */
  lemma LeftOutIsZero(r: Row, kind: Kind, date: int, s: Stream)
    requires Filled(r.oil) >= 0.0 && Filled(r.water) >= 0.0 && Filled(r.inj) >= 0.0 && s != Gas
    requires kind == NONE ==> Classify(r) == IdleStep
    ensures LostOn(r, kind, date, s) == 0.0
  {
  }

  lemma {:induction false} NothingLost(rows: seq<Row>, well: string, date: int, s: Stream, n: nat)
    requires n <= |rows| && NonNegativeRates(rows) && s != Gas
    ensures WellLost(rows, well, DerivedKind(rows, well), date, s, n) == 0.0
  {
    if n > 0 {
      NothingLost(rows, well, date, s, n - 1);
      if rows[n - 1].well == well {
        if DerivedKind(rows, well) == NONE {
          NoneIsIdle(rows, well, n - 1);
        }
        LeftOutIsZero(rows[n - 1], DerivedKind(rows, well), date, s);
      }
    }
  }

  lemma {:induction false} NothingLostAtAll(rows: seq<Row>, types: seq<Typed>, date: int, s: Stream, n: nat)
    requires n <= |types| && NonNegativeRates(rows) && s != Gas
    requires forall a :: 0 <= a < |types| ==> types[a].kind == DerivedKind(rows, types[a].well)
    ensures Lost(rows, types, date, s, n) == 0.0
  {
    if n > 0 {
      NothingLostAtAll(rows, types, date, s, n - 1);
      NothingLost(rows, types[n - 1].well, date, s, |rows|);
    }
  }

  lemma SplitKeepsTotals(rows: seq<Row>, types: seq<Typed>, date: int, s: Stream)
    requires NonNegativeRates(rows) && IsTyping(rows, types) && s != Gas
    ensures EntityTotal(SplitAll(rows, types, |types|), date, s) == Total(rows, date, s, |rows|)
  {
    SplitAccount(rows, types, date, s);
    NothingLostAtAll(rows, types, date, s, |types|);
  }

  /** A rate is missing or not negative. */
  predicate NotNegative(rate: Option<real>) {
    rate.None? || rate.value >= 0.0
  }

  /** For non-negative rates and derived kinds, splitting into roles conserves oil, water and injection on every date. */
  lemma SplitConserves(rows: seq<Row>, types: seq<Typed>, date: int, s: Stream)
    requires forall k :: 0 <= k < |rows| ==> NotNegative(rows[k].oil) && NotNegative(rows[k].water) && NotNegative(rows[k].inj)
    requires IsTyping(rows, types) && s != Gas
    ensures EntityTotal(SplitAll(rows, types, |types|), date, s) == Total(rows, date, s, |rows|)
  {
    assert NonNegativeRates(rows) by {
      forall k | 0 <= k < |rows|
        ensures Filled(rows[k].oil) >= 0.0 && Filled(rows[k].water) >= 0.0 && Filled(rows[k].inj) >= 0.0
      {
        assert NotNegative(rows[k].oil);
      }
    }
    SplitKeepsTotals(rows, types, date, s);
  }

  lemma IdleTyping(r: Row)
    requires Classify(r) == IdleStep
    ensures IsTyping([r], [Typed(r.well, NONE)])
  {
    var rows, types := [r], [Typed(r.well, NONE)];
    assert StepsOf(rows, r.well, 0) == [];
    var steps := StepsOf(rows, r.well, 1);
    assert steps == [Step(r.date, IdleStep)] && steps[..0] == [];
    assert Active(steps[..0]) == [];
    assert Active(steps) == [];
    assert types[0].well == rows[0].well;
  }

  lemma IdleLost(r: Row, s: Stream)
    ensures Lost([r], [Typed(r.well, NONE)], r.date, s, 1) == Amount(r, s)
  {
    assert WellLost([r], r.well, NONE, r.date, s, 0) == 0.0;
    assert WellLost([r], r.well, NONE, r.date, s, 1) == Amount(r, s);
    assert Lost([r], [Typed(r.well, NONE)], r.date, s, 0) == 0.0;
  }

  /**
   A single idle step, whatever its rates, loses what it had: with oil a and water -a, say, the step counts as idle
   and its oil is dropped. Gas on such a step is lost even when nothing is negative.
   */
  lemma IdleStepLoses(r: Row, s: Stream)
    requires Classify(r) == IdleStep
    ensures IsTyping([r], [Typed(r.well, NONE)])
    ensures EntityTotal(SplitAll([r], [Typed(r.well, NONE)], 1), r.date, s) == Total([r], r.date, s, 1)
            <==> Amount(r, s) == 0.0
  {
    IdleTyping(r);
    IdleLost(r, s);
    SplitConservesIff([r], [Typed(r.well, NONE)], r.date, s);
  }

  // ---------------------------------------------------------------- kinds and entities in terms of the rows

  /** Some row of the well has oil and water of more than zero together. */
  ghost predicate EverProduces(rows: seq<Row>, well: string) {
    exists k :: 0 <= k < |rows| && rows[k].well == well && Filled(rows[k].oil) + Filled(rows[k].water) > 0.0
  }

  ghost predicate EverInjects(rows: seq<Row>, well: string) {
    exists k :: 0 <= k < |rows| && rows[k].well == well && Filled(rows[k].inj) > 0.0
  }

  lemma {:induction false} ActiveFrom(steps: seq<Step>, j: nat) returns (i: nat)
    requires j < |Active(steps)|
    ensures i < |steps| && steps[i] == Active(steps)[j]
  {
    var front := steps[..|steps| - 1];
    if j < |Active(front)| {
      i := ActiveFrom(front, j);
    } else {
      i := |steps| - 1;
    }
  }

  lemma {:induction false} StepFrom(rows: seq<Row>, well: string, n: nat, j: nat) returns (k: nat)
    requires n <= |rows| && j < |StepsOf(rows, well, n)|
    ensures k < n && rows[k].well == well && StepsOf(rows, well, n)[j].mode == Classify(rows[k])
  {
    if j < |StepsOf(rows, well, n - 1)| {
      k := StepFrom(rows, well, n - 1, j);
    } else {
      k := n - 1;
    }
  }

  /** A mode is seen among a well's active steps exactly when one of its rows has it. */
  lemma SeenIff(rows: seq<Row>, well: string, m: Mode)
    requires m != IdleStep
    ensures Seen(Active(StepsOf(rows, well, |rows|)), m)
            <==> exists k :: 0 <= k < |rows| && rows[k].well == well && Classify(rows[k]) == m
  {
    var steps := StepsOf(rows, well, |rows|);
    if j :| 0 <= j < |Active(steps)| && Active(steps)[j].mode == m {
      var i := ActiveFrom(steps, j);
      var k := StepFrom(rows, well, |rows|, i);
    }
    if k :| 0 <= k < |rows| && rows[k].well == well && Classify(rows[k]) == m {
      var j := StepIn(rows, well, |rows|, k);
      ActiveKeeps(steps, j);
    }
  }

  /** A well is a producer when it only ever produces, an injector when it only ever injects, mixed when it does both. */
  lemma KindIff(rows: seq<Row>, well: string)
    ensures DerivedKind(rows, well) == PROD <==> EverProduces(rows, well) && !EverInjects(rows, well)
    ensures DerivedKind(rows, well) == INJ <==> !EverProduces(rows, well) && EverInjects(rows, well)
    ensures DerivedKind(rows, well) == MIXED <==> EverProduces(rows, well) && EverInjects(rows, well)
    ensures DerivedKind(rows, well) == NONE <==> !EverProduces(rows, well) && !EverInjects(rows, well)
  {
    SeenIff(rows, well, ProdStep);
    SeenIff(rows, well, InjStep);
    SeenIff(rows, well, BothStep);
    if k :| 0 <= k < |rows| && rows[k].well == well && Filled(rows[k].oil) + Filled(rows[k].water) > 0.0 {
      assert Classify(rows[k]) == ProdStep || Classify(rows[k]) == BothStep;
    }
    if k :| 0 <= k < |rows| && rows[k].well == well && Filled(rows[k].inj) > 0.0 {
      assert Classify(rows[k]) == InjStep || Classify(rows[k]) == BothStep;
    }
  }

  /** What becomes of row r as an entity of the role, when its well has the other role as well or not. */
  ghost predicate IsEntityOf(e: Entity, r: Row, role: Role, both: bool) {
    && e.role == role
    && (both && role == Producer ==> e.name == r.well + "@P" && e.row == r.(inj := Some(0.0)))
    && (both && role == Injector ==>
          e.name == r.well + "@I" && e.row == r.(oil := Some(0.0), water := Some(0.0), gas := Some(0.0)))
    && (!both ==> e.name == r.well && e.row == r)
  }

  lemma {:induction false} ProducingFrom(rows: seq<Row>, well: string, n: nat, i: nat) returns (k: nat)
    requires n <= |rows| && i < |ProducingRows(rows, well, n)|
    ensures k < n && rows[k].well == well && Filled(rows[k].oil) + Filled(rows[k].water) > 0.0
    ensures IsEntityOf(ProducingRows(rows, well, n)[i], rows[k], Producer, true)
  {
    if i < |ProducingRows(rows, well, n - 1)| {
      k := ProducingFrom(rows, well, n - 1, i);
    } else {
      k := n - 1;
    }
  }

  lemma {:induction false} InjectingFrom(rows: seq<Row>, well: string, n: nat, i: nat) returns (k: nat)
    requires n <= |rows| && i < |InjectingRows(rows, well, n)|
    ensures k < n && rows[k].well == well && Filled(rows[k].inj) > 0.0
    ensures IsEntityOf(InjectingRows(rows, well, n)[i], rows[k], Injector, true)
  {
    if i < |InjectingRows(rows, well, n - 1)| {
      k := InjectingFrom(rows, well, n - 1, i);
    } else {
      k := n - 1;
    }
  }

  lemma {:induction false} WholeFrom(rows: seq<Row>, well: string, role: Role, n: nat, i: nat) returns (k: nat)
    requires n <= |rows| && i < |WholeRows(rows, well, role, n)|
    ensures k < n && rows[k].well == well && IsEntityOf(WholeRows(rows, well, role, n)[i], rows[k], role, false)
  {
    if i < |WholeRows(rows, well, role, n - 1)| {
      k := WholeFrom(rows, well, role, n - 1, i);
    } else {
      k := n - 1;
    }
  }

  /** An entity of a well is one of its rows in a role the well has, and in that role's row only when it has both. */
  ghost predicate IsFrom(rows: seq<Row>, e: Entity, k: nat) {
    && k < |rows|
    && var p, i := EverProduces(rows, rows[k].well), EverInjects(rows, rows[k].well);
       && (if e.role == Producer then p else i)
       && IsEntityOf(e, rows[k], e.role, p && i)
       && (p && i ==> if e.role == Producer then Filled(rows[k].oil) + Filled(rows[k].water) > 0.0 else Filled(rows[k].inj) > 0.0)
  }

  lemma WellFrom(rows: seq<Row>, well: string, i: nat) returns (k: nat)
    requires i < |SplitWell(rows, well, DerivedKind(rows, well))|
    ensures IsFrom(rows, SplitWell(rows, well, DerivedKind(rows, well))[i], k) && rows[k].well == well
  {
    KindIff(rows, well);
    match DerivedKind(rows, well)
    case MIXED =>
      var p := ProducingRows(rows, well, |rows|);
      if i < |p| {
        k := ProducingFrom(rows, well, |rows|, i);
      } else {
        k := InjectingFrom(rows, well, |rows|, i - |p|);
      }
    case PROD => k := WholeFrom(rows, well, Producer, |rows|, i);
    case INJ => k := WholeFrom(rows, well, Injector, |rows|, i);
  }

  /** Every entity row of the split is a row of the table in the role its well has there. */
  lemma {:induction false} SplitFrom(rows: seq<Row>, types: seq<Typed>, n: nat, i: nat) returns (k: nat)
    requires IsTyping(rows, types) && n <= |types| && i < |SplitAll(rows, types, n)|
    ensures IsFrom(rows, SplitAll(rows, types, n)[i], k)
  {
    var before := SplitAll(rows, types, n - 1);
    if i < |before| {
      k := SplitFrom(rows, types, n - 1, i);
    } else {
      k := WellFrom(rows, types[n - 1].well, i - |before|);
    }
  }

  lemma {:induction false} ProducingHas(rows: seq<Row>, well: string, n: nat, k: nat) returns (i: nat)
    requires k < n <= |rows| && rows[k].well == well && Filled(rows[k].oil) + Filled(rows[k].water) > 0.0
    ensures i < |ProducingRows(rows, well, n)| && IsEntityOf(ProducingRows(rows, well, n)[i], rows[k], Producer, true)
  {
    if k < n - 1 {
      i := ProducingHas(rows, well, n - 1, k);
    } else {
      i := |ProducingRows(rows, well, n - 1)|;
    }
  }

  lemma {:induction false} InjectingHas(rows: seq<Row>, well: string, n: nat, k: nat) returns (i: nat)
    requires k < n <= |rows| && rows[k].well == well && Filled(rows[k].inj) > 0.0
    ensures i < |InjectingRows(rows, well, n)| && IsEntityOf(InjectingRows(rows, well, n)[i], rows[k], Injector, true)
  {
    if k < n - 1 {
      i := InjectingHas(rows, well, n - 1, k);
    } else {
      i := |InjectingRows(rows, well, n - 1)|;
    }
  }

  lemma {:induction false} WholeHas(rows: seq<Row>, well: string, role: Role, n: nat, k: nat) returns (i: nat)
    requires k < n <= |rows| && rows[k].well == well
    ensures i < |WholeRows(rows, well, role, n)| && IsEntityOf(WholeRows(rows, well, role, n)[i], rows[k], role, false)
  {
    if k < n - 1 {
      i := WholeHas(rows, well, role, n - 1, k);
    } else {
      i := |WholeRows(rows, well, role, n - 1)|;
    }
  }

  /** Row k is due in a role: its well has that role, and the row shows it if the well has both. */
  ghost predicate IsDue(rows: seq<Row>, k: nat, role: Role) {
    && k < |rows|
    && var p, i := EverProduces(rows, rows[k].well), EverInjects(rows, rows[k].well);
       if role == Producer then p && (i ==> Filled(rows[k].oil) + Filled(rows[k].water) > 0.0)
       else i && (p ==> Filled(rows[k].inj) > 0.0)
  }

  lemma WellHas(rows: seq<Row>, k: nat, role: Role) returns (i: nat)
    requires IsDue(rows, k, role)
    ensures var well := rows[k].well;
            var s := SplitWell(rows, well, DerivedKind(rows, well));
            i < |s| && IsEntityOf(s[i], rows[k], role, EverProduces(rows, well) && EverInjects(rows, well))
  {
    var well := rows[k].well;
    KindIff(rows, well);
    if !(EverProduces(rows, well) && EverInjects(rows, well)) {
      i := WholeHas(rows, well, role, |rows|, k);
    } else if role == Producer {
      i := ProducingHas(rows, well, |rows|, k);
    } else {
      var j := InjectingHas(rows, well, |rows|, k);
      i := |ProducingRows(rows, well, |rows|)| + j;
    }
  }

  lemma {:induction false} SplitIncludes(rows: seq<Row>, types: seq<Typed>, n: nat, a: nat, j: nat) returns (i: nat)
    requires a < n <= |types| && j < |SplitWell(rows, types[a].well, types[a].kind)|
    ensures i < |SplitAll(rows, types, n)| && SplitAll(rows, types, n)[i] == SplitWell(rows, types[a].well, types[a].kind)[j]
  {
    if a < n - 1 {
      i := SplitIncludes(rows, types, n - 1, a, j);
    } else {
      i := |SplitAll(rows, types, n - 1)| + j;
    }
  }

  /** And every row of the table is in the split in every role it is due in. */
  lemma SplitHas(rows: seq<Row>, types: seq<Typed>, k: nat, role: Role) returns (i: nat)
    requires IsTyping(rows, types) && IsDue(rows, k, role)
    ensures i < |SplitAll(rows, types, |types|)|
    ensures IsEntityOf(SplitAll(rows, types, |types|)[i], rows[k], role,
                       EverProduces(rows, rows[k].well) && EverInjects(rows, rows[k].well))
  {
    var a :| 0 <= a < |types| && types[a].well == rows[k].well;
    var j := WellHas(rows, k, role);
    i := SplitIncludes(rows, types, |types|, a, j);
  }
}
