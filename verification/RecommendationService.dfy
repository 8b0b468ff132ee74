/**
 The persistence steps around the lifecycle (waterflood_app/api/service.py): every request loads the record, acts on
 a fresh object and overwrites the stored row only when nothing refused. Requests are served one at a time.
 */
module RecommendationService {
  import opened Common
  import opened Lifecycle

  datatype Order =
    | ToReview
    | ToApprove(reason: Option<string>)
    | ToReject
    | ToImplement(actual: map<string, real>)
    | Unknown(name: string)

  datatype Request =
    | Propose(proposal: Proposal)
    | Move(id: string, actor: Actor, allowed: bool, order: Order, note: string)
    | AddEvaluation(id: string, actor: Actor, allowed: bool, record: string, note: string)

  datatype Reply = Served | Refused

  type Table = map<string, Record>

  ghost predicate AllLawful(recs: Table) {
    forall id :: id in recs ==> Lawful(recs[id]) && recs[id].proposal.id == id
  }

  /** Nothing is lost, and every record evolves. */
  ghost predicate TableEvolves(before: Table, after: Table) {
    forall id :: id in before ==> id in after && Evolves(before[id], after[id])
  }

  lemma TableEvolvesTransitive(a: Table, b: Table, c: Table)
    requires TableEvolves(a, b) && TableEvolves(b, c)
    ensures TableEvolves(a, c)
  {
    forall id | id in a
      ensures id in c && Evolves(a[id], c[id])
    {
      EvolvesTransitive(a[id], b[id], c[id]);
    }
  }

  /** Overwriting one row with a lawful successor. */
  lemma Stored(recs: Table, id: string, r: Record)
    requires AllLawful(recs) && id in recs && Lawful(r) && Evolves(recs[id], r)
    ensures AllLawful(recs[id := r]) && TableEvolves(recs, recs[id := r])
  {
  }

  lemma Inserted(recs: Table, p: Proposal)
    requires AllLawful(recs) && p.id !in recs
    ensures AllLawful(recs[p.id := NewDraft(p)]) && TableEvolves(recs, recs[p.id := NewDraft(p)])
  {
    DraftIsLawful(p);
  }

  lemma EvaluatedIsLawful(r: Record, actor: Actor, record: string, note: string)
    requires Lawful(r) && (r.state == EVALUATED || Check(r, Evaluate, actor).Some?)
    ensures var after := if r.state == EVALUATED then r.(evaluations := r.evaluations + [record]) else Evaluated(r, actor, record, note);
            Lawful(after) && Evolves(r, after)
  {
    if r.state != EVALUATED {
      EvaluateIsLawful(r, actor, record, note);
    }
  }

  /** Roles that may enter an evaluation; an administrator always may. */
  predicate MayEvaluate(role: Role) {
    role in {Engineer, Reviewer, Operations, Admin}
  }

  /** The table after the first n requests, one at a time. */
  ghost function TableAfter(answer: (Table, Request) -> (Table, Reply), before: Table, requests: seq<Request>, n: nat): Table
    requires n <= |requests|
  {
    if n == 0 then before else answer(TableAfter(answer, before, requests, n - 1), requests[n - 1]).0
  }

  /** The first n requests lead from one table to another, with these replies. */
  ghost predicate LedTo(
      answer: (Table, Request) -> (Table, Reply), before: Table, after: Table, requests: seq<Request>, replies: seq<Reply>, n: nat)
  {
    && n <= |requests| && |replies| == n && after == TableAfter(answer, before, requests, n)
    && forall k :: 0 <= k < n ==> Replied(answer, before, requests, replies, k)
  }

  ghost predicate Replied(
      answer: (Table, Request) -> (Table, Reply), before: Table, requests: seq<Request>, replies: seq<Reply>, k: int)
  {
    0 <= k < |requests| && k < |replies| && replies[k] == answer(TableAfter(answer, before, requests, k), requests[k]).1
  }

  lemma LedOn(
      answer: (Table, Request) -> (Table, Reply), before: Table, was: Table, now: Table, requests: seq<Request>,
      replies: seq<Reply>, n: nat, reply: Reply)
    requires n < |requests| && LedTo(answer, before, was, requests, replies, n) && (now, reply) == answer(was, requests[n])
    ensures LedTo(answer, before, now, requests, replies + [reply], n + 1)
  {
    var later := replies + [reply];
    forall k | 0 <= k < n
      ensures Replied(answer, before, requests, later, k)
    {
      assert Replied(answer, before, requests, replies, k);
      assert later[k] == replies[k];
    }
    assert Replied(answer, before, requests, later, n);
  }

  class Service {
    var recs: Table
    const policy: Policy
    const rate: real  // displayed rates per internal rate

    constructor (policy: Policy, rate: real)
      requires rate != 0.0
      ensures recs == map[] && this.policy == policy && this.rate == rate
    {
      this.policy, this.rate, recs := policy, rate, map[];
    }

    /** Displayed rates in internal units. */
    function Internal(actual: map<string, real>): map<string, real>
      requires rate != 0.0
    {
      map w | w in actual :: actual[w] / rate
    }

    /** Converting back for display gives every well's rate as it was entered. */
    lemma InternalDisplaysBack(actual: map<string, real>, w: string)
      requires rate != 0.0 && w in actual
      ensures Internal(actual).Keys == actual.Keys && Internal(actual)[w] * rate == actual[w]
    {
      assert Internal(actual)[w] == actual[w] / rate;
    }

    /** What a transition that is not refused stores. */
    ghost function Moved(r: Record, actor: Actor, order: Order, note: string): Option<Record>
      requires rate != 0.0
    {
      match order
      case ToReview => if Check(r, Review, actor).Some? then Some(Logged(r, Review, actor, REVIEWED, note, Plain)) else None
      case ToApprove(reason) => if CanApprove(r, actor, policy, reason) then Some(Approved(r, actor, reason, note)) else None
      case ToReject => if Check(r, Reject, actor).Some? then Some(Logged(r, Reject, actor, REJECTED, note, Plain)) else None
      case ToImplement(actual) =>
        if actual != map[] && Check(r, Implement, actor).Some? then Some(Implemented(r, actor, Internal(actual), note)) else None
      case Unknown(_) => None
    }

    /** Acts on the object; whatever a refusal leaves in it is dropped with it. */
    method Act(rec: Recommendation, actor: Actor, order: Order, note: string) returns (done: bool)
      requires rate != 0.0
      modifies rec
      ensures done == Moved(old(rec.Value()), actor, order, note).Some?
      ensures done ==> rec.Value() == Moved(old(rec.Value()), actor, order, note).value
    {
      match order {
        case ToReview =>
          done := rec.Review(actor, note);
        case ToApprove(reason) =>
          done := rec.Approve(actor, policy, reason, note);
        case ToReject =>
          done := rec.Reject(actor, note);
        case ToImplement(actual) =>
          if actual == map[] {
            done := false;
          } else {
            done := rec.Implement(actor, Internal(actual), note);
          }
        case Unknown(_) =>
          done := false;
      }
    }

    method Move(id: string, actor: Actor, allowed: bool, order: Order, note: string) returns (reply: Reply)
      requires rate != 0.0
      modifies this`recs
      ensures reply.Served? <==>
        id in old(recs) && allowed && actor.Valid() && Moved(old(recs)[id], actor, order, note).Some?
      ensures reply.Served? ==> recs == old(recs)[id := Moved(old(recs)[id], actor, order, note).value]
      ensures reply.Refused? ==> recs == old(recs)
    {
      if id !in recs || !allowed || !actor.Valid() {
        return Refused;
      }
      var rec := new Recommendation(recs[id]);
      var done := Act(rec, actor, order, note);
      if !done {
        return Refused;
      }
      recs := recs[id := rec.Value()];
      reply := Served;
    }

    /** The first evaluation moves an implemented record on; later ones are only appended, without an event. */
    method AddEvaluation(id: string, actor: Actor, allowed: bool, record: string, note: string) returns (reply: Reply)
      modifies this`recs
      ensures reply.Served? <==>
        && (actor.actingRole == Engineer || actor.actingRole == Reviewer || actor.actingRole == Operations
            || actor.actingRole == Admin)
        && id in old(recs) && allowed && actor.Valid()
        && (old(recs)[id].state == EVALUATED || Check(old(recs)[id], Evaluate, actor).Some?)
      ensures reply.Served? ==> recs == old(recs)[id :=
        if old(recs)[id].state == EVALUATED then old(recs)[id].(evaluations := old(recs)[id].evaluations + [record])
        else Evaluated(old(recs)[id], actor, record, note)]
      ensures reply.Refused? ==> recs == old(recs)
    {
      if !MayEvaluate(actor.actingRole) || id !in recs || !allowed {
        return Refused;
      }
      var rec := new Recommendation(recs[id]);
      if (rec.state != IMPLEMENTED && rec.state != EVALUATED) || !actor.Valid() {
        return Refused;
      }
      if rec.state == IMPLEMENTED {
        var done := rec.Evaluate(actor, record, note);
        if !done {
          return Refused;
        }
      } else {
        rec.evaluations := rec.evaluations + [record];
      }
      recs := recs[id := rec.Value()];
      reply := Served;
    }

    /** The table and reply a request leads to. */
    ghost function Outcome(before: Table, q: Request): (Table, Reply)
      requires rate != 0.0
    {
      match q
      case Propose(p) => if p.id in before then (before, Refused) else (before[p.id := NewDraft(p)], Served)
      case Move(id, actor, allowed, order, note) =>
        if id in before && allowed && actor.Valid() && Moved(before[id], actor, order, note).Some?
        then (before[id := Moved(before[id], actor, order, note).value], Served) else (before, Refused)
      case AddEvaluation(id, actor, allowed, record, note) =>
        if !(MayEvaluate(actor.actingRole) && id in before && allowed && actor.Valid()) then (before, Refused)
        else if before[id].state == EVALUATED then
          (before[id := before[id].(evaluations := before[id].evaluations + [record])], Served)
        else if Check(before[id], Evaluate, actor).Some? then (before[id := Evaluated(before[id], actor, record, note)], Served)
        else (before, Refused)
    }

    /** The service as a function of table and request. */
    ghost function Answer(): (answer: (Table, Request) -> (Table, Reply))
      requires rate != 0.0
      ensures forall before: Table, q: Request :: answer(before, q) == Outcome(before, q)
    {
      (before: Table, q: Request) => if rate != 0.0 then Outcome(before, q) else (before, Refused)
    }

    lemma OutcomeOfMove(
        before: Table, after: Table, reply: Reply, id: string, actor: Actor, allowed: bool, order: Order, note: string)
      requires rate != 0.0
      requires reply.Served? <==> id in before && allowed && actor.Valid() && Moved(before[id], actor, order, note).Some?
      requires after == if reply.Served? then before[id := Moved(before[id], actor, order, note).value] else before
      ensures (after, reply) == Outcome(before, Request.Move(id, actor, allowed, order, note))
    {
    }

    lemma OutcomeOfEvaluation(
        before: Table, after: Table, reply: Reply, id: string, actor: Actor, allowed: bool, record: string, note: string)
      requires rate != 0.0
      requires reply.Served? <==>
        && MayEvaluate(actor.actingRole) && id in before && allowed && actor.Valid()
        && (before[id].state == EVALUATED || Check(before[id], Evaluate, actor).Some?)
      requires reply.Served? ==> after == before[id :=
        if before[id].state == EVALUATED then before[id].(evaluations := before[id].evaluations + [record])
        else Evaluated(before[id], actor, record, note)]
      requires reply.Refused? ==> after == before
      ensures (after, reply) == Outcome(before, Request.AddEvaluation(id, actor, allowed, record, note))
    {
    }

    /** One request, whatever it is: the table stays lawful, records only evolve, a refusal changes nothing. */
    method Serve(q: Request) returns (reply: Reply)
      requires rate != 0.0 && AllLawful(recs)
      modifies this`recs
      ensures AllLawful(recs) && TableEvolves(old(recs), recs)
      ensures reply.Refused? ==> recs == old(recs)
      ensures (recs, reply) == Outcome(old(recs), q)
    {
      match q {
        case Propose(p) =>
          if p.id in recs {
            return Refused;
          }
          Inserted(recs, p);
          recs := recs[p.id := NewDraft(p)];
          reply := Served;
        case Move(id, actor, allowed, order, note) =>
          ghost var was := recs;
          reply := Move(id, actor, allowed, order, note);
          if reply.Served? {
            MovedIsLawful(was[id], actor, order, note);
            Stored(was, id, Moved(was[id], actor, order, note).value);
          }
          OutcomeOfMove(was, recs, reply, id, actor, allowed, order, note);
        case AddEvaluation(id, actor, allowed, record, note) =>
          ghost var was := recs;
          reply := AddEvaluation(id, actor, allowed, record, note);
          if reply.Served? {
            EvaluatedIsLawful(was[id], actor, record, note);
            Stored(was, id, recs[id]);
          }
          OutcomeOfEvaluation(was, recs, reply, id, actor, allowed, record, note);
      }
    }

    lemma MovedIsLawful(r: Record, actor: Actor, order: Order, note: string)
      requires rate != 0.0 && Lawful(r) && Moved(r, actor, order, note).Some?
      ensures Lawful(Moved(r, actor, order, note).value) && Evolves(r, Moved(r, actor, order, note).value)
    {
      match order
      case ToReview => ReviewIsLawful(r, actor, note);
      case ToApprove(reason) => ApproveIsLawful(r, actor, policy, reason, note);
      case ToReject => RejectIsLawful(r, actor, note);
      case ToImplement(actual) => ImplementIsLawful(r, actor, Internal(actual), note);
    }

    /** A whole run of requests: from an empty table or any lawful one, every stored record is lawful at every point. */
    method Run(requests: seq<Request>) returns (replies: seq<Reply>)
      requires rate != 0.0 && AllLawful(recs)
      modifies this`recs
      ensures |replies| == |requests| && AllLawful(recs) && TableEvolves(old(recs), recs)
      ensures LedTo(Answer(), old(recs), recs, requests, replies, |requests|)
    {
      replies := [];
      ghost var answer := Answer();
      for n := 0 to |requests|
        invariant AllLawful(recs) && TableEvolves(old(recs), recs)
        invariant LedTo(answer, old(recs), recs, requests, replies, n)
      {
        ghost var was := recs;
        var reply := Serve(requests[n]);
        TableEvolvesTransitive(old(recs), was, recs);
        LedOn(answer, old(recs), was, recs, requests, replies, n, reply);
        replies := replies + [reply];
      }
    }
  }
}
