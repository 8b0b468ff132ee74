/** The recommendation lifecycle (waterflood_app/workflow/states.py). */
module Lifecycle {
  import opened Common

  datatype State = DRAFT | REVIEWED | APPROVED | IMPLEMENTED | EVALUATED | REJECTED

  datatype Action = Review | Approve | Reject | Implement | Evaluate

  datatype Role = Viewer | Engineer | Reviewer | Approver | Operations | Admin

  datatype Policy = LogOnly | Enforce

  datatype Confidence = High | Medium | Low

  datatype Actor = Actor(user: string, actingRole: Role, roles: set<Role>) {
    /** An actor may act in a role it holds; an administrator in any; no role list means no check. */
    predicate Valid() {
      roles == {} || actingRole in roles || Admin in roles
    }
  }

  function Transition(from: State, action: Action): Option<State> {
    match (from, action)
    case (DRAFT, Review) => Some(REVIEWED)
    case (REVIEWED, Approve) => Some(APPROVED)
    case (REVIEWED, Reject) => Some(REJECTED)
    case (DRAFT, Reject) => Some(REJECTED)
    case (APPROVED, Implement) => Some(IMPLEMENTED)
    case (IMPLEMENTED, Evaluate) => Some(EVALUATED)
    case _ => None
  }

  function RequiredRole(action: Action): set<Role> {
    match action
    case Review => {Reviewer, Admin}
    case Approve => {Approver, Admin}
    case Reject => {Reviewer, Approver, Admin}
    case Implement => {Operations, Admin}
    case Evaluate => {Engineer, Reviewer, Admin}
  }

  datatype Extra =
    | Plain
    | Approval(byOriginator: bool, reason: Option<string>)
    | Deviations(off: map<string, real>)
    | Outcome(outcome: string)

  datatype Event = Event(action: Action, actor: string, actingRole: Role, from: State, to: State, note: string, extra: Extra)

  /** What approval freezes. */
  datatype Snapshot = Snapshot(dataHash: string, configHash: string, modelVersion: string, rates: map<string, real>, confidence: Confidence)

  /** What never changes about a recommendation. */
  datatype Proposal = Proposal(
    id: string, originator: string, dataHash: string, configHash: string, modelVersion: string, rates: map<string, real>, confidence: Confidence)
  {
    function Frozen(): Snapshot {
      Snapshot(dataHash, configHash, modelVersion, rates, confidence)
    }
  }

  /** A recommendation as it is stored. */
  datatype Record = Record(
    proposal: Proposal,
    state: State,
    history: seq<Event>,
    snapshot: Option<Snapshot>,
    implementedRates: map<string, real>,
    approvedByOriginator: bool,
    overrideReason: Option<string>,
    evaluations: seq<string>)

  function NewDraft(p: Proposal): Record {
    Record(p, DRAFT, [], None, map[], false, None, [])
  }

  // ---------------------------------------------------------------- what each action does

  function Check(r: Record, action: Action, actor: Actor): Option<State> {
    if Transition(r.state, action).None? || actor.actingRole !in RequiredRole(action) then None
    else Transition(r.state, action)
  }

  function Logged(r: Record, action: Action, actor: Actor, to: State, note: string, extra: Extra): Record {
    r.(history := r.history + [Event(action, actor.user, actor.actingRole, r.state, to, note, extra)], state := to)
  }

  /** A text that is there and not empty. */
  predicate IsGiven(text: Option<string>) {
    text.Some? && text.value != ""
  }

  function Given(text: Option<string>, otherwise: string): string {
    if IsGiven(text) then text.value else otherwise
  }

  /** Approval passes the table, the separation of duties, and the override a LOW confidence needs. */
  predicate CanApprove(r: Record, actor: Actor, policy: Policy, reason: Option<string>) {
    && Check(r, Approve, actor).Some?
    && !(actor.user == r.proposal.originator && policy == Enforce)
    && (r.proposal.confidence == Low ==> IsGiven(reason))
  }

  function Approved(r: Record, actor: Actor, reason: Option<string>, note: string): Record {
    var flag := r.approvedByOriginator || actor.user == r.proposal.originator;
    Logged(r.(approvedByOriginator := flag,
              overrideReason := if r.proposal.confidence == Low then reason else r.overrideReason,
              snapshot := Some(r.proposal.Frozen())),
           Approve, actor, APPROVED, note, Approval(flag, reason))
  }

  /** What a refused approval leaves behind in the object: the flag, when it was set before the refusal. */
  function AfterRefusedApproval(r: Record, actor: Actor, policy: Policy): Record {
    if Check(r, Approve, actor).Some? && actor.user == r.proposal.originator && policy != Enforce
    then r.(approvedByOriginator := true) else r
  }

  function Rate(rates: map<string, real>, well: string): real {
    if well in rates then rates[well] else 0.0
  }

  /** Wells set more than rounding away from the plan, and by how much. */
  function OffPlan(plan: map<string, real>, actual: map<string, real>): map<string, real> {
    map w | w in plan && Abs(Rate(actual, w) - plan[w]) > 0.000000001 :: Rate(actual, w) - plan[w]
  }

  function Implemented(r: Record, actor: Actor, actual: map<string, real>, note: string): Record {
    Logged(r.(implementedRates := actual), Implement, actor, IMPLEMENTED, note, Deviations(OffPlan(r.proposal.rates, actual)))
  }

  function Evaluated(r: Record, actor: Actor, record: string, note: string): Record {
    Logged(r.(evaluations := r.evaluations + [record]), Evaluate, actor, EVALUATED, note, Outcome(record))
  }

  // ---------------------------------------------------------------- the object

  class Recommendation {
    const proposal: Proposal
    var state: State
    var history: seq<Event>
    var snapshot: Option<Snapshot>
    var implementedRates: map<string, real>
    var approvedByOriginator: bool
    var overrideReason: Option<string>
    var evaluations: seq<string>

    function Value(): Record
      reads this
    {
      Record(proposal, state, history, snapshot, implementedRates, approvedByOriginator, overrideReason, evaluations)
    }

    /** Rebuilt from the stored row. */
    constructor (r: Record)
      ensures Value() == r
    {
      proposal := r.proposal;
      state, history, snapshot, implementedRates := r.state, r.history, r.snapshot, r.implementedRates;
      approvedByOriginator, overrideReason, evaluations := r.approvedByOriginator, r.overrideReason, r.evaluations;
    }

    method Log(action: Action, actor: Actor, to: State, note: string, extra: Extra)
      modifies this`history, this`state
      ensures Value() == Logged(old(Value()), action, actor, to, note, extra)
    {
      history := history + [Event(action, actor.user, actor.actingRole, state, to, note, extra)];
      state := to;
    }

    method Review(actor: Actor, note: string) returns (done: bool)
      modifies this
      ensures done == Check(old(Value()), Action.Review, actor).Some?
      ensures Value() == if done then Logged(old(Value()), Action.Review, actor, REVIEWED, note, Plain) else old(Value())
    {
      var next := Check(Value(), Action.Review, actor);
      done := next.Some?;
      if done {
        Log(Action.Review, actor, next.value, note, Plain);
      }
    }

    method Approve(actor: Actor, policy: Policy, reason: Option<string>, note: string) returns (done: bool)
      modifies this
      ensures done == CanApprove(old(Value()), actor, policy, reason)
      ensures done ==> Value() == Approved(old(Value()), actor, reason, note)
      ensures !done ==> Value() == AfterRefusedApproval(old(Value()), actor, policy)
    {
      var next := Check(Value(), Action.Approve, actor);
      if next.None? {
        return false;
      }
      if actor.user == proposal.originator {
        if policy == Enforce {
          return false;
        }
        approvedByOriginator := true;
      }
      if proposal.confidence == Low {
        if !IsGiven(reason) {
          return false;
        }
        overrideReason := reason;
      }
      snapshot := Some(proposal.Frozen());
      Log(Action.Approve, actor, next.value, note, Approval(approvedByOriginator, reason));
      done := true;
    }

    method Reject(actor: Actor, note: string) returns (done: bool)
      modifies this
      ensures done == Check(old(Value()), Action.Reject, actor).Some?
      ensures Value() == if done then Logged(old(Value()), Action.Reject, actor, REJECTED, note, Plain) else old(Value())
    {
      var next := Check(Value(), Action.Reject, actor);
      done := next.Some?;
      if done {
        Log(Action.Reject, actor, next.value, note, Plain);
      }
    }

    method Implement(actor: Actor, actual: map<string, real>, note: string) returns (done: bool)
      modifies this
      ensures done == Check(old(Value()), Action.Implement, actor).Some?
      ensures Value() == if done then Implemented(old(Value()), actor, actual, note) else old(Value())
    {
      var next := Check(Value(), Action.Implement, actor);
      done := next.Some?;
      if done {
        implementedRates := actual;
        Log(Action.Implement, actor, next.value, note, Deviations(OffPlan(proposal.rates, actual)));
      }
    }

    method Evaluate(actor: Actor, record: string, note: string) returns (done: bool)
      modifies this
      ensures done == Check(old(Value()), Action.Evaluate, actor).Some?
      ensures Value() == if done then Evaluated(old(Value()), actor, record, note) else old(Value())
    {
      var next := Check(Value(), Action.Evaluate, actor);
      done := next.Some?;
      if done {
        evaluations := evaluations + [record];
        Log(Action.Evaluate, actor, next.value, note, Outcome(record));
      }
    }

    /** Edits after approval start over as a new draft of the editing user; missing hashes are taken over. */
    method Redraft(
        actor: Actor, id: string, rates: map<string, real>, confidence: Confidence,
        dataHash: Option<string>, configHash: Option<string>)
      returns (draft: Recommendation)
      ensures fresh(draft)
      ensures draft.Value() == NewDraft(Proposal(
        id, actor.user, Given(dataHash, proposal.dataHash), Given(configHash, proposal.configHash), proposal.modelVersion,
        rates, confidence))
      ensures draft.proposal.originator == actor.user && draft.proposal.modelVersion == proposal.modelVersion
      ensures dataHash.Some? && |dataHash.value| > 0 ==> draft.proposal.dataHash == dataHash.value
      ensures dataHash.None? || |dataHash.value| == 0 ==> draft.proposal.dataHash == proposal.dataHash
      ensures configHash.Some? && |configHash.value| > 0 ==> draft.proposal.configHash == configHash.value
      ensures configHash.None? || |configHash.value| == 0 ==> draft.proposal.configHash == proposal.configHash
    {
      var data, config := Given(dataHash, proposal.dataHash), Given(configHash, proposal.configHash);
      draft := new Recommendation(NewDraft(Proposal(id, actor.user, data, config, proposal.modelVersion, rates, confidence)));
    }
  }

  // ---------------------------------------------------------------- who may do what, and what it stores

  /** An action passes its checks exactly in its state and for its roles. */
  lemma CheckIff(r: Record, action: Action, actor: Actor)
    ensures Check(r, action, actor).Some? <==>
      || (action == Review && r.state == DRAFT && (actor.actingRole == Reviewer || actor.actingRole == Admin))
      || (action == Approve && r.state == REVIEWED && (actor.actingRole == Approver || actor.actingRole == Admin))
      || (action == Reject && (r.state == DRAFT || r.state == REVIEWED)
          && (actor.actingRole == Reviewer || actor.actingRole == Approver || actor.actingRole == Admin))
      || (action == Implement && r.state == APPROVED && (actor.actingRole == Operations || actor.actingRole == Admin))
      || (action == Evaluate && r.state == IMPLEMENTED
          && (actor.actingRole == Engineer || actor.actingRole == Reviewer || actor.actingRole == Admin))
  {
  }

  /** Approval from REVIEWED by an approver, not by the originator where that is enforced, and with a reason when confidence is low. */
  lemma ApprovalIff(r: Record, actor: Actor, policy: Policy, reason: Option<string>)
    ensures CanApprove(r, actor, policy, reason) <==>
      && r.state == REVIEWED && (actor.actingRole == Approver || actor.actingRole == Admin)
      && (policy == Enforce ==> actor.user != r.proposal.originator)
      && (r.proposal.confidence == Low ==> reason.Some? && |reason.value| > 0)
  {
    CheckIff(r, Approve, actor);
  }

  /** Somebody without a list of roles, or with the administrator's, acts in any role; anybody else in the roles on the list. */
  lemma ActsInHeldRole(actor: Actor)
    ensures actor.Valid() <==> (forall role :: role !in actor.roles) || Admin in actor.roles || actor.actingRole in actor.roles
  {
    if forall role :: role !in actor.roles {
      assert actor.roles == {};
    }
  }

  /** Plan and deviation add up to the actual rate, a missing one counting as zero; rounding is no deviation. */
  lemma PlanPlusDeviation(plan: map<string, real>, actual: map<string, real>, well: string)
    requires well in plan
    ensures var rate := if well in actual then actual[well] else 0.0;
            var off := OffPlan(plan, actual);
            && (well in off <==> rate < plan[well] - 0.000000001 || plan[well] + 0.000000001 < rate)
            && (well in off ==> plan[well] + off[well] == rate)
            && off.Keys <= plan.Keys
  {
  }

  // ---------------------------------------------------------------- what holds of every stored record

  /** The events lead from DRAFT to the state through the table, each by an actor of a required role. */
  ghost predicate IsPath(history: seq<Event>, state: State)
    decreases |history|
  {
    if history == [] then state == DRAFT
    else
      var e := history[|history| - 1];
      && e.to == state && Transition(e.from, e.action) == Some(state) && e.actingRole in RequiredRole(e.action)
      && IsPath(history[..|history| - 1], e.from)
  }

  predicate Signed(s: State) {
    s == APPROVED || s == IMPLEMENTED || s == EVALUATED
  }

  /** Position of the approval among the events, or their number. */
  function ApprovalAt(history: seq<Event>): (k: nat)
    ensures k <= |history|
    ensures k < |history| ==> history[k].action == Approve
    ensures k == |history| ==> forall i :: 0 <= i < |history| ==> history[i].action != Approve
  {
    if history == [] then 0
    else
      var k := ApprovalAt(history[..|history| - 1]);
      if k < |history| - 1 then k
      else if history[|history| - 1].action == Approve then |history| - 1
      else |history|
  }

  ghost predicate Lawful(r: Record) {
    && IsPath(r.history, r.state)
    && r.snapshot == (if Signed(r.state) then Some(r.proposal.Frozen()) else None)
    && (Signed(r.state) && r.proposal.confidence == Low ==> IsGiven(r.overrideReason))
    && (Signed(r.state) <==> ApprovalAt(r.history) < |r.history|)
    && (r.approvedByOriginator <==>
          Signed(r.state) && r.history[ApprovalAt(r.history)].actor == r.proposal.originator)
    && (r.evaluations != [] <==> r.state == EVALUATED)
  }

  lemma DraftIsLawful(p: Proposal)
    ensures Lawful(NewDraft(p))
  {
  }

  /** Event k takes the record from one state to another, by somebody in one of the roles. */
  ghost predicate Took(history: seq<Event>, k: nat, action: Action, from: State, to: State, roles: set<Role>) {
    k < |history| && history[k].action == action && history[k].from == from && history[k].to == to
    && history[k].actingRole in roles
  }

  lemma PathEnds(history: seq<Event>, state: State)
    requires IsPath(history, state) && history != []
    ensures var k := |history| - 1;
            && IsPath(history[..k], history[k].from) && history[k].to == state
            && Transition(history[k].from, history[k].action) == Some(state)
            && history[k].actingRole in RequiredRole(history[k].action)
  {
  }

  /** The only ways to a state: what has happened to a record, and by whom, can be read off it. */
  lemma {:induction false} HistoryIs(history: seq<Event>, state: State)
    requires IsPath(history, state)
    ensures state == DRAFT ==> history == []
    ensures state == REVIEWED ==> |history| == 1 && Took(history, 0, Review, DRAFT, REVIEWED, {Reviewer, Admin})
    ensures state == APPROVED ==>
      && |history| == 2 && Took(history, 0, Review, DRAFT, REVIEWED, {Reviewer, Admin})
      && Took(history, 1, Approve, REVIEWED, APPROVED, {Approver, Admin})
    ensures state == IMPLEMENTED ==>
      && |history| == 3 && Took(history, 0, Review, DRAFT, REVIEWED, {Reviewer, Admin})
      && Took(history, 1, Approve, REVIEWED, APPROVED, {Approver, Admin})
      && Took(history, 2, Implement, APPROVED, IMPLEMENTED, {Operations, Admin})
    ensures state == EVALUATED ==>
      && |history| == 4 && Took(history, 0, Review, DRAFT, REVIEWED, {Reviewer, Admin})
      && Took(history, 1, Approve, REVIEWED, APPROVED, {Approver, Admin})
      && Took(history, 2, Implement, APPROVED, IMPLEMENTED, {Operations, Admin})
      && Took(history, 3, Evaluate, IMPLEMENTED, EVALUATED, {Engineer, Reviewer, Admin})
    ensures state == REJECTED ==>
      || (|history| == 1 && Took(history, 0, Reject, DRAFT, REJECTED, {Reviewer, Approver, Admin}))
      || (|history| == 2 && Took(history, 0, Review, DRAFT, REVIEWED, {Reviewer, Admin})
          && Took(history, 1, Reject, REVIEWED, REJECTED, {Reviewer, Approver, Admin}))
    decreases |history|
  {
    if history != [] {
      PathEnds(history, state);
      var k := |history| - 1;
      HistoryIs(history[..k], history[k].from);
      assert forall i :: 0 <= i < k ==> history[..k][i] == history[i];
    }
  }

  lemma LoggedPath(r: Record, action: Action, actor: Actor, to: State, note: string, extra: Extra)
    requires IsPath(r.history, r.state) && Check(r, action, actor) == Some(to)
    ensures var after := Logged(r, action, actor, to, note, extra);
            && IsPath(after.history, after.state)
            && ApprovalAt(after.history) ==
               if ApprovalAt(r.history) < |r.history| then ApprovalAt(r.history)
               else if action == Approve then |r.history| else |r.history| + 1
  {
    var after := Logged(r, action, actor, to, note, extra);
    assert after.history[..|after.history| - 1] == r.history;
  }

  /** Every action that passes its checks keeps a record lawful. */
  lemma ReviewIsLawful(r: Record, actor: Actor, note: string)
    requires Lawful(r) && Check(r, Review, actor).Some?
    ensures Lawful(Logged(r, Review, actor, REVIEWED, note, Plain))
  {
    LoggedPath(r, Review, actor, REVIEWED, note, Plain);
  }

  lemma RejectIsLawful(r: Record, actor: Actor, note: string)
    requires Lawful(r) && Check(r, Reject, actor).Some?
    ensures Lawful(Logged(r, Reject, actor, REJECTED, note, Plain))
  {
    LoggedPath(r, Reject, actor, REJECTED, note, Plain);
  }

  lemma ApproveIsLawful(r: Record, actor: Actor, policy: Policy, reason: Option<string>, note: string)
    requires Lawful(r) && CanApprove(r, actor, policy, reason)
    ensures Lawful(Approved(r, actor, reason, note))
    ensures policy == Enforce ==> !Approved(r, actor, reason, note).approvedByOriginator
  {
    var flag := actor.user == r.proposal.originator;
    var ready := r.(approvedByOriginator := flag,
                    overrideReason := if r.proposal.confidence == Low then reason else r.overrideReason,
                    snapshot := Some(r.proposal.Frozen()));
    assert Check(ready, Approve, actor) == Some(APPROVED);
    LoggedPath(ready, Approve, actor, APPROVED, note, Approval(flag, reason));
  }

  lemma ImplementIsLawful(r: Record, actor: Actor, actual: map<string, real>, note: string)
    requires Lawful(r) && Check(r, Implement, actor).Some?
    ensures Lawful(Implemented(r, actor, actual, note))
  {
    var extra := Deviations(OffPlan(r.proposal.rates, actual));
    ImplementedIsLawful(r, r.(implementedRates := actual), actor, note, extra);
  }

  lemma ImplementedIsLawful(r: Record, ready: Record, actor: Actor, note: string, extra: Extra)
    requires Lawful(r) && Check(r, Implement, actor).Some? && ready == r.(implementedRates := ready.implementedRates)
    ensures Lawful(Logged(ready, Implement, actor, IMPLEMENTED, note, extra))
  {
    assert Check(ready, Implement, actor) == Some(IMPLEMENTED);
    LoggedPath(ready, Implement, actor, IMPLEMENTED, note, extra);
  }

  lemma EvaluateIsLawful(r: Record, actor: Actor, record: string, note: string)
    requires Lawful(r) && Check(r, Evaluate, actor).Some?
    ensures Lawful(Evaluated(r, actor, record, note))
  {
    var ready := r.(evaluations := r.evaluations + [record]);
    assert Check(ready, Evaluate, actor) == Some(EVALUATED);
    LoggedPath(ready, Evaluate, actor, EVALUATED, note, Outcome(record));
  }

  /** How a record may change from one request to a later one: its events are kept, and so is a snapshot once set. */
  ghost predicate Evolves(r: Record, s: Record) {
    && s.proposal == r.proposal && r.history <= s.history && r.evaluations <= s.evaluations
    && (r.snapshot.Some? ==> s.snapshot == r.snapshot && s.approvedByOriginator == r.approvedByOriginator)
  }

  lemma EvolvesTransitive(r: Record, s: Record, t: Record)
    requires Evolves(r, s) && Evolves(s, t)
    ensures Evolves(r, t)
  {
  }

  /** A refused approval changes the object exactly when the originator asked, was allowed to, and gave no reason for LOW. */
  lemma RefusalLeavesTraceIff(r: Record, actor: Actor, policy: Policy, reason: Option<string>)
    requires Lawful(r) && !CanApprove(r, actor, policy, reason)
    ensures AfterRefusedApproval(r, actor, policy) != r <==>
            Check(r, Approve, actor).Some? && actor.user == r.proposal.originator && policy == LogOnly
            && r.proposal.confidence == Low && !IsGiven(reason)
  {
  }

  /**
   Reusing the object after such a refusal breaks the record: a later approval by somebody else is stored as one
   by the originator. Reloading the record before each request is what prevents this.
   */
  lemma FlagOutlivesRefusal(p: Proposal, reviewer: Actor, approver: Actor, originator: Actor, reason: string)
    requires p.confidence == Low && originator.user == p.originator != approver.user && reason != ""
    requires reviewer.actingRole == Reviewer && originator.actingRole == approver.actingRole == Approver
    ensures var r := Logged(NewDraft(p), Review, reviewer, REVIEWED, "", Plain);
            && Lawful(r) && !CanApprove(r, originator, LogOnly, None)
            && var reused := AfterRefusedApproval(r, originator, LogOnly);
               && CanApprove(reused, approver, LogOnly, Some(reason))
               && !Lawful(Approved(reused, approver, Some(reason), ""))
               && Lawful(Approved(r, approver, Some(reason), ""))
  {
    var r := Logged(NewDraft(p), Review, reviewer, REVIEWED, "", Plain);
    DraftIsLawful(p);
    ReviewIsLawful(NewDraft(p), reviewer, "");
    ApproveIsLawful(r, approver, LogOnly, Some(reason), "");
    var bad := Approved(AfterRefusedApproval(r, originator, LogOnly), approver, Some(reason), "");
    assert bad.history[..1] == r.history && ApprovalAt(r.history) == 1;
    assert ApprovalAt(bad.history) == 1 && bad.history[1].actor == approver.user;
  }
}
