/**
 Workers on a shared job table (waterflood_app/api/jobs.py, waterflood_app/api/worker.py). SELECT and the
 conditional UPDATE of a claim are separate steps of any number of workers, interleaved with each other, with
 submissions and with the thread pool of a submitting process.
 */
module JobQueue {
  import opened Common
  import opened JobTable

  /** Where a worker is in its loop. */
  datatype Worker =
    | Idle
    | Selected(id: JobId, kinds: set<string>)  // SELECT has returned a row
    | Claimed(id: JobId)  // its UPDATE changed the row
    | Executing(id: JobId)  // _run has started
  {
    /** Between a successful UPDATE and the end of _run. */
    predicate Busy() {
      Claimed? || Executing?
    }

    predicate Holds(job: JobId) {
      Busy() && id == job
    }
  }

  /** A job of the submitting process's own pool. */
  datatype Task = Pending(id: JobId) | Active(id: JobId) | Over(id: JobId)

  /** A _run that has begun, by a worker or by the submitting process's pool. */
  datatype Begin = Begin(id: JobId, byWorker: bool)

  /** started records every _run at the moment it begins; ordered, whether rows have come in the order of their times. */
  datatype System = System(
    jobs: Rows, clock: nat, ordered: bool, workers: seq<Worker>, pool: seq<Task>, started: seq<Begin>)

  datatype Step =
    | Submit(id: JobId, kind: string, external: bool, now: nat)
    | Select(w: nat, kinds: set<string>, choice: Option<JobId>)
    | Update(w: nat)
    | Start(w: nat)
    | Finish(w: nat, ok: bool)
    | PoolStart(t: nat)
    | PoolFinish(t: nat, ok: bool)

  ghost predicate Enabled(s: System, step: Step) {
    match step
    case Submit(id, _, _, _) => id !in s.jobs
    case Select(w, kinds, choice) =>
      && w < |s.workers| && s.workers[w].Idle?
      && (choice.None? ==> forall q :: !IsQueued(s.jobs, kinds, q))
      && (choice.Some? ==> IsOldest(s.jobs, kinds, choice.value))
    case Update(w) => w < |s.workers| && s.workers[w].Selected?
    case Start(w) => w < |s.workers| && s.workers[w].Claimed?
    case Finish(w, _) => w < |s.workers| && s.workers[w].Executing?
    case PoolStart(t) => t < |s.pool| && s.pool[t].Pending?
    case PoolFinish(t, _) => t < |s.pool| && s.pool[t].Active?
  }

  function Apply(s: System, step: Step): System
    requires Enabled(s, step)
  {
    match step
    case Submit(id, kind, external, now) =>
      s.(jobs := s.jobs[id := Job(kind, now, external, Queued)], clock := if s.clock <= now then now else s.clock,
         ordered := s.ordered && s.clock <= now, pool := if external then s.pool else s.pool + [Pending(id)])
    case Select(w, kinds, choice) =>
      if choice.None? then s else s.(workers := s.workers[w := Selected(choice.value, kinds)])
    case Update(w) =>
      var id := s.workers[w].id;
      if id in s.jobs && s.jobs[id].status == Queued then
        s.(jobs := Marked(s.jobs, id, Running), workers := s.workers[w := Claimed(id)])
      else
        s.(workers := s.workers[w := Idle])
    case Start(w) =>
      var id := s.workers[w].id;
      s.(jobs := Marked(s.jobs, id, Running), workers := s.workers[w := Executing(id)], started := s.started + [Begin(id, true)])
    case Finish(w, ok) =>
      s.(jobs := Marked(s.jobs, s.workers[w].id, if ok then Done else Failed), workers := s.workers[w := Idle])
    case PoolStart(t) =>
      var id := s.pool[t].id;
      s.(jobs := Marked(s.jobs, id, Running), pool := s.pool[t := Active(id)], started := s.started + [Begin(id, false)])
    case PoolFinish(t, ok) =>
      var id := s.pool[t].id;
      s.(jobs := Marked(s.jobs, id, if ok then Done else Failed), pool := s.pool[t := Over(id)])
  }

  function Empty(workers: nat): System {
    System(map[], 0, true, seq(workers, _ => Idle), [], [])
  }

  /** The steps can be taken one after the other from s. */
  ghost predicate IsRun(s: System, steps: seq<Step>)
    decreases |steps|
  {
    steps == [] || (Enabled(s, steps[0]) && IsRun(Apply(s, steps[0]), steps[1..]))
  }

  ghost function After(s: System, steps: seq<Step>): System
    requires IsRun(s, steps)
    decreases |steps|
  {
    if steps == [] then s else After(Apply(s, steps[0]), steps[1..])
  }

  // ---------------------------------------------------------------- the invariant

  predicate External(s: System, id: JobId) {
    id in s.jobs && s.jobs[id].external
  }

  /** Workers know only jobs of the table; one they hold is not queued, and an external one is running. */
  ghost predicate WorkersKnow(s: System) {
    forall w :: 0 <= w < |s.workers| && !s.workers[w].Idle? ==>
      && s.workers[w].id in s.jobs
      && (s.workers[w].Busy() ==> s.jobs[s.workers[w].id].status != Queued)
      && (s.workers[w].Busy() && External(s, s.workers[w].id) ==> s.jobs[s.workers[w].id].status == Running)
  }

  /** No job is held by two workers. */
  ghost predicate Exclusive(s: System) {
    forall v, w :: 0 <= v < w < |s.workers| && s.workers[v].Busy() && s.workers[w].Busy() ==>
      s.workers[v].id != s.workers[w].id
  }

  ghost predicate InPool(s: System, id: JobId) {
    exists t :: 0 <= t < |s.pool| && s.pool[t].id == id
  }

  /** The pool has exactly one task for every job that is not external, and no other. */
  ghost predicate PoolKnows(s: System) {
    && (forall t :: 0 <= t < |s.pool| ==>
          s.pool[t].id in s.jobs && !External(s, s.pool[t].id)
          && (!s.pool[t].Pending? ==> s.jobs[s.pool[t].id].status != Queued))
    && (forall t, u :: 0 <= t < u < |s.pool| ==> s.pool[t].id != s.pool[u].id)
    && forall id {:trigger InPool(s, id)} :: id in s.jobs && !External(s, id) ==> InPool(s, id)
  }

  /** Every _run begins at most once by a worker and once by the pool, never of a queued job, and by the pool only of its own. */
  ghost predicate StartedOnce(s: System) {
    && (forall a, b :: 0 <= a < b < |s.started| ==> s.started[a] != s.started[b])
    && (forall a :: 0 <= a < |s.started| ==>
          s.started[a].id in s.jobs && s.jobs[s.started[a].id].status != Queued
          && (External(s, s.started[a].id) ==> s.started[a].byWorker))
    && (forall w :: 0 <= w < |s.workers| && s.workers[w].Claimed? ==> Begin(s.workers[w].id, true) !in s.started)
    && (forall t :: 0 <= t < |s.pool| ==> (s.pool[t].Pending? <==> Begin(s.pool[t].id, false) !in s.started))
  }

  /** A running external job is in some worker's hands. */
  ghost predicate RunningIsHeld(s: System) {
    forall id :: External(s, id) && s.jobs[id].status == Running ==> IsHeld(s, id)
  }

  ghost predicate IsHeld(s: System, id: JobId) {
    exists w :: 0 <= w < |s.workers| && s.workers[w].Holds(id)
  }

  predicate Waits(s: System, worker: Worker) {
    worker.Selected? && worker.id in s.jobs && s.jobs[worker.id].status == Queued
  }

  /** While rows come in the order of their times, a selected job that is still queued is still the oldest of the kinds asked for. */
  ghost predicate SelectionHolds(s: System) {
    && (forall id :: id in s.jobs ==> s.jobs[id].created <= s.clock)
    && forall w :: 0 <= w < |s.workers| && s.ordered && Waits(s, s.workers[w]) ==> IsOldest(s.jobs, s.workers[w].kinds, s.workers[w].id)
  }

  ghost predicate Inv(s: System) {
    WorkersKnow(s) && Exclusive(s) && PoolKnows(s) && StartedOnce(s) && RunningIsHeld(s) && SelectionHolds(s)
  }

  lemma EmptyInv(workers: nat)
    ensures Inv(Empty(workers))
  {
  }

  // ---------------------------------------------------------------- every step keeps it

  lemma HeldStays(s: System, t: System, q: JobId, w: nat)
    requires RunningIsHeld(s) && External(s, q) && s.jobs[q].status == Running
    requires |t.workers| == |s.workers| && forall v :: 0 <= v < |s.workers| && v != w ==> t.workers[v] == s.workers[v]
    requires w < |s.workers| && s.workers[w].Holds(q) ==> t.workers[w].Holds(q)
    ensures IsHeld(t, q)
  {
    assert IsHeld(s, q);
    var v :| 0 <= v < |s.workers| && s.workers[v].Holds(q);
    assert t.workers[v].Holds(q);
  }

  lemma SubmitPool(s: System, t: System, id: JobId, kind: string, external: bool, now: nat)
    requires PoolKnows(s) && StartedOnce(s) && id !in s.jobs && t.workers == s.workers && WorkersKnow(s)
    requires t.jobs == s.jobs[id := Job(kind, now, external, Queued)] && t.started == s.started
    requires t.pool == if external then s.pool else s.pool + [Pending(id)]
    ensures PoolKnows(t) && StartedOnce(t)
  {
    forall q {:trigger InPool(t, q)} | q in t.jobs && !External(t, q)
      ensures InPool(t, q)
    {
      if q == id {
        assert t.pool[|s.pool|].id == id;
      } else {
        assert InPool(s, q);
        var k :| 0 <= k < |s.pool| && s.pool[k].id == q;
        assert t.pool[k].id == q;
      }
    }
    assert forall b :: b in s.started ==> b.id in s.jobs;
  }

  lemma SubmitKeeps(s: System, id: JobId, kind: string, external: bool, now: nat)
    requires Inv(s) && Enabled(s, Submit(id, kind, external, now))
    ensures Inv(Apply(s, Submit(id, kind, external, now)))
  {
    var t := Apply(s, Submit(id, kind, external, now));
    SubmitPool(s, t, id, kind, external, now);
    forall q | External(t, q) && t.jobs[q].status == Running
      ensures IsHeld(t, q)
    {
      HeldStays(s, t, q, |s.workers|);
    }
  }

  /** A step that leaves jobs, pool and record alone, or changes them for workers only. */
  lemma SamePool(s: System, t: System)
    requires PoolKnows(s) && t.pool == s.pool && t.jobs.Keys == s.jobs.Keys
    requires forall q :: q in s.jobs ==> t.jobs[q].external == s.jobs[q].external
    requires forall q :: q in s.jobs && s.jobs[q].status != Queued ==> t.jobs[q].status != Queued
    ensures PoolKnows(t)
  {
    forall q {:trigger InPool(t, q)} | q in t.jobs && !External(t, q)
      ensures InPool(t, q)
    {
      assert InPool(s, q);
    }
  }

  lemma SelectKeeps(s: System, w: nat, kinds: set<string>, choice: Option<JobId>)
    requires Inv(s) && Enabled(s, Select(w, kinds, choice))
    ensures Inv(Apply(s, Select(w, kinds, choice)))
  {
    var t := Apply(s, Select(w, kinds, choice));
    SamePool(s, t);
    forall q | External(t, q) && t.jobs[q].status == Running
      ensures IsHeld(t, q)
    {
      HeldStays(s, t, q, w);
    }
  }

  lemma StillOldest(s: System, t: System, id: JobId, status: Status, w: nat)
    requires SelectionHolds(s) && id in s.jobs && status != Queued && w <= |s.workers|
    requires t.jobs == Marked(s.jobs, id, status) && t.clock == s.clock && t.ordered == s.ordered
    requires |t.workers| == |s.workers| && forall v :: 0 <= v < |s.workers| && v != w ==> t.workers[v] == s.workers[v]
    requires w < |s.workers| ==> !t.workers[w].Selected?
    ensures SelectionHolds(t)
  {
    forall v | 0 <= v < |t.workers| && t.ordered && Waits(t, t.workers[v])
      ensures IsOldest(t.jobs, t.workers[v].kinds, t.workers[v].id)
    {
      assert Waits(s, s.workers[v]);
    }
  }

  lemma UpdateWorkers(s: System, w: nat)
    requires Inv(s) && Enabled(s, Update(w))
    ensures var t := Apply(s, Update(w));
            WorkersKnow(t) && Exclusive(t) && StartedOnce(t)
  {
    var t := Apply(s, Update(w));
    var id := s.workers[w].id;
    if s.jobs[id].status == Queued {
      assert forall v :: 0 <= v < |s.workers| && s.workers[v].Busy() ==> s.workers[v].id != id;
      assert forall b :: b in s.started ==> b.id != id;
    }
  }

  lemma UpdateKeeps(s: System, w: nat)
    requires Inv(s) && Enabled(s, Update(w))
    ensures Inv(Apply(s, Update(w)))
  {
    var t := Apply(s, Update(w));
    var id := s.workers[w].id;
    UpdateWorkers(s, w);
    SamePool(s, t);
    forall q | External(t, q) && t.jobs[q].status == Running
      ensures IsHeld(t, q)
    {
      if q == id && s.jobs[id].status == Queued {
        assert t.workers[w].Holds(q);
      } else {
        HeldStays(s, t, q, w);
      }
    }
    if s.jobs[id].status == Queued {
      StillOldest(s, t, id, Running, w);
    } else {
      assert forall v :: 0 <= v < |t.workers| && Waits(t, t.workers[v]) ==> Waits(s, s.workers[v]);
    }
  }

  lemma StartWorkers(s: System, w: nat)
    requires Inv(s) && Enabled(s, Start(w))
    ensures var t := Apply(s, Start(w));
            WorkersKnow(t) && Exclusive(t) && StartedOnce(t)
  {
    var t := Apply(s, Start(w));
    var id := s.workers[w].id;
    assert s.workers[w].Busy();
    forall v | 0 <= v < |t.workers| && t.workers[v].Claimed?
      ensures Begin(t.workers[v].id, true) !in t.started
    {
      assert s.workers[v].Busy();
    }
  }

  lemma StartKeeps(s: System, w: nat)
    requires Inv(s) && Enabled(s, Start(w))
    ensures Inv(Apply(s, Start(w)))
  {
    var t := Apply(s, Start(w));
    var id := s.workers[w].id;
    assert s.workers[w].Busy();
    StartWorkers(s, w);
    SamePool(s, t);
    forall q | External(t, q) && t.jobs[q].status == Running
      ensures IsHeld(t, q)
    {
      if q == id {
        assert t.workers[w].Holds(q);
      } else {
        HeldStays(s, t, q, w);
      }
    }
    StillOldest(s, t, id, Running, w);
  }

  lemma FinishWorkers(s: System, w: nat, ok: bool)
    requires Inv(s) && Enabled(s, Finish(w, ok))
    ensures var t := Apply(s, Finish(w, ok));
            WorkersKnow(t) && Exclusive(t) && StartedOnce(t)
  {
    var t := Apply(s, Finish(w, ok));
    assert s.workers[w].Busy();
    forall v | 0 <= v < |t.workers| && t.workers[v].Busy()
      ensures t.workers[v].id != s.workers[w].id
    {
      assert s.workers[v].Busy() && v != w;
    }
  }

  lemma FinishKeeps(s: System, w: nat, ok: bool)
    requires Inv(s) && Enabled(s, Finish(w, ok))
    ensures Inv(Apply(s, Finish(w, ok)))
  {
    var t := Apply(s, Finish(w, ok));
    var id := s.workers[w].id;
    assert s.workers[w].Busy();
    FinishWorkers(s, w, ok);
    SamePool(s, t);
    forall q | External(t, q) && t.jobs[q].status == Running
      ensures IsHeld(t, q)
    {
      assert q != id;
      HeldStays(s, t, q, w);
    }
    StillOldest(s, t, id, if ok then Done else Failed, w);
  }

  /** A pool step moves one task on and rewrites the status of its job, which is not external. */
  lemma PoolKeeps(s: System, t: System, k: nat, task: Task, status: Status)
    requires Inv(s) && k < |s.pool| && status != Queued && task.id == s.pool[k].id && !task.Pending?
    requires t.jobs == Marked(s.jobs, task.id, status) && t.workers == s.workers
    requires t.clock == s.clock && t.ordered == s.ordered && t.pool == s.pool[k := task]
    requires t.started == if s.pool[k].Pending? then s.started + [Begin(task.id, false)] else s.started
    ensures Inv(t)
  {
    PoolTasks(s, t, k, task, status);
    forall q | External(t, q) && t.jobs[q].status == Running
      ensures IsHeld(t, q)
    {
      HeldStays(s, t, q, |s.workers|);
    }
    StillOldest(s, t, task.id, status, |s.workers|);
  }

  lemma PoolTasks(s: System, t: System, k: nat, task: Task, status: Status)
    requires Inv(s) && k < |s.pool| && status != Queued && task.id == s.pool[k].id && !task.Pending?
    requires t.jobs == Marked(s.jobs, task.id, status) && t.workers == s.workers && t.pool == s.pool[k := task]
    requires t.started == if s.pool[k].Pending? then s.started + [Begin(task.id, false)] else s.started
    ensures PoolKnows(t) && StartedOnce(t)
  {
    forall q {:trigger InPool(t, q)} | q in t.jobs && !External(t, q)
      ensures InPool(t, q)
    {
      assert InPool(s, q);
      var u :| 0 <= u < |s.pool| && s.pool[u].id == q;
      assert t.pool[u].id == q;
    }
    if s.pool[k].Pending? {
      assert t.started[|s.started|] == Begin(task.id, false);
      forall b | b in t.started
        ensures b in s.started || b == Begin(task.id, false)
      {
      }
    }
    forall u | 0 <= u < |t.pool|
      ensures t.pool[u].Pending? <==> Begin(t.pool[u].id, false) !in t.started
    {
      assert s.pool[u].Pending? <==> Begin(s.pool[u].id, false) !in s.started;
      if u != k {
        assert s.pool[u].id != s.pool[k].id;
      }
    }
  }

  lemma StepKeeps(s: System, step: Step)
    requires Inv(s) && Enabled(s, step)
    ensures Inv(Apply(s, step))
  {
    match step
    case Submit(id, kind, external, now) => SubmitKeeps(s, id, kind, external, now);
    case Select(w, kinds, choice) => SelectKeeps(s, w, kinds, choice);
    case Update(w) => UpdateKeeps(s, w);
    case Start(w) => StartKeeps(s, w);
    case Finish(w, ok) => FinishKeeps(s, w, ok);
    case PoolStart(t) => PoolKeeps(s, Apply(s, step), t, Active(s.pool[t].id), Running);
    case PoolFinish(t, ok) => PoolKeeps(s, Apply(s, step), t, Over(s.pool[t].id), if ok then Done else Failed);
  }

  // ---------------------------------------------------------------- over whole runs

  /** What holds of any number of workers after any interleaving, from an empty table. */
  lemma {:induction false} RunKeeps(s: System, steps: seq<Step>)
    requires Inv(s) && IsRun(s, steps)
    ensures Inv(After(s, steps))
    decreases |steps|
  {
    if steps != [] {
      StepKeeps(s, steps[0]);
      RunKeeps(Apply(s, steps[0]), steps[1..]);
    }
  }

  /** How often a job's _run has begun. */
  function Starts(started: seq<Begin>, id: JobId, n: nat): nat
    requires n <= |started|
  {
    if n == 0 then 0 else Starts(started, id, n - 1) + if started[n - 1].id == id then 1 else 0
  }

  lemma {:induction false} StartsCounted(started: seq<Begin>, id: JobId, n: nat)
    requires n <= |started| && forall a, b :: 0 <= a < b < |started| ==> started[a] != started[b]
    ensures Starts(started, id, n) ==
            (if Begin(id, true) in started[..n] then 1 else 0) + (if Begin(id, false) in started[..n] then 1 else 0)
  {
    if n > 0 {
      StartsCounted(started, id, n - 1);
      assert started[..n] == started[..n - 1] + [started[n - 1]];
      assert started[n - 1] !in started[..n - 1];
    }
  }

  /** No job is ever held by two workers, and no external job ever begins twice. */
  lemma ExternalJobsRunOnce(workers: nat, steps: seq<Step>, id: JobId)
    requires IsRun(Empty(workers), steps)
    ensures var s := After(Empty(workers), steps);
            && Exclusive(s) && RunningIsHeld(s) && (External(s, id) ==> Starts(s.started, id, |s.started|) <= 1)
  {
    EmptyInv(workers);
    RunKeeps(Empty(workers), steps);
    var s := After(Empty(workers), steps);
    StartsCounted(s.started, id, |s.started|);
    assert s.started[..|s.started|] == s.started;
  }

  /** Once the pool has begun its job, that job has begun twice exactly when a worker has begun it as well; never more often. */
  lemma PoolJobTwiceIff(workers: nat, steps: seq<Step>, t: nat)
    requires IsRun(Empty(workers), steps) && t < |After(Empty(workers), steps).pool|
    ensures var s := After(Empty(workers), steps);
            var id := s.pool[t].id;
            && Starts(s.started, id, |s.started|) <= 2
            && (Starts(s.started, id, |s.started|) == 2 <==> !s.pool[t].Pending? && Begin(id, true) in s.started)
  {
    EmptyInv(workers);
    RunKeeps(Empty(workers), steps);
    var s := After(Empty(workers), steps);
    StartsCounted(s.started, s.pool[t].id, |s.started|);
    assert s.started[..|s.started|] == s.started;
  }

  /** One step moves the status of an external job forward by at most one stage. */
  lemma StepAdvances(s: System, step: Step, id: JobId)
    requires Inv(s) && Enabled(s, step) && External(s, id)
    ensures External(Apply(s, step), id)
    ensures var a, b := s.jobs[id].status, Apply(s, step).jobs[id].status;
            a == b || (a == Queued && b == Running) || (a == Running && (b == Done || b == Failed))
  {
  }

  function Stage(a: Status): nat {
    match a
    case Queued => 0
    case Running => 1
    case Done => 2
    case Failed => 2
  }

  /** Over a run an external job never goes back, and done or failed is final. */
  lemma {:induction false} StatusNeverReturns(s: System, steps: seq<Step>, id: JobId)
    requires Inv(s) && IsRun(s, steps) && External(s, id)
    ensures var t := After(s, steps);
            && External(t, id) && Stage(s.jobs[id].status) <= Stage(t.jobs[id].status)
            && (Stage(s.jobs[id].status) == 2 ==> t.jobs[id].status == s.jobs[id].status)
    decreases |steps|
  {
    if steps != [] {
      StepKeeps(s, steps[0]);
      StepAdvances(s, steps[0], id);
      StatusNeverReturns(Apply(s, steps[0]), steps[1..], id);
    }
  }

  /** Some step of the run is the end of a worker's _run of the job, with this outcome. */
  ghost predicate Ends(s: System, steps: seq<Step>, id: JobId, ok: bool)
    requires IsRun(s, steps)
    decreases |steps|
  {
    steps != [] && (EndsWith(s, steps[0], id, ok) || Ends(Apply(s, steps[0]), steps[1..], id, ok))
  }

  ghost predicate EndsWith(s: System, step: Step, id: JobId, ok: bool)
    requires Enabled(s, step)
  {
    step.Finish? && step.ok == ok && s.workers[step.w].id == id
  }

  lemma StepEnds(s: System, step: Step, id: JobId)
    requires Inv(s) && Enabled(s, step) && External(s, id)
    ensures Apply(s, step).jobs[id].status == Done <==> s.jobs[id].status == Done || EndsWith(s, step, id, true)
    ensures Apply(s, step).jobs[id].status == Failed <==> s.jobs[id].status == Failed || EndsWith(s, step, id, false)
  {
  }

  lemma {:induction false} RunEnds(s: System, steps: seq<Step>, id: JobId)
    requires Inv(s) && IsRun(s, steps) && External(After(s, steps), id)
    ensures After(s, steps).jobs[id].status == Done <==>
            (External(s, id) && s.jobs[id].status == Done) || Ends(s, steps, id, true)
    ensures After(s, steps).jobs[id].status == Failed <==>
            (External(s, id) && s.jobs[id].status == Failed) || Ends(s, steps, id, false)
    decreases |steps|
  {
    if steps != [] {
      var t := Apply(s, steps[0]);
      StepKeeps(s, steps[0]);
      RunEnds(t, steps[1..], id);
      if External(s, id) {
        StepEnds(s, steps[0], id);
      } else {
        NotExternalBefore(s, steps, id);
        NotYetEnded(s, steps[0], id);
      }
    }
  }

  /** A job that becomes external in a run was not in the table before. */
  lemma {:induction false} NotExternalBefore(s: System, steps: seq<Step>, id: JobId)
    requires Inv(s) && IsRun(s, steps) && External(After(s, steps), id) && !External(s, id)
    ensures id !in s.jobs
    decreases |steps|
  {
    if steps != [] {
      var t := Apply(s, steps[0]);
      StepKeeps(s, steps[0]);
      if !External(t, id) {
        NotExternalBefore(t, steps[1..], id);
      }
    }
  }

  lemma NotYetEnded(s: System, step: Step, id: JobId)
    requires Inv(s) && Enabled(s, step) && id !in s.jobs
    ensures !EndsWith(s, step, id, true) && !EndsWith(s, step, id, false)
    ensures id in Apply(s, step).jobs ==> Apply(s, step).jobs[id].status == Queued
  {
  }

  /** After any run an external job is done exactly when some _run of it ended well, and failed when one ended badly. */
  lemma StatusSaysHowItEnded(workers: nat, steps: seq<Step>, id: JobId)
    requires IsRun(Empty(workers), steps) && External(After(Empty(workers), steps), id)
    ensures After(Empty(workers), steps).jobs[id].status == Done <==> Ends(Empty(workers), steps, id, true)
    ensures After(Empty(workers), steps).jobs[id].status == Failed <==> Ends(Empty(workers), steps, id, false)
  {
    EmptyInv(workers);
    RunEnds(Empty(workers), steps, id);
  }

  /** When the pool's own _run ends, its job has the status of that end, whatever a worker has made of it. */
  lemma PoolSaysHowItEnded(s: System, t: nat, ok: bool)
    requires Inv(s) && Enabled(s, PoolFinish(t, ok))
    ensures var id := s.pool[t].id;
            var after := Apply(s, PoolFinish(t, ok));
            && (after.jobs[id].status == Done <==> ok) && (after.jobs[id].status == Failed <==> !ok)
            && after.jobs.Keys == s.jobs.Keys && forall q :: q in s.jobs && q != id ==> after.jobs[q] == s.jobs[q]
  {
  }

  /** A claim succeeds exactly when the selected row is still queued; it is then the oldest there is, if rows come in the order of their times. */
  lemma ClaimOutcome(s: System, w: nat)
    requires Inv(s) && Enabled(s, Update(w))
    ensures var id, kinds := s.workers[w].id, s.workers[w].kinds;
            && (Apply(s, Update(w)).workers[w] == Claimed(id) <==> s.jobs[id].status == Queued)
            && (Apply(s, Update(w)).workers[w] == Idle <==> s.jobs[id].status != Queued)
            && (s.jobs[id].status == Queued && s.ordered ==> IsOldest(s.jobs, kinds, id))
  {
  }

  /** Rows are submitted in the order of their times, none of them before clock. */
  ghost predicate TimesAscend(clock: nat, steps: seq<Step>)
    decreases |steps|
  {
    steps == [] ||
    (if steps[0].Submit? then clock <= steps[0].now && TimesAscend(steps[0].now, steps[1..]) else TimesAscend(clock, steps[1..]))
  }

  lemma {:induction false} StaysOrdered(s: System, steps: seq<Step>)
    requires IsRun(s, steps) && s.ordered && TimesAscend(s.clock, steps)
    ensures After(s, steps).ordered
    decreases |steps|
  {
    if steps != [] {
      StaysOrdered(Apply(s, steps[0]), steps[1..]);
    }
  }

  /** In every run whose rows are submitted in the order of their times, a claim that succeeds takes an oldest job of the kinds. */
  lemma ClaimsOldest(workers: nat, steps: seq<Step>, w: nat)
    requires IsRun(Empty(workers), steps) && TimesAscend(0, steps) && Enabled(After(Empty(workers), steps), Update(w))
    ensures var s := After(Empty(workers), steps);
            var claimed := Apply(s, Update(w)).workers[w];
            claimed.Claimed? ==> IsOldest(s.jobs, s.workers[w].kinds, claimed.id)
  {
    EmptyInv(workers);
    RunKeeps(Empty(workers), steps);
    StaysOrdered(Empty(workers), steps);
    ClaimOutcome(After(Empty(workers), steps), w);
  }

  // ---------------------------------------------------------------- what does not hold

  lemma Then(s: System, step: Step, rest: seq<Step>)
    requires Enabled(s, step) && IsRun(Apply(s, step), rest)
    ensures IsRun(s, [step] + rest) && After(s, [step] + rest) == After(Apply(s, step), rest)
  {
    assert ([step] + rest)[1..] == rest;
  }

  /** A lost race also yields nothing: a worker can be told the queue is empty while a job is waiting in it. */
  lemma LostRaceLooksEmpty(kind: string, workers: nat, v: nat, w: nat) returns (s: System, steps: seq<Step>)
    requires v < workers && w < workers && v != w
    ensures IsRun(Empty(workers), steps + [Update(w)]) && s == After(Empty(workers), steps + [Update(w)])
    ensures |steps| == 5 && steps[2] == Select(w, {kind}, Some(0))
    ensures |s.workers| == workers && s.workers[w] == Idle && IsQueued(s.jobs, {kind}, 1)
  {
    var s0 := Empty(workers);
    var a, b := Submit(0, kind, true, 0), Submit(1, kind, true, 1);
    var s2 := Apply(Apply(s0, a), b);
    var c := Select(w, {kind}, Some(0));
    var s3 := Apply(s2, c);
    var d := Select(v, {kind}, Some(0));
    var s4 := Apply(s3, d);
    var s5 := Apply(s4, Update(v));
    s := Apply(s5, Update(w));
    steps := [a, b, c, d, Update(v)];
    Then(s5, Update(w), []);
    Then(s4, Update(v), [Update(w)]);
    Then(s3, d, [Update(v)] + [Update(w)]);
    Then(s2, c, [d] + ([Update(v)] + [Update(w)]));
    Then(Apply(s0, a), b, [c] + ([d] + ([Update(v)] + [Update(w)])));
    Then(s0, a, [b] + ([c] + ([d] + ([Update(v)] + [Update(w)]))));
    assert steps + [Update(w)] == [a] + ([b] + ([c] + ([d] + ([Update(v)] + [Update(w)]))));
  }

  /**
   A job queued for a thread pool can be claimed by any worker first: it runs twice, and a done job is running again.
   This holds for every job, kind and number of workers.
   */
  lemma PoolJobRunsTwice(kind: string, workers: nat, w: nat, id: JobId) returns (s: System, steps: seq<Step>)
    requires w < workers
    ensures IsRun(Empty(workers), steps + [PoolStart(0)])
    ensures Enabled(s, PoolStart(0)) && After(Empty(workers), steps + [PoolStart(0)]) == Apply(s, PoolStart(0))
    ensures id in s.jobs && s.jobs[id].status == Done && Apply(s, PoolStart(0)).jobs[id].status == Running
    ensures Apply(s, PoolStart(0)).started == [Begin(id, true), Begin(id, false)]
  {
    var s0 := Empty(workers);
    var a, b := Submit(id, kind, false, 0), Select(w, {kind}, Some(id));
    var s1 := Apply(s0, a);
    var s2 := Apply(s1, b);
    var s3 := Apply(s2, Update(w));
    var s4 := Apply(s3, Start(w));
    s := Apply(s4, Finish(w, true));
    steps := [a, b, Update(w), Start(w), Finish(w, true)];
    var last := [PoolStart(0)];
    Then(s, PoolStart(0), []);
    Then(s4, Finish(w, true), last);
    Then(s3, Start(w), [Finish(w, true)] + last);
    Then(s2, Update(w), [Start(w)] + ([Finish(w, true)] + last));
    Then(s1, b, [Update(w)] + ([Start(w)] + ([Finish(w, true)] + last)));
    Then(s0, a, [b] + ([Update(w)] + ([Start(w)] + ([Finish(w, true)] + last))));
    assert steps + last == [a] + ([b] + ([Update(w)] + ([Start(w)] + ([Finish(w, true)] + last))));
  }
}
