/** The shared job table and its SQL statements, each of them one atomic step (waterflood_app/api/jobs.py). */
module JobTable {
  import opened Common

  type JobId = nat

  datatype Status = Queued | Running | Done | Failed

  /** external: only a row, for a worker to claim; otherwise the submitting process runs it itself. */
  datatype Job = Job(kind: string, created: nat, external: bool, status: Status)

  type Rows = map<JobId, Job>

  predicate IsQueued(jobs: Rows, kinds: set<string>, id: JobId) {
    id in jobs && jobs[id].status == Queued && jobs[id].kind in kinds
  }

  /** A row the SELECT may return: queued, of the kinds asked for, and none of those is older. */
  ghost predicate IsOldest(jobs: Rows, kinds: set<string>, id: JobId) {
    IsQueued(jobs, kinds, id) && forall q :: IsQueued(jobs, kinds, q) ==> jobs[id].created <= jobs[q].created
  }

  function Marked(jobs: Rows, id: JobId, status: Status): Rows {
    if id in jobs then jobs[id := jobs[id].(status := status)] else jobs
  }

  class Table {
    var jobs: Rows

    constructor ()
      ensures jobs == map[]
    {
      jobs := map[];
    }

    method Insert(id: JobId, kind: string, created: nat, external: bool)
      requires id !in jobs
      modifies this
      ensures jobs == old(jobs)[id := Job(kind, created, external, Queued)]
    {
      jobs := jobs[id := Job(kind, created, external, Queued)];
    }

    /** One statement: an oldest queued job of the kinds, if there is one. */
    method OldestQueued(kinds: set<string>) returns (id: Option<JobId>)
      ensures id.None? ==> forall q :: !IsQueued(jobs, kinds, q)
      ensures id.Some? ==> IsOldest(jobs, kinds, id.value)
    {
      id := None;
      var rest := jobs.Keys;
      while rest != {}
        invariant rest <= jobs.Keys
        invariant id.None? ==> forall q :: q !in rest ==> !IsQueued(jobs, kinds, q)
        invariant id.Some? ==> IsQueued(jobs, kinds, id.value) && id.value !in rest
        invariant id.Some? ==> forall q :: q !in rest && IsQueued(jobs, kinds, q) ==> jobs[id.value].created <= jobs[q].created
        decreases rest
      {
        var q :| q in rest;
        rest := rest - {q};
        if IsQueued(jobs, kinds, q) && (id.None? || jobs[q].created < jobs[id.value].created) {
          id := Some(q);
        }
      }
    }

    /** One statement: the row becomes running if it is still queued; the result is whether a row changed. */
    method ClaimIfQueued(id: JobId) returns (won: bool)
      modifies this
      ensures won <==> id in old(jobs) && old(jobs)[id].status == Queued
      ensures jobs == if won then Marked(old(jobs), id, Running) else old(jobs)
    {
      won := id in jobs && jobs[id].status == Queued;
      if won {
        jobs := jobs[id := jobs[id].(status := Running)];
      }
    }

    /** One statement: the row gets the status, whatever it was. */
    method Mark(id: JobId, status: Status)
      modifies this
      ensures jobs == Marked(old(jobs), id, status)
    {
      if id in jobs {
        jobs := jobs[id := jobs[id].(status := status)];
      }
    }

    /** claim_next when nobody interferes between its two statements: None only on an empty queue. */
    method ClaimNext(kinds: set<string>) returns (id: Option<JobId>)
      modifies this
      ensures id.None? <==> forall q :: !IsQueued(old(jobs), kinds, q)
      ensures id.Some? ==> IsOldest(old(jobs), kinds, id.value) && jobs == Marked(old(jobs), id.value, Running)
      ensures id.None? ==> jobs == old(jobs)
    {
      id := OldestQueued(kinds);
      if id.Some? {
        var won := ClaimIfQueued(id.value);
        if !won {
          id := None;
        }
      }
    }
  }
}
