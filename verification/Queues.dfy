/** The statements of `Queue`, `scan_for`, `advance`, `_review` and `_retry`, in their own order, over the owner's
    tables. */
module Queues {
  import opened Types
  import opened Counting
  import opened Ordering
  import opened Store
  import opened Jobs
  import Database

  class Queue {
    const db: Database.OwnerTables
    const policy: Policy
    var jobs: Table
    var tasks: map<Task, TaskRow>
    var events: map<EventKey, Recorded>
    var eventArchives: map<EventKey, Recorded>

    constructor (db: Database.OwnerTables, policy: Policy)
      ensures this.db == db && this.policy == policy
      ensures jobs == map[] && tasks == map[] && events == map[] && eventArchives == map[]
    {
      this.db, this.policy := db, policy;
      jobs, tasks, events, eventArchives := map[], map[], map[], map[];
    }

    method Enqueue(kind: JobKind, task: Option<Task>, payload: Payload, id: JobId, now: Time)
      modifies this`jobs
      ensures jobs == old(jobs)[id := Fresh(kind, task, payload, now)]
    {
      jobs := jobs[id := Job(kind, task, payload, Pending, 0, now, None, None, Blank)];
    }

    /** `capture`: one job per (task, event), ever; a replay with the same content gets the same job. */
    method Capture(task: Task, event: string, payload: Payload, id: JobId, now: Time) returns (r: Result<JobId>)
      modifies this`jobs, this`events
      ensures
        var key := (task, event);
        if key in old(events) then
          && jobs == old(jobs) && events == old(events)
          && r == if old(events)[key].payload == payload then Ok(old(events)[key].job) else Err(Conflict)
        else if key in eventArchives || task !in tasks || tasks[task].complete then
          r == Err(Conflict) && jobs == old(jobs) && events == old(events)
        else
          && r == Ok(id)
          && jobs == old(jobs)[id := Fresh(CaptureJob, Some(task), payload, now)]
          && events == old(events)[key := Recorded(payload, id)]
    {
      var key := (task, event);
      if key in events {
        if events[key].payload != payload { return Err(Conflict); }
        return Ok(events[key].job);
      }
      if key in eventArchives { return Err(Conflict); }
      if task !in tasks || tasks[task].complete { return Err(Conflict); }
      Enqueue(CaptureJob, Some(task), payload, id, now);
      events := events[key := Recorded(payload, id)];
      r := Ok(id);
    }

    /** `_capture_finding`: a replay is recognised by content, whenever it happens; the first capture time stands. */
    method CaptureFinding(task: Task, event: string, summary: string, sources: seq<string>, id: JobId, now: Time)
        returns (r: Result<JobId>)
      modifies this`jobs, this`events
      ensures
        var key := (task, event);
        var known := key in old(events);
        var capturedAt :=
          if known && old(events)[key].payload.Evidence? then old(events)[key].payload.report.capturedAt else now;
        var payload := Evidence(Report(summary, sources, capturedAt));
        if known then
          && jobs == old(jobs) && events == old(events)
          && r == if old(events)[key].payload == payload then Ok(old(events)[key].job) else Err(Conflict)
        else if key in eventArchives || task !in tasks || tasks[task].complete then
          r == Err(Conflict) && jobs == old(jobs) && events == old(events)
        else
          && r == Ok(id)
          && jobs == old(jobs)[id := Fresh(CaptureJob, Some(task), payload, now)]
          && events == old(events)[key := Recorded(payload, id)]
      ensures
        var key := (task, event);
        key in old(events) && old(events)[key].payload.Evidence? ==>
          var first := old(events)[key].payload.report;
          r == if first.summary == summary && first.sources == sources then Ok(old(events)[key].job) else Err(Conflict)
    {
      var key := (task, event);
      var capturedAt :=
        if key in events && events[key].payload.Evidence? then events[key].payload.report.capturedAt else now;
      r := Capture(task, event, Evidence(Report(summary, sources, capturedAt)), id, now);
    }

    method ScheduleDream(id: JobId, now: Time)
      modifies this`jobs
      ensures jobs == Scheduled(old(jobs), db.Snapshot(), policy, id, now)
    {
      if db.writes - db.dreamWrites < policy.dreamAfterWrites { return; }
      if !DreamWaiting(jobs) { Enqueue(DreamJob, None, Consolidation(None, false), id, now); }
    }

    /** `claim`: expire what is exhausted, then lease the first ready job under a new token. */
    method Claim(token: Token, now: Time) returns (claimed: Option<JobId>)
      modifies this`jobs
      ensures
        var swept := Swept(old(jobs), now, policy.maxAttempts);
        match claimed
        case None => jobs == swept && forall id :: id in swept ==> !Ready(swept[id], now, policy.maxAttempts)
        case Some(id) =>
          FirstReady(swept, now, policy.maxAttempts, id) && jobs == swept[id := Leased(swept[id], token, now, policy)]
      ensures claimed.Some? ==>
        && claimed.value in old(jobs) && claimed.value in jobs
        && var x, y := old(jobs)[claimed.value], jobs[claimed.value];
        && y == x.(status := Running, token := Some(token), lease := y.lease, attempts := x.attempts + 1)
        && y.lease == Some(now + policy.leaseSeconds) && y.attempts <= policy.maxAttempts
    {
      jobs := Swept(jobs, now, policy.maxAttempts);
      ghost var swept := jobs;
      claimed := None;
      var rest := jobs.Keys;
      while rest != {}
        invariant rest <= jobs.Keys && jobs == swept
        invariant claimed.Some? ==>
          claimed.value in jobs.Keys - rest && Ready(jobs[claimed.value], now, policy.maxAttempts)
        invariant forall x :: x in jobs.Keys - rest && Ready(jobs[x], now, policy.maxAttempts) ==>
            claimed.Some? && (x == claimed.value || Sooner(jobs, claimed.value, x))
        decreases rest
      {
        var id :| id in rest;
        if Ready(jobs[id], now, policy.maxAttempts) {
          if claimed.None? {
            claimed := Some(id);
          } else {
            forall x | x in jobs.Keys - rest && Ready(jobs[x], now, policy.maxAttempts) && x != claimed.value
                && Sooner(jobs, id, claimed.value)
              ensures Sooner(jobs, id, x)
            {
              SoonerTransitive(jobs, id, claimed.value, x);
            }
            SoonerTotal(jobs, id, claimed.value);
            if Sooner(jobs, id, claimed.value) { claimed := Some(id); }
          }
        }
        rest := rest - {id};
      }
      if claimed.Some? {
        jobs := jobs[claimed.value := Leased(jobs[claimed.value], token, now, policy)];
      }
    }

    /** `finish`: only under the lease. */
    method Finish(id: JobId, token: Token, status: JobStatus, result: JobResult, now: Time) returns (ok: bool)
      modifies this`jobs
      ensures ok <==> HoldsLease(old(jobs), id, token, now)
      ensures jobs == if ok then old(jobs)[id := Finished(old(jobs)[id], status, result)] else old(jobs)
    {
      if !HoldsLease(jobs, id, token, now) { return false; }
      jobs := jobs[id := jobs[id].(status := status, result := result, token := None, lease := None)];
      ok := true;
    }

    /** `fail`: a worker that lost its lease changes nothing. */
    method Fail(id: JobId, token: Token, attempts: nat, now: Time)
      modifies this`jobs
      ensures jobs == if HoldsLease(old(jobs), id, token, now)
        then old(jobs)[id := Requeued(old(jobs)[id], attempts, policy, now)] else old(jobs)
    {
      var status := if attempts >= policy.maxAttempts then Failed else Pending;
      var finished := Finish(id, token, status, Blank, now);
      if finished {
        jobs := jobs[id := jobs[id].(available := now + Backoff(policy, attempts))];
      }
    }

    method Review(id: JobId, accept: bool) returns (r: Result<()>)
      modifies this`jobs
      ensures
        if id !in old(jobs) || old(jobs)[id].status != Proposed
            || (accept && GenerationOf(old(jobs)[id].result) != Some(db.generation))
        then r == Err(Conflict) && jobs == old(jobs)
        else r == Ok(()) && jobs == old(jobs)[id := Reviewed(old(jobs)[id], accept)]
      ensures r.Ok? ==>
        && id in old(jobs) && id in jobs && jobs[id].status == (if accept then Pending else Rejected)
        && match old(jobs)[id].result
           case Suggested(d, g, _, basis) => jobs[id].result == Suggested(d, g, accept, basis)
           case PlanOffered(plan, g, _) => jobs[id].result == PlanOffered(plan, g, accept)
           case other => jobs[id].result == other
    {
      if id !in jobs || jobs[id].status != Proposed { return Err(Conflict); }
      if accept && GenerationOf(jobs[id].result) != Some(db.generation) { return Err(Conflict); }
      jobs := jobs[id := Reviewed(jobs[id], accept)];
      r := Ok(());
    }

    method Retry(id: JobId) returns (r: Result<()>)
      modifies this`jobs
      ensures
        if id in old(jobs) && old(jobs)[id].status in {Failed, Proposed, Rejected}
        then r == Ok(()) && jobs == old(jobs)[id := Retried(old(jobs)[id])]
        else r == Err(Conflict) && jobs == old(jobs)
    {
      if id !in jobs || jobs[id].status !in {Failed, Proposed, Rejected} { return Err(Conflict); }
      jobs := jobs[id := Retried(jobs[id])];
      r := Ok(());
    }

    /** `scan_for`: pin the window once; a retry or a restart gets the same one. */
    method ScanFor(id: JobId, token: Token, now: Time) returns (r: Option<Scan>)
      requires id in jobs ==> jobs[id].status == Running ==> jobs[id].payload.Consolidation?
      modifies this`jobs
      ensures r.Some? <==> HoldsLease(old(jobs), id, token, now)
      ensures r.None? ==> jobs == old(jobs)
      ensures r.Some? ==>
        var payload := old(jobs)[id].payload;
        && r.value == (if payload.scan.Some? then payload.scan.value else Pin(db.Snapshot(), id))
        && jobs == old(jobs)[id := old(jobs)[id].(payload := payload.(scan := Some(r.value)))]
    {
      if !HoldsLease(jobs, id, token, now) { return None; }
      var payload := jobs[id].payload;
      if payload.scan.None? {
        payload := payload.(scan := Some(Pin(db.Snapshot(), id)));
        jobs := jobs[id := jobs[id].(payload := payload)];
      }
      r := payload.scan;
    }

    /** `advance`. */
    method Advance(id: JobId, cursor: Key, spare: JobId, now: Time)
      requires id in jobs && spare !in jobs
      modifies this`jobs, db`cursor, db`dreamWrites
      ensures Progress(jobs, db.Snapshot()) == Advanced(old(jobs), old(db.Snapshot()), id, cursor, policy, spare, now)
    {
      var payload := jobs[id].payload;
      if !payload.Consolidation? || payload.continued || payload.scan.None? { return; }
      var scan := payload.scan.value;
      var more := More(db.Snapshot(), scan.end, cursor);
      if more {
        Enqueue(DreamJob, None, Consolidation(Some(scan.(cursor := cursor)), false), spare, now);
      } else {
        db.dreamWrites := Max(db.dreamWrites, scan.writes);
      }
      if KeyBelow(db.cursor, cursor) { db.cursor := cursor; }
      jobs := jobs[id := jobs[id].(payload := payload.(continued := true))];
      if !more { ScheduleDream(spare, now); }
    }
  }
}
