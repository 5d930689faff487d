/** Rows of the job and event tables and what each statement of `memory_core/runtime/queue.py`,
    `memory_core/runtime/dreams.py` and the review operations of `memory_core/runtime/core.py` does to them. */
module Jobs {
  import opened Types
  import opened Counting
  import opened Ordering
  import opened Store
  import opened Reconciliation

  type JobId = string
  type Token = string
  type Task = string
  type PlanId = string
  type Time = int

  datatype JobKind = CaptureJob | DreamJob

  datatype JobStatus = Pending | Running | Proposed | Done | Failed | Rejected

  /** A pinned scan: records after `cursor` up to generation `end`. `pass` (the job that pinned it) and `window` (the
      keys it covered then) are annotations: no operation reads them. */
  datatype Scan = Scan(cursor: Key, end: nat, writes: nat, pass: JobId, window: set<Key>)

  /** What a finding or an outcome reports; `sources` are the evidence URIs without repeats. */
  datatype Report = Report(summary: string, sources: seq<string>, capturedAt: Time)

  datatype TaskRow = TaskRow(attributes: map<string, Value>, project: Option<string>, complete: bool)

  datatype Payload =
    | Evidence(report: Report)
    | Consolidation(scan: Option<Scan>, continued: bool)
    | Compacted

  /** `basis`, the state a suggestion was computed from, is an annotation too. */
  datatype JobResult =
    | Blank
    | Suggested(decision: Decision, generation: nat, approved: bool, basis: State)
    | PlanOffered(plan: PlanId, generation: nat, approved: bool)
    | Stored(id: Id)
    | Consolidated(plan: PlanId)

  datatype Job = Job(
    kind: JobKind,
    task: Option<Task>,
    payload: Payload,
    status: JobStatus,
    attempts: nat,
    available: Time,
    lease: Option<Time>,
    token: Option<Token>,
    result: JobResult)

  type Table = map<JobId, Job>

  datatype Policy = Policy(
    maxAttempts: nat,
    leaseSeconds: nat,
    retrySeconds: nat,
    dreamAfterWrites: nat,
    batchSize: nat,
    applyExact: bool,
    applySemantic: bool)

  predicate ValidPolicy(p: Policy) {
    p.maxAttempts >= 1 && p.leaseSeconds >= 1 && p.dreamAfterWrites >= 1 && p.batchSize >= 1
  }

  // ---------- claiming ----------

  predicate Exhausted(j: Job, now: Time, max: nat) {
    j.status == Running && j.lease.Some? && j.lease.value <= now && j.attempts >= max
  }

  /** The first statement of `claim`. */
  function Swept(jobs: Table, now: Time, max: nat): Table {
    map id | id in jobs ::
      if Exhausted(jobs[id], now, max) then jobs[id].(status := Failed, token := None) else jobs[id]
  }

  predicate Ready(j: Job, now: Time, max: nat) {
    && ((j.status == Pending && j.available <= now) || (j.status == Running && j.lease.Some? && j.lease.value <= now))
    && j.attempts < max
  }

  predicate Sooner(jobs: Table, a: JobId, b: JobId)
    requires a in jobs && b in jobs
  {
    jobs[a].available < jobs[b].available || (jobs[a].available == jobs[b].available && Below(a, b))
  }

  lemma SoonerTransitive(jobs: Table, a: JobId, b: JobId, c: JobId)
    requires a in jobs && b in jobs && c in jobs && Sooner(jobs, a, b) && Sooner(jobs, b, c)
    ensures Sooner(jobs, a, c)
  {
    if jobs[a].available == jobs[b].available == jobs[c].available { BelowTransitive(a, b, c); }
  }

  lemma SoonerTotal(jobs: Table, a: JobId, b: JobId)
    requires a in jobs && b in jobs
    ensures a == b || Sooner(jobs, a, b) || Sooner(jobs, b, a)
  {
    BelowTrichotomy(a, b);
  }

  /** `ORDER BY available,id LIMIT 1` over the ready jobs. */
  ghost predicate FirstReady(jobs: Table, now: Time, max: nat, id: JobId) {
    && id in jobs && Ready(jobs[id], now, max)
    && forall x :: x in jobs && Ready(jobs[x], now, max) && x != id ==> Sooner(jobs, id, x)
  }

  ghost predicate SoonestOf(jobs: Table, ids: set<JobId>, id: JobId)
    requires ids <= jobs.Keys
  {
    id in ids && forall x :: x in ids && x != id ==> Sooner(jobs, id, x)
  }

  lemma {:induction false} SoonestExists(jobs: Table, ids: set<JobId>)
    requires ids <= jobs.Keys && ids != {}
    ensures exists id :: SoonestOf(jobs, ids, id)
    decreases ids
  {
    var id :| id in ids;
    var rest := ids - {id};
    if rest == {} {
      assert ids == {id};
      assert SoonestOf(jobs, ids, id);
    } else {
      SoonestExists(jobs, rest);
      var first :| SoonestOf(jobs, rest, first);
      SoonerTotal(jobs, id, first);
      if Sooner(jobs, id, first) {
        forall x | x in ids && x != id ensures Sooner(jobs, id, x) {
          if x != first { SoonerTransitive(jobs, id, first, x); }
        }
        assert SoonestOf(jobs, ids, id);
      } else {
        assert SoonestOf(jobs, ids, first);
      }
    }
  }

  /** While some job is ready, one of them comes first. */
  lemma FirstReadyExists(jobs: Table, now: Time, max: nat, id: JobId)
    requires id in jobs && Ready(jobs[id], now, max)
    ensures exists x :: FirstReady(jobs, now, max, x)
  {
    var ids := set x | x in jobs && Ready(jobs[x], now, max);
    assert id in ids;
    SoonestExists(jobs, ids);
    var first :| SoonestOf(jobs, ids, first);
    assert FirstReady(jobs, now, max, first);
  }

  function Leased(j: Job, token: Token, now: Time, p: Policy): Job {
    j.(status := Running, token := Some(token), lease := Some(now + p.leaseSeconds), attempts := j.attempts + 1)
  }

  // ---------- finishing ----------

  /** `assert_lease`. */
  predicate HoldsLease(jobs: Table, id: JobId, token: Token, now: Time) {
    && id in jobs && jobs[id].status == Running && jobs[id].token == Some(token)
    && jobs[id].lease.Some? && jobs[id].lease.value > now
  }

  function Finished(j: Job, status: JobStatus, result: JobResult): Job {
    j.(status := status, result := result, token := None, lease := None)
  }

  function Power2(n: nat): nat { if n == 0 then 1 else 2 * Power2(n - 1) }

  function Backoff(p: Policy, attempts: nat): nat {
    var delay := p.retrySeconds * Power2(if attempts > 0 then attempts - 1 else 0);
    if delay < 3600 then delay else 3600
  }

  lemma {:induction false} PowersGrow(n: nat, m: nat)
    requires n <= m
    ensures 1 <= Power2(n) <= Power2(m)
    decreases m
  {
    if n < m { PowersGrow(n, m - 1); } else if n > 0 { PowersGrow(n - 1, m - 1); }
  }

  /** Retries wait longer each time, but never more than an hour. */
  lemma BackoffGrows(p: Policy, attempts: nat, later: nat)
    requires attempts <= later
    ensures Backoff(p, attempts) <= Backoff(p, later) <= 3600
  {
    var n, m := if attempts > 0 then attempts - 1 else 0, if later > 0 then later - 1 else 0;
    PowersGrow(n, m);
    Multiplied(p.retrySeconds, Power2(n), Power2(m));
  }

  lemma Multiplied(k: nat, x: nat, y: nat)
    requires x <= y
    ensures k * x <= k * y
  {
  }

  /** `fail` under a held lease: back to pending while attempts remain, and whatever result was stored is dropped. */
  function Requeued(j: Job, attempts: nat, p: Policy, now: Time): Job {
    Finished(j, if attempts >= p.maxAttempts then Failed else Pending, Blank).(available := now + Backoff(p, attempts))
  }

  // ---------- creating ----------

  function Fresh(kind: JobKind, task: Option<Task>, payload: Payload, now: Time): Job {
    Job(kind, task, payload, Pending, 0, now, None, None, Blank)
  }

  predicate DreamWaiting(jobs: Table) {
    exists id :: id in jobs && jobs[id].kind == DreamJob && (jobs[id].status == Pending || jobs[id].status == Running)
  }

  /** `schedule_dream`. */
  function Scheduled(jobs: Table, s: State, p: Policy, spare: JobId, now: Time): Table {
    if s.writes - s.dreamWrites < p.dreamAfterWrites || DreamWaiting(jobs) then jobs
    else jobs[spare := Fresh(DreamJob, None, Consolidation(None, false), now)]
  }

  datatype Recorded = Recorded(payload: Payload, job: JobId)

  type EventKey = (Task, string)

  /** The observation a capture job stores. It depends on the job and its task alone, so every attempt stores the
      same. */
  function ObservationOf(id: JobId, task: Task, row: TaskRow, report: Report): Memory {
    Memory(id,
           match row.project case Some(p) => ProjectScope(p) case None => UserScope,
           Active, report.summary,
           if report.sources != [] then report.sources else ["task:" + task],
           row.attributes, report.capturedAt, report.capturedAt, 1, None,
           Observed(report.summary, report.capturedAt))
  }

  // ---------- reviewing ----------

  function Reviewed(j: Job, accept: bool): Job {
    j.(status := if accept then Pending else Rejected, attempts := 0, available := 0,
       result := match j.result
                 case Suggested(d, g, _, b) => Suggested(d, g, accept, b)
                 case PlanOffered(plan, g, _) => PlanOffered(plan, g, accept)
                 case r => r)
  }

  function GenerationOf(r: JobResult): Option<nat> {
    match r
    case Suggested(_, g, _, _) => Some(g)
    case PlanOffered(_, g, _) => Some(g)
    case _ => None
  }

  function Retried(j: Job): Job {
    j.(status := Pending, attempts := 0, available := 0, result := Blank, token := None, lease := None)
  }

  // ---------- scanning ----------

  /** The records a scan still has before it. */
  function WindowKeys(s: State, cursor: Key, end: nat): set<Key> {
    set id | id in s.rows && s.rows[id].generation <= end && KeyBelow(cursor, Key(s.rows[id].generation, id)) ::
      Key(s.rows[id].generation, id)
  }

  /** What `scan_for` pins. */
  function Pin(s: State, id: JobId): Scan {
    Scan(s.cursor, s.generation, s.writes, id, WindowKeys(s, s.cursor, s.generation))
  }

  predicate More(s: State, end: nat, cursor: Key) {
    WindowKeys(s, cursor, end) != {}
  }

  datatype Progress = Progress(jobs: Table, store: State)

  function Further(a: Key, b: Key): Key { if KeyBelow(a, b) then b else a }

  /** `advance`: a pinned, not yet continued job either hands the rest of its window to one new job or accounts for the
      pass, moves the owner's cursor forward only, and is marked so that it never does so again. */
  function Advanced(jobs: Table, s: State, id: JobId, cursor: Key, p: Policy, spare: JobId, now: Time): (r: Progress)
    requires id in jobs
  {
    var payload := jobs[id].payload;
    if !payload.Consolidation? || payload.continued || payload.scan.None? then Progress(jobs, s)
    else
      var scan := payload.scan.value;
      var more := More(s, scan.end, cursor);
      var next := Fresh(DreamJob, None, Consolidation(Some(scan.(cursor := cursor)), false), now);
      var jobs1 := if more then jobs[spare := next] else jobs;
      var s1 := s.(
        cursor := Further(s.cursor, cursor),
        dreamWrites := if more then s.dreamWrites else Max(s.dreamWrites, scan.writes));
      var jobs2 := jobs1[id := jobs[id].(payload := payload.(continued := true))];
      Progress(if more then jobs2 else Scheduled(jobs2, s1, p, spare, now), s1)
  }
}
