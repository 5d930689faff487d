/** Leases fence workers: every job row and every claim stay consistent, only the current token can commit, and a
    capture takes effect at most once, together with its acknowledgement. */
module Fencing {
  import opened Types
  import opened Counting
  import opened Store
  import opened Jobs
  import opened Protocol
  import Dream
  import Reconciliation
  import Remember
  import Runs

  // ---------- one row ----------

  /** What every job row satisfies. */
  predicate RowOk(p: Policy, j: Job) {
    && (j.status == Running <==> j.token.Some?)
    && (j.status == Running ==> j.lease.Some? && j.attempts >= 1)
    && (j.status == Pending ==> j.attempts < p.maxAttempts)
    && j.attempts <= p.maxAttempts
    && (j.status != Done ==>
      if j.kind.CaptureJob? then j.payload.Evidence? && j.task.Some? else j.payload.Consolidation?)
    && (j.status == Proposed ==> if j.kind.CaptureJob? then j.result.Suggested? else j.result.PlanOffered?)
    && (if j.kind.CaptureJob? then j.result.Blank? || j.result.Suggested? || j.result.Stored?
        else j.result.Blank? || j.result.PlanOffered? || j.result.Consolidated?)
    && (Approved(j.result) ==> j.status in {Pending, Running, Failed})
    && (j.result.Stored? || j.result.Consolidated? <==> j.status == Done)
  }

  /** The current token's claim was issued for this row and this attempt, and saw this result. */
  predicate ClaimOk(id: JobId, j: Job, claims: map<Token, Claim>) {
    j.token.Some? ==>
      && j.token.value in claims
      && var c := claims[j.token.value];
      c.job == id && c.attempts == j.attempts && c.result == j.result
  }

  ghost predicate Fenced(p: Policy, jobs: Table, claims: map<Token, Claim>) {
    forall id :: id in jobs ==> RowOk(p, jobs[id]) && ClaimOk(id, jobs[id], claims)
  }

  /** A worker drafts unapproved suggestions for captures, and plans for dreams. */
  predicate DraftOk(c: Claim, kind: JobKind) {
    match c.stage
    case Started => true
    case Drafted(o) => kind.CaptureJob? && o.Suggested? && !o.approved
    case Pinned(_) => kind.DreamJob?
    case Planned(_) => kind.DreamJob?
  }

  ghost predicate Drafts(claims: map<Token, Claim>, jobs: Table) {
    forall t :: t in claims ==> claims[t].job in jobs && DraftOk(claims[t], jobs[claims[t].job].kind)
  }

  // ---------- kinds of table changes ----------

  lemma RowChanged(p: Policy, jobs: Table, claims: map<Token, Claim>, id: JobId, j: Job)
    requires Fenced(p, jobs, claims) && RowOk(p, j) && ClaimOk(id, j, claims)
    ensures Fenced(p, jobs[id := j], claims)
  {
  }

  lemma SweepKeeps(p: Policy, jobs: Table, claims: map<Token, Claim>, now: Time)
    requires Fenced(p, jobs, claims)
    ensures Fenced(p, Swept(jobs, now, p.maxAttempts), claims)
  {
  }

  lemma ClaimAdded(p: Policy, jobs: Table, claims: map<Token, Claim>, token: Token, c: Claim)
    requires Fenced(p, jobs, claims) && token !in claims
    ensures Fenced(p, jobs, claims[token := c])
  {
  }

  lemma StageMoved(p: Policy, jobs: Table, claims: map<Token, Claim>, token: Token, stage: Stage)
    requires Fenced(p, jobs, claims) && token in claims
    ensures Fenced(p, jobs, claims[token := claims[token].(stage := stage)])
  {
  }

  lemma FreshOk(p: Policy, kind: JobKind, task: Option<Task>, payload: Payload, now: Time)
    requires ValidPolicy(p) && if kind.CaptureJob? then payload.Evidence? && task.Some? else payload.Consolidation?
    ensures RowOk(p, Fresh(kind, task, payload, now)) && Fresh(kind, task, payload, now).token.None?
  {
  }

  lemma ScheduleKeeps(p: Policy, jobs: Table, claims: map<Token, Claim>, s: State, spare: JobId, now: Time)
    requires ValidPolicy(p) && Fenced(p, jobs, claims)
    ensures Fenced(p, Scheduled(jobs, s, p, spare, now), claims)
  {
    FreshOk(p, DreamJob, None, Consolidation(None, false), now);
  }

  lemma AdvanceKeeps(p: Policy, jobs: Table, claims: map<Token, Claim>, s: State, id: JobId, cursor: Key, spare: JobId,
                     now: Time)
    requires ValidPolicy(p) && Fenced(p, jobs, claims) && id in jobs && jobs[id].kind.DreamJob? && jobs[id].token.None?
    ensures Fenced(p, Advanced(jobs, s, id, cursor, p, spare, now).jobs, claims)
  {
    hide Fenced, Scheduled;
    var payload := jobs[id].payload;
    if payload.Consolidation? && !payload.continued && payload.scan.Some? {
      var scan := payload.scan.value;
      var more := More(s, scan.end, cursor);
      var next := Fresh(DreamJob, None, Consolidation(Some(scan.(cursor := cursor)), false), now);
      FreshOk(p, DreamJob, None, Consolidation(Some(scan.(cursor := cursor)), false), now);
      RowAt(p, jobs, claims, id);
      var jobs1 := if more then jobs[spare := next] else jobs;
      if more { RowChanged(p, jobs, claims, spare, next); }
      var moved := jobs[id].(payload := payload.(continued := true));
      RowChanged(p, jobs1, claims, id, moved);
      var s1 := s.(
        cursor := Further(s.cursor, cursor),
        dreamWrites := if more then s.dreamWrites else Max(s.dreamWrites, scan.writes));
      ScheduleKeeps(p, jobs1[id := moved], claims, s1, spare, now);
    }
  }

  lemma RowAt(p: Policy, jobs: Table, claims: map<Token, Claim>, id: JobId)
    requires Fenced(p, jobs, claims) && id in jobs
    ensures RowOk(p, jobs[id]) && ClaimOk(id, jobs[id], claims)
  {
  }

  // ---------- what only ever grows ----------

  predicate PayloadGrows(x: Payload, y: Payload) {
    match x
    case Evidence(_) => y == x
    case Compacted => y == x
    case Consolidation(scan, continued) =>
      y.Consolidation? && (scan.Some? ==> y.scan == scan) && (continued ==> y.continued)
  }

  /** A later version of a row: what it is for never changes, a pinned scan stays pinned, and done is final. */
  predicate RowGrows(x: Job, y: Job) {
    && y.kind == x.kind && y.task == x.task
    && (x.status == Done ==> y.status == Done && y.result == x.result)
    && ((y.payload.Compacted? && y.status == Done) || PayloadGrows(x.payload, y.payload))
  }

  ghost predicate Grows(x: Table, y: Table) {
    forall id :: id in x ==> id in y && RowGrows(x[id], y[id])
  }

  lemma GrowsReflexive(x: Table)
    ensures Grows(x, x)
  {
  }

  lemma GrowsTransitive(x: Table, y: Table, z: Table)
    requires Grows(x, y) && Grows(y, z)
    ensures Grows(x, z)
  {
    forall id | id in x ensures id in z && RowGrows(x[id], z[id]) {
      assert RowGrows(x[id], y[id]) && RowGrows(y[id], z[id]);
    }
  }

  lemma RowGrown(x: Table, id: JobId, j: Job)
    requires id in x ==> RowGrows(x[id], j)
    ensures Grows(x, x[id := j])
  {
  }

  lemma SweepGrows(x: Table, now: Time, max: nat)
    ensures Grows(x, Swept(x, now, max))
  {
  }

  lemma ScheduleGrows(x: Table, s: State, p: Policy, spare: JobId, now: Time)
    requires spare !in x
    ensures Grows(x, Scheduled(x, s, p, spare, now))
  {
    GrowsReflexive(x);
  }

  lemma AdvanceGrows(x: Table, s: State, id: JobId, cursor: Key, p: Policy, spare: JobId, now: Time)
    requires id in x && spare !in x
    ensures Grows(x, Advanced(x, s, id, cursor, p, spare, now).jobs)
  {
    hide Grows, Scheduled;
    GrowsReflexive(x);
    var payload := x[id].payload;
    if payload.Consolidation? && !payload.continued && payload.scan.Some? {
      var scan := payload.scan.value;
      var more := More(s, scan.end, cursor);
      var next := Fresh(DreamJob, None, Consolidation(Some(scan.(cursor := cursor)), false), now);
      var x1 := if more then x[spare := next] else x;
      RowGrown(x, spare, next);
      var moved := x[id].(payload := payload.(continued := true));
      RowGrown(x1, id, moved);
      GrowsTransitive(x, x1, x1[id := moved]);
      var s1 := s.(
        cursor := Further(s.cursor, cursor),
        dreamWrites := if more then s.dreamWrites else Max(s.dreamWrites, scan.writes));
      if !more {
        ScheduleGrows(x1[id := moved], s1, p, spare, now);
        GrowsTransitive(x, x1[id := moved], Scheduled(x1[id := moved], s1, p, spare, now));
      }
    }
  }

  // ---------- each step ----------

  ghost predicate Guarded(p: Policy, a: System) {
    Fenced(p, a.jobs, a.claims) && Drafts(a.claims, a.jobs)
  }

  /** What a step keeps of the tables. */
  ghost predicate Kept(p: Policy, a: System, b: System) {
    Guarded(p, b) && Grows(a.jobs, b.jobs)
  }

  lemma DraftsGrow(claims: map<Token, Claim>, x: Table, y: Table)
    requires Drafts(claims, x) && Grows(x, y)
    ensures Drafts(claims, y)
  {
    forall t | t in claims ensures claims[t].job in y && DraftOk(claims[t], y[claims[t].job].kind) {
      assert RowGrows(x[claims[t].job], y[claims[t].job]);
    }
  }

  lemma DraftsAdd(claims: map<Token, Claim>, jobs: Table, token: Token, c: Claim)
    requires Drafts(claims, jobs) && c.job in jobs && DraftOk(c, jobs[c.job].kind)
    ensures Drafts(claims[token := c], jobs)
  {
  }

  lemma DraftAt(claims: map<Token, Claim>, jobs: Table, token: Token)
    requires Drafts(claims, jobs) && token in claims
    ensures claims[token].job in jobs && DraftOk(claims[token], jobs[claims[token].job].kind)
  {
  }

  lemma LeaseKeeps(p: Policy, a: System, id: JobId, token: Token, now: Time, b: System)
    requires ValidPolicy(p) && Guarded(p, a) && Leases(p, a, id, token, now, b)
    ensures Kept(p, a, b)
  {
    hide Fenced, Drafts, Grows;
    var swept := Swept(a.jobs, now, p.maxAttempts);
    SweepKeeps(p, a.jobs, a.claims, now);
    RowAt(p, swept, a.claims, id);
    var c := Claim(id, swept[id].attempts + 1, swept[id].result, Started);
    ClaimAdded(p, swept, a.claims, token, c);
    RowChanged(p, swept, b.claims, id, Leased(swept[id], token, now, p));
    SweepGrows(a.jobs, now, p.maxAttempts);
    RowGrown(swept, id, Leased(swept[id], token, now, p));
    GrowsTransitive(a.jobs, swept, b.jobs);
    DraftsGrow(a.claims, a.jobs, b.jobs);
    DraftsAdd(a.claims, b.jobs, token, c);
  }

  lemma PinKeeps(p: Policy, a: System, token: Token, now: Time, b: System)
    requires Guarded(p, a) && Pins(p, a, token, now, b)
    ensures Kept(p, a, b)
  {
    hide Fenced, Drafts, Grows;
    var id := JobOf(a, token);
    RowAt(p, a.jobs, a.claims, id);
    StageMoved(p, a.jobs, a.claims, token, b.claims[token].stage);
    RowAt(p, a.jobs, b.claims, id);
    RowChanged(p, a.jobs, b.claims, id, b.jobs[id]);
    RowGrown(a.jobs, id, b.jobs[id]);
    DraftsGrow(a.claims, a.jobs, b.jobs);
    DraftsAdd(a.claims, b.jobs, token, b.claims[token]);
  }

  lemma SaveKeeps(p: Policy, a: System, token: Token, id: PlanId, plan: Plan, b: System)
    requires Guarded(p, a) && Saves(p, a, token, id, plan, b)
    ensures Kept(p, a, b)
  {
    hide Fenced, Drafts, Grows;
    GrowsReflexive(a.jobs);
    DraftAt(a.claims, a.jobs, token);
    StageMoved(p, a.jobs, a.claims, token, Planned(id));
    DraftsAdd(a.claims, a.jobs, token, b.claims[token]);
  }

  lemma DraftKeeps(p: Policy, a: System, token: Token, vector: Vector, i: Remember.Inspection,
                   d: Reconciliation.Decision, now: Time, b: System)
    requires Guarded(p, a) && DraftsCapture(p, a, token, vector, i, d, now, b)
    ensures Kept(p, a, b)
  {
    hide Fenced, Drafts, Grows, Permitted, Remember.Persist, Remember.Inspects, Remember.Decides;
    GrowsReflexive(a.jobs);
    RowAt(p, a.jobs, a.claims, JobOf(a, token));
    StageMoved(p, a.jobs, a.claims, token, b.claims[token].stage);
    DraftsAdd(a.claims, a.jobs, token, b.claims[token]);
  }

  /** Finishing drops the token, so any result of the right kind may follow. */
  lemma FinishKeeps(p: Policy, jobs: Table, claims: map<Token, Claim>, id: JobId, status: JobStatus, result: JobResult)
    requires Fenced(p, jobs, claims) && id in jobs && status in {Done, Proposed} && jobs[id].status != Done
    requires
      var capture := jobs[id].kind.CaptureJob?;
      && (status == Done ==> if capture then result.Stored? else result.Consolidated?)
      && (status == Proposed ==> (if capture then result.Suggested? else result.PlanOffered?) && !Approved(result))
    ensures Fenced(p, jobs[id := Finished(jobs[id], status, result)], claims)
    ensures Grows(jobs, jobs[id := Finished(jobs[id], status, result)])
  {
    hide Fenced, Grows;
    RowAt(p, jobs, claims, id);
    RowChanged(p, jobs, claims, id, Finished(jobs[id], status, result));
    RowGrown(jobs, id, Finished(jobs[id], status, result));
  }

  /** Acknowledging a dream and moving its scan on. */
  lemma AdvancedKeeps(p: Policy, jobs: Table, claims: map<Token, Claim>, id: JobId, status: JobStatus,
                      result: JobResult, s: State, cursor: Key, spare: JobId, now: Time)
    requires ValidPolicy(p) && Fenced(p, jobs, claims) && id in jobs && jobs[id].status == Running
      && jobs[id].kind.DreamJob? && spare !in jobs
    requires (status == Done && result.Consolidated?)
      || (status == Proposed && result.PlanOffered? && !Approved(result))
    ensures
      var next := Advanced(jobs[id := Finished(jobs[id], status, result)], s, id, cursor, p, spare, now).jobs;
      Fenced(p, next, claims) && Grows(jobs, next)
  {
    hide Fenced, Grows, Advanced;
    var finished := jobs[id := Finished(jobs[id], status, result)];
    FinishKeeps(p, jobs, claims, id, status, result);
    AdvanceKeeps(p, finished, claims, s, id, cursor, spare, now);
    AdvanceGrows(finished, s, id, cursor, p, spare, now);
    GrowsTransitive(jobs, finished, Advanced(finished, s, id, cursor, p, spare, now).jobs);
  }

  lemma ApplyKeeps(p: Policy, a: System, token: Token, vectors: seq<Vector>, spare: JobId, now: Time, b: System)
    requires ValidPolicy(p) && Guarded(p, a) && AppliesPlan(p, a, token, vectors, spare, now, b)
    ensures Kept(p, a, b)
  {
    hide Fenced, Drafts, Grows, Advanced, Dream.ApplyPlan, Automatic;
    var id :| AppliesThis(p, a, token, id, vectors, spare, now, b);
    var job := JobOf(a, token);
    DraftAt(a.claims, a.jobs, token);
    var plan := a.plans[id];
    var applied := Dream.ApplyPlan(a.store, plan.groups, plan.changes, vectors, now);
    AdvancedKeeps(p, a.jobs, a.claims, job, Done, Consolidated(id), applied.value, plan.cursor, spare, now);
    DraftsGrow(a.claims, a.jobs, b.jobs);
  }

  lemma OfferKeeps(p: Policy, a: System, token: Token, spare: JobId, now: Time, b: System)
    requires ValidPolicy(p) && Guarded(p, a) && OffersPlan(p, a, token, spare, now, b)
    ensures Kept(p, a, b)
  {
    hide Fenced, Drafts, Grows, Advanced, Automatic;
    var claim := a.claims[token];
    DraftAt(a.claims, a.jobs, token);
    var plan := a.plans[claim.stage.plan];
    var result := PlanOffered(claim.stage.plan, plan.generation, false);
    AdvancedKeeps(p, a.jobs, a.claims, claim.job, Proposed, result, a.store, plan.cursor, spare, now);
    DraftsGrow(a.claims, a.jobs, b.jobs);
  }

  lemma StoreKeeps(p: Policy, a: System, token: Token, vector: Vector, i: Remember.Inspection,
                   d: Reconciliation.Decision, spare: JobId, now: Time, b: System)
    requires ValidPolicy(p) && Guarded(p, a) && StoresCapture(p, a, token, vector, i, d, spare, now, b)
    ensures Kept(p, a, b)
  {
    hide Fenced, Drafts, Grows, Scheduled, Permitted, Remember.Persist, Remember.Inspects, Remember.Decides;
    var t :| Persists(a, token, vector, i, d, now, t) && StoresThis(p, a, token, i, d, spare, now, t, b);
    var id := JobOf(a, token);
    var jobs := Scheduled(a.jobs, t, p, spare, now);
    RowAt(p, a.jobs, a.claims, id);
    ScheduleKeeps(p, a.jobs, a.claims, t, spare, now);
    ScheduleGrows(a.jobs, t, p, spare, now);
    ScheduleOthers(p, a.jobs, t, spare, now, id);
    FinishKeeps(p, jobs, a.claims, id, Done, Stored(if d.Attach? then d.target else i.memory.id));
    GrowsTransitive(a.jobs, jobs, b.jobs);
    DraftsGrow(a.claims, a.jobs, b.jobs);
  }

  lemma ScheduleOthers(p: Policy, jobs: Table, s: State, spare: JobId, now: Time, id: JobId)
    requires spare !in jobs && id in jobs
    ensures id in Scheduled(jobs, s, p, spare, now) && Scheduled(jobs, s, p, spare, now)[id] == jobs[id]
  {
  }

  lemma OfferCaptureKeeps(p: Policy, a: System, token: Token, now: Time, b: System)
    requires Guarded(p, a) && OffersCapture(p, a, token, now, b)
    ensures Kept(p, a, b)
  {
    hide Fenced, Drafts, Grows;
    DraftAt(a.claims, a.jobs, token);
    FinishKeeps(p, a.jobs, a.claims, JobOf(a, token), Proposed, a.claims[token].stage.proposal);
    DraftsGrow(a.claims, a.jobs, b.jobs);
  }

  lemma RowStepKeeps(p: Policy, a: System, id: JobId, j: Job, b: System)
    requires ValidPolicy(p) && Guarded(p, a) && id in a.jobs && b == a.(jobs := a.jobs[id := j])
    requires RowOk(p, a.jobs[id]) ==> RowOk(p, j) && j.token.None? && RowGrows(a.jobs[id], j)
    ensures Kept(p, a, b)
  {
    hide Fenced, Drafts, Grows;
    RowAt(p, a.jobs, a.claims, id);
    RowChanged(p, a.jobs, a.claims, id, j);
    RowGrown(a.jobs, id, j);
    DraftsGrow(a.claims, a.jobs, b.jobs);
  }

  lemma GiveUpKeeps(p: Policy, a: System, token: Token, now: Time, b: System)
    requires ValidPolicy(p) && Guarded(p, a) && GivesUp(p, a, token, now, b)
    ensures Kept(p, a, b)
  {
    hide Drafts, Grows;
    var id := JobOf(a, token);
    RowAt(p, a.jobs, a.claims, id);
    RowStepKeeps(p, a, id, Requeued(a.jobs[id], a.claims[token].attempts, p, now), b);
  }

  lemma CaptureKeeps(p: Policy, a: System, task: Task, event: string, report: Report, id: JobId, now: Time, b: System)
    requires ValidPolicy(p) && Guarded(p, a) && Captures(a, task, event, report, id, now, b)
    ensures Kept(p, a, b)
  {
    hide Fenced, Drafts, Grows;
    FreshOk(p, CaptureJob, Some(task), Evidence(report), now);
    RowChanged(p, a.jobs, a.claims, id, b.jobs[id]);
    RowGrown(a.jobs, id, b.jobs[id]);
    DraftsGrow(a.claims, a.jobs, b.jobs);
  }

  lemma ForegroundKeeps(p: Policy, a: System, e: Runs.Event, spare: JobId, now: Time, b: System)
    requires ValidPolicy(p) && Guarded(p, a) && Foregrounds(p, a, e, spare, now, b)
    ensures Kept(p, a, b)
  {
    hide Fenced, Drafts, Grows, Scheduled, Runs.Commit;
    var t := Runs.Commit(a.store, e).value;
    GrowsReflexive(a.jobs);
    ScheduleKeeps(p, a.jobs, a.claims, t, spare, now);
    ScheduleGrows(a.jobs, t, p, spare, now);
    DraftsGrow(a.claims, a.jobs, b.jobs);
  }

  lemma SweepStepKeeps(p: Policy, a: System, now: Time, b: System)
    requires Guarded(p, a) && Sweeps(p, a, now, b)
    ensures Kept(p, a, b)
  {
    hide Fenced, Drafts, Grows;
    SweepKeeps(p, a.jobs, a.claims, now);
    SweepGrows(a.jobs, now, p.maxAttempts);
    DraftsGrow(a.claims, a.jobs, b.jobs);
  }

  lemma SameTables(p: Policy, a: System, b: System)
    requires Guarded(p, a) && a.jobs == b.jobs && a.claims == b.claims
    ensures Kept(p, a, b)
  {
    hide Fenced, Drafts;
  }

  lemma RequestKeeps(p: Policy, a: System, step: Step, b: System)
    requires ValidPolicy(p) && Guarded(p, a) && Transition(p, a, step, b)
    requires step.Review? || step.Retry? || step.Compact? || step.ArchiveEvent?
    ensures Kept(p, a, b)
  {
    hide Guarded, Kept;
    match step
    case Review(id, accept) => RowStepKeeps(p, a, id, Reviewed(a.jobs[id], accept), b);
    case Retry(id) => RowStepKeeps(p, a, id, Retried(a.jobs[id]), b);
    case Compact(id) => RowStepKeeps(p, a, id, a.jobs[id].(payload := Compacted), b);
    case ArchiveEvent(_) => SameTables(p, a, b);
  }

  lemma ByHandKeeps(p: Policy, a: System, step: Step, b: System)
    requires Guarded(p, a) && Transition(p, a, step, b) && (step.DraftByHand? || step.ApplyByHand?)
    ensures Kept(p, a, b)
  {
    hide Guarded, Transition, Kept;
    ByHandKeepsTables(p, a, step, b);
    SameTables(p, a, b);
  }

  /** Every step keeps every row and claim consistent, and rows only grow. */
  lemma StepKeeps(p: Policy, a: System, step: Step, b: System)
    requires ValidPolicy(p) && Guarded(p, a) && Transition(p, a, step, b)
    ensures Kept(p, a, b)
  {
    hide Guarded, Kept, Sweeps, Leases, Pins, Saves, AppliesPlan, OffersPlan, StoresCapture, DraftsCapture,
         OffersCapture, GivesUp;
    hide Captures, Foregrounds, Reviews, Retries, Compacts, Archives, DraftsByHand, AppliesByHand;
    match step
    case Sweep(now) => SweepStepKeeps(p, a, now, b);
    case Lease(id, token, now) => LeaseKeeps(p, a, id, token, now, b);
    case PinScan(token, now) => PinKeeps(p, a, token, now, b);
    case SavePlan(token, id, plan) => SaveKeeps(p, a, token, id, plan, b);
    case ApplyPlan(token, vectors, spare, now) => ApplyKeeps(p, a, token, vectors, spare, now, b);
    case OfferPlan(token, spare, now) => OfferKeeps(p, a, token, spare, now, b);
    case StoreCapture(token, vector, i, d, spare, now) => StoreKeeps(p, a, token, vector, i, d, spare, now, b);
    case DraftCapture(token, vector, i, d, now) => DraftKeeps(p, a, token, vector, i, d, now, b);
    case OfferCapture(token, now) => OfferCaptureKeeps(p, a, token, now, b);
    case GiveUp(token, now) => GiveUpKeeps(p, a, token, now, b);
    case Review(_, _) => RequestKeeps(p, a, step, b);
    case Retry(_) => RequestKeeps(p, a, step, b);
    case Begin(_, _) => SameTables(p, a, b);
    case Complete(_) => SameTables(p, a, b);
    case Capture(task, event, report, id, now) => CaptureKeeps(p, a, task, event, report, id, now, b);
    case Foreground(e, spare, now) => ForegroundKeeps(p, a, e, spare, now, b);
    case DraftByHand(_, _, _) => ByHandKeeps(p, a, step, b);
    case ApplyByHand(_, _, _) => ByHandKeeps(p, a, step, b);
    case Compact(_) => RequestKeeps(p, a, step, b);
    case ArchiveEvent(_) => RequestKeeps(p, a, step, b);
  }
}
