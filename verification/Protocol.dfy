/** The leased maintenance protocol (`memory_core/runtime/worker.py`, `queue.py`, `dreams.py`, review and retry of
    `core.py`) as a state machine: any number of workers, foreground callers and clock readings, one committed
    transaction a step. */
module Protocol {
  import opened Types
  import opened Ordering
  import opened Store
  import opened Reconciliation
  import opened Dream
  import opened Jobs
  import Runs
  import Remember
  import Planner

  // ---------- state ----------

  /** How far the worker holding a claim has got outside the database. */
  datatype Stage = Started | Pinned(scan: Scan) | Planned(plan: PlanId) | Drafted(proposal: JobResult)

  /** What `claim` hands out. A worker keeps it even after losing the lease, and may still try to use it. */
  datatype Claim = Claim(job: JobId, attempts: nat, result: JobResult, stage: Stage)

  /** A saved dream plan. `scan`, `batch` and `basis` (the window it was read from, the rows read and the state then)
      are annotations. */
  datatype Plan = Plan(generation: nat, cursor: Key, groups: seq<Group>, changes: seq<Change>, applied: bool,
    scan: Scan, batch: seq<Key>, basis: State)

  /** A history entry: one job's scan moved from one cursor to the next. */
  datatype Advance = Advance(pass: JobId, from: Key, to: Key, end: nat, batch: seq<Key>, basis: State, at: State,
    more: bool)

  /** `pins` (what each pass pinned), `advances` and `stored` are histories that no step reads. */
  datatype System = System(
    store: State,
    jobs: Table,
    tasks: map<Task, TaskRow>,
    events: map<EventKey, Recorded>,
    eventArchives: map<EventKey, Recorded>,
    plans: map<PlanId, Plan>,
    handmade: map<PlanId, SavedPlan>,
    claims: map<Token, Claim>,
    pins: map<JobId, Scan>,
    advances: seq<Advance>,
    stored: seq<JobId>)

  // ---------- what workers decide ----------

  predicate Approved(o: JobResult) {
    (o.Suggested? || o.PlanOffered?) && o.approved
  }

  /** The request a capture worker makes: an approved decision is bound to the generation it was suggested at. */
  function RequestOf(memory: Memory, vector: Vector, result: JobResult): Remember.Request {
    if result.Suggested? && result.approved
    then Remember.Request(memory, vector, Some(result.decision), Some(result.generation))
    else Remember.Request(memory, vector, None, None)
  }

  predicate ExactAttach(m: Memory, i: Remember.Inspection, d: Decision) {
    d.Attach? && exists k :: 0 <= k < |i.neighbors| && i.neighbors[k].id == d.target && Equivalent(m, i.neighbors[k])
  }

  /** `permitted` of `_capture`. */
  predicate Permitted(p: Policy, m: Memory, i: Remember.Inspection, d: Decision, result: JobResult) {
    d.Create? || (ExactAttach(m, i, d) && p.applyExact) || p.applySemantic || Approved(result)
  }

  /** `exact_only` of `_dream`, for one change. */
  ghost predicate ExactChange(groups: seq<Group>, c: Change) {
    && c.decision.Attach?
    && exists i, j :: 0 <= i < |groups| && 0 <= j < |groups[i].neighbors| && groups[i].memory.id == c.memory.id
                   && groups[i].neighbors[j].id == c.decision.target && Equivalent(c.memory, groups[i].neighbors[j])
  }

  /** The plan may be applied without a review. */
  ghost predicate Automatic(p: Policy, plan: Plan) {
    || plan.changes == []
    || (p.applyExact && forall i :: 0 <= i < |plan.changes| ==> ExactChange(plan.groups, plan.changes[i]))
    || p.applySemantic
  }

  ghost function Batch(s: State, scan: Scan, size: nat): seq<Key> {
    FirstKeys(WindowKeys(s, scan.cursor, scan.end), size)
  }

  /** `dream.plan` for a pinned scan, read and saved at one generation. */
  ghost predicate IsPlan(s: State, scan: Scan, size: nat, plan: Plan) {
    && plan.generation == s.generation && plan.scan == scan && plan.basis == s && !plan.applied
    && plan.batch == Batch(s, scan, size)
    && plan.cursor == (if plan.batch == [] then scan.cursor else plan.batch[|plan.batch| - 1])
    && Planner.ReadFrom(s, plan.groups)
    && (forall i :: 0 <= i < |plan.groups| ==> plan.groups[i].memory.id in Runs.Ids(plan.batch))
    && (forall i :: 0 <= i < |plan.changes| ==> plan.changes[i].memory.id != "")
  }

  // ---------- steps ----------

  datatype Step =
    | Sweep(now: Time)
    | Lease(job: JobId, token: Token, now: Time)
    | PinScan(token: Token, now: Time)
    | SavePlan(token: Token, id: PlanId, plan: Plan)
    | ApplyPlan(token: Token, vectors: seq<Vector>, spare: JobId, now: Time)
    | OfferPlan(token: Token, spare: JobId, now: Time)
    | StoreCapture(token: Token, vector: Vector, inspection: Remember.Inspection, decision: Decision, spare: JobId,
      now: Time)
    | DraftCapture(token: Token, vector: Vector, inspection: Remember.Inspection, decision: Decision, now: Time)
    | OfferCapture(token: Token, now: Time)
    | GiveUp(token: Token, now: Time)
    | Review(job: JobId, accept: bool)
    | Retry(job: JobId)
    | Begin(task: Task, row: TaskRow)
    | Complete(task: Task)
    | Capture(task: Task, event: string, report: Report, job: JobId, now: Time)
    | Foreground(change: Runs.Event, spare: JobId, now: Time)
    | DraftByHand(id: PlanId, size: nat, draft: SavedPlan)
    | ApplyByHand(id: PlanId, vectors: seq<Vector>, now: Time)
    | Compact(job: JobId)
    | ArchiveEvent(key: EventKey)

  ghost predicate Sweeps(p: Policy, a: System, now: Time, b: System) {
    b == a.(jobs := Swept(a.jobs, now, p.maxAttempts))
  }

  ghost predicate Leases(p: Policy, a: System, id: JobId, token: Token, now: Time, b: System) {
    var swept := Swept(a.jobs, now, p.maxAttempts);
    && token !in a.claims && FirstReady(swept, now, p.maxAttempts, id)
    && b == a.(jobs := swept[id := Leased(swept[id], token, now, p)],
               claims := a.claims[token := Claim(id, swept[id].attempts + 1, swept[id].result, Started)])
  }

  /** The worker still holds the lease of the job it claimed. */
  predicate Holding(a: System, token: Token, now: Time) {
    token in a.claims && HoldsLease(a.jobs, a.claims[token].job, token, now)
  }

  function JobOf(a: System, token: Token): JobId
    requires token in a.claims
  {
    a.claims[token].job
  }

  ghost predicate Pins(p: Policy, a: System, token: Token, now: Time, b: System) {
    && Holding(a, token, now) && a.claims[token].stage.Started?
    && var id := JobOf(a, token);
    && a.jobs[id].kind.DreamJob? && a.jobs[id].payload.Consolidation?
    && var payload := a.jobs[id].payload;
    var scan := if payload.scan.Some? then payload.scan.value else Pin(a.store, id);
    b == a.(jobs := a.jobs[id := a.jobs[id].(payload := payload.(scan := Some(scan)))],
            claims := a.claims[token := a.claims[token].(stage := Pinned(scan))],
            pins := if payload.scan.Some? then a.pins else a.pins[id := scan])
  }

  /** Saving a plan checks the generation but no lease: a worker that lost its job may still leave a plan behind. */
  ghost predicate Saves(p: Policy, a: System, token: Token, id: PlanId, plan: Plan, b: System) {
    && token in a.claims && a.claims[token].stage.Pinned? && !Approved(a.claims[token].result)
    && id !in a.plans && id !in a.handmade && IsPlan(a.store, a.claims[token].stage.scan, p.batchSize, plan)
    && b == a.(plans := a.plans[id := plan], claims := a.claims[token := a.claims[token].(stage := Planned(id))])
  }

  /** The plan the worker is about to apply: one reviewed and approved, or its own if that needs no review. */
  ghost predicate Applies(p: Policy, a: System, token: Token, id: PlanId)
    requires token in a.claims
  {
    var claim := a.claims[token];
    if Approved(claim.result) then claim.stage.Pinned? && claim.result == PlanOffered(id, claim.result.generation, true)
    else claim.stage == Planned(id) && id in a.plans && Automatic(p, a.plans[id])
  }

  function LogEntry(jobs: Table, id: JobId, plan: Plan, s: State): seq<Advance>
    requires id in jobs
  {
    var payload := jobs[id].payload;
    if !payload.Consolidation? || payload.continued || payload.scan.None? then []
    else
      var scan := payload.scan.value;
      [Advance(scan.pass, scan.cursor, plan.cursor, scan.end, plan.batch, plan.basis, s,
        More(s, scan.end, plan.cursor))]
  }

  /** `dream.apply` with the worker's commit: changes, acknowledgement and scan progress in one transaction. */
  ghost predicate AppliesPlan(p: Policy, a: System, token: Token, vectors: seq<Vector>, spare: JobId, now: Time,
                              b: System) {
    && Holding(a, token, now) && spare !in a.jobs && Keyed(a.store)
    && exists id :: AppliesThis(p, a, token, id, vectors, spare, now, b)
  }

  ghost predicate AppliesThis(p: Policy, a: System, token: Token, id: PlanId, vectors: seq<Vector>, spare: JobId,
                              now: Time, b: System)
    requires Holding(a, token, now) && spare !in a.jobs && Keyed(a.store)
  {
    && Applies(p, a, token, id) && id in a.plans && !a.plans[id].applied && a.store.generation == a.plans[id].generation
    && var plan := a.plans[id];
    && |vectors| == |plan.changes|
    && var applied := Dream.ApplyPlan(a.store, plan.groups, plan.changes, vectors, now);
    && applied.Ok?
    && var job := JobOf(a, token);
    var finished := a.jobs[job := Finished(a.jobs[job], Done, Consolidated(id))];
    var progress := Advanced(finished, applied.value, job, plan.cursor, p, spare, now);
    b == a.(store := progress.store, jobs := progress.jobs, plans := a.plans[id := plan.(applied := true)],
            advances := a.advances + LogEntry(finished, job, plan, progress.store))
  }

  /** A plan that needs review: offer it and move the scan on, in one transaction. */
  ghost predicate OffersPlan(p: Policy, a: System, token: Token, spare: JobId, now: Time, b: System) {
    && Holding(a, token, now) && spare !in a.jobs
    && var claim := a.claims[token];
    && !Approved(claim.result) && claim.stage.Planned? && claim.stage.plan in a.plans
      && !Automatic(p, a.plans[claim.stage.plan])
    && var plan := a.plans[claim.stage.plan];
    var job := claim.job;
    var finished :=
      a.jobs[job := Finished(a.jobs[job], Proposed, PlanOffered(claim.stage.plan, plan.generation, false))];
    var progress := Advanced(finished, a.store, job, plan.cursor, p, spare, now);
    b == a.(store := progress.store, jobs := progress.jobs,
            advances := a.advances + LogEntry(finished, job, plan, progress.store))
  }

  /** The observation a capture job stores. */
  function MemoryFor(a: System, id: JobId): Option<Memory> {
    if id in a.jobs && a.jobs[id].payload.Evidence? && a.jobs[id].task.Some? && a.jobs[id].task.value in a.tasks
    then Some(ObservationOf(id, a.jobs[id].task.value, a.tasks[a.jobs[id].task.value], a.jobs[id].payload.report))
    else None
  }

  function MemoryOf(a: System, token: Token): Option<Memory>
    requires token in a.claims
  {
    MemoryFor(a, JobOf(a, token))
  }

  /** `remember_reconciled` up to the commit callback: inspection, decision and persistence at one generation. Whatever
      happens between them, a commit that passes the generation check is this (see Remember.FinishIsAtomic). */
  ghost predicate Persists(a: System, token: Token, vector: Vector, i: Remember.Inspection, d: Decision, now: Time,
                           t: State) {
    && token in a.claims && a.claims[token].stage.Started? && MemoryOf(a, token).Some? && Keyed(a.store)
    && var request := RequestOf(MemoryOf(a, token).value, vector, a.claims[token].result);
    && request.memory.id != ""
    && Remember.Inspects(a.store, request, i) && Remember.Decides(true, request, i, d)
    && Remember.Persist(a.store, request, i, d, now) == Ok(t)
  }

  /** The memory change, the trigger for consolidation and the acknowledgement commit together. */
  ghost predicate StoresCapture(p: Policy, a: System, token: Token, vector: Vector, i: Remember.Inspection, d: Decision,
                                spare: JobId, now: Time, b: System) {
    && Holding(a, token, now) && spare !in a.jobs
    && exists t :: Persists(a, token, vector, i, d, now, t) && StoresThis(p, a, token, i, d, spare, now, t, b)
  }

  ghost predicate StoresThis(p: Policy, a: System, token: Token, i: Remember.Inspection, d: Decision, spare: JobId,
                             now: Time, t: State, b: System)
    requires Holding(a, token, now) && spare !in a.jobs
  {
    && MemoryOf(a, token).Some? && Permitted(p, MemoryOf(a, token).value, i, d, a.claims[token].result)
    && var id := JobOf(a, token);
    var jobs := Scheduled(a.jobs, t, p, spare, now);
    b == a.(store := t,
            jobs := jobs[id := Finished(a.jobs[id], Done, Stored(if d.Attach? then d.target else i.memory.id))],
            stored := a.stored + [id])
  }

  /** The same transaction when the change needs review: it rolls back, and the worker keeps the proposal. The recorded
      generation is the one after the rolled-back bump, minus one. */
  ghost predicate DraftsCapture(p: Policy, a: System, token: Token, vector: Vector, i: Remember.Inspection, d: Decision,
                                now: Time, b: System) {
    && Holding(a, token, now)
    && exists t :: Persists(a, token, vector, i, d, now, t) && DraftsThis(p, a, token, i, d, t, b)
  }

  ghost predicate DraftsThis(p: Policy, a: System, token: Token, i: Remember.Inspection, d: Decision, t: State,
                             b: System)
    requires token in a.claims
  {
    && MemoryOf(a, token).Some? && !Permitted(p, MemoryOf(a, token).value, i, d, a.claims[token].result)
    && t.generation > 0
    && var drafted := Drafted(Suggested(d, t.generation - 1, false, a.store));
    b == a.(claims := a.claims[token := a.claims[token].(stage := drafted)])
  }

  ghost predicate OffersCapture(p: Policy, a: System, token: Token, now: Time, b: System) {
    && Holding(a, token, now) && a.claims[token].stage.Drafted?
    && var id := JobOf(a, token);
    b == a.(jobs := a.jobs[id := Finished(a.jobs[id], Proposed, a.claims[token].stage.proposal)])
  }

  ghost predicate GivesUp(p: Policy, a: System, token: Token, now: Time, b: System) {
    && Holding(a, token, now)
    && var id := JobOf(a, token);
    b == a.(jobs := a.jobs[id := Requeued(a.jobs[id], a.claims[token].attempts, p, now)])
  }

  ghost predicate Reviews(a: System, id: JobId, accept: bool, b: System) {
    && id in a.jobs && a.jobs[id].status == Proposed
    && (accept ==> GenerationOf(a.jobs[id].result) == Some(a.store.generation))
    && b == a.(jobs := a.jobs[id := Reviewed(a.jobs[id], accept)])
  }

  ghost predicate Retries(a: System, id: JobId, b: System) {
    && id in a.jobs && a.jobs[id].status in {Failed, Proposed, Rejected}
    && b == a.(jobs := a.jobs[id := Retried(a.jobs[id])])
  }

  ghost predicate Captures(a: System, task: Task, event: string, report: Report, id: JobId, now: Time, b: System) {
    var key := (task, event);
    && key !in a.events && key !in a.eventArchives && task in a.tasks && !a.tasks[task].complete && id !in a.jobs
    && b == a.(jobs := a.jobs[id := Fresh(CaptureJob, Some(task), Evidence(report), now)],
               events := a.events[key := Recorded(Evidence(report), id)])
  }

  function Everything(s: State): set<Key> {
    set id | id in s.rows :: Key(s.rows[id].generation, id)
  }

  /** The rows a plan made by hand reads: what the owner's scan has before it, or if there is nothing, old records
      again. */
  ghost function HandBatch(s: State, size: nat): seq<Key> {
    var ahead := FirstKeys(WindowKeys(s, s.cursor, s.generation), size);
    if ahead == [] then FirstKeys(Everything(s), size) else ahead
  }

  /** `dream.plan` without a pinned scan, read and saved at one generation. */
  ghost predicate IsHandmade(s: State, size: nat, plan: SavedPlan) {
    && plan.generation == s.generation && plan.writes == s.writes && !plan.applied
    && var batch := HandBatch(s, size);
    && plan.cursor == (if batch == [] then s.cursor else batch[|batch| - 1])
    && Planner.ReadFrom(s, plan.groups)
    && (forall i :: 0 <= i < |plan.groups| ==> plan.groups[i].memory.id in Runs.Ids(batch))
    && (forall i :: 0 <= i < |plan.changes| ==> plan.changes[i].memory.id != "")
  }

  ghost predicate DraftsByHand(a: System, id: PlanId, size: nat, plan: SavedPlan, b: System) {
    && id !in a.plans && id !in a.handmade && size >= 1 && IsHandmade(a.store, size, plan)
    && b == a.(handmade := a.handmade[id := plan], store := a.store.(dreamWrites := plan.writes))
  }

  function AsSaved(plan: Plan): SavedPlan {
    SavedPlan(plan.generation, plan.cursor, plan.scan.writes, plan.groups, plan.changes, plan.applied)
  }

  /** Any saved plan, made by hand or by a worker. */
  function SavedAs(a: System, id: PlanId): Option<SavedPlan> {
    if id in a.handmade then Some(a.handmade[id]) else if id in a.plans then Some(AsSaved(a.plans[id])) else None
  }

  /** `dream.apply` as a foreground request. */
  ghost predicate AppliesByHand(a: System, id: PlanId, vectors: seq<Vector>, now: Time, b: System) {
    && Keyed(a.store) && SavedAs(a, id).Some? && |vectors| == |SavedAs(a, id).value.changes|
    && var applied := Dream.ApplyByHand(a.store, SavedAs(a, id).value, vectors, now);
    && applied.Ok?
    && b == if id in a.handmade
            then a.(store := applied.value, handmade := a.handmade[id := a.handmade[id].(applied := true)])
            else a.(store := applied.value, plans := a.plans[id := a.plans[id].(applied := true)])
  }

  /** Any other transaction on the store; a foreground write triggers `schedule_dream` in the same transaction. */
  ghost predicate Foregrounds(p: Policy, a: System, e: Runs.Event, spare: JobId, now: Time, b: System) {
    && spare !in a.jobs && Keyed(a.store) && Runs.Admissible(e) && Runs.Commit(a.store, e).Ok?
    && !e.Consolidate? && !e.Account?
    && var t := Runs.Commit(a.store, e).value;
    b == a.(store := t, jobs := if e.Remember? then Scheduled(a.jobs, t, p, spare, now) else a.jobs)
  }

  ghost predicate Compacts(a: System, id: JobId, b: System) {
    id in a.jobs && a.jobs[id].status == Done && b == a.(jobs := a.jobs[id := a.jobs[id].(payload := Compacted)])
  }

  ghost predicate Archives(a: System, key: EventKey, b: System) {
    && key in a.events && a.events[key].job in a.jobs && a.jobs[a.events[key].job].status == Done
    && key.0 in a.tasks && a.tasks[key.0].complete
    && (forall id :: id in a.jobs && a.jobs[id].task == Some(key.0) ==> a.jobs[id].status == Done)
    && b == a.(events := a.events - {key}, eventArchives := a.eventArchives[key := a.events[key]])
  }

  ghost predicate Transition(p: Policy, a: System, step: Step, b: System) {
    match step
    case Sweep(now) => Sweeps(p, a, now, b)
    case Lease(id, token, now) => Leases(p, a, id, token, now, b)
    case PinScan(token, now) => Pins(p, a, token, now, b)
    case SavePlan(token, id, plan) => Saves(p, a, token, id, plan, b)
    case ApplyPlan(token, vectors, spare, now) => AppliesPlan(p, a, token, vectors, spare, now, b)
    case OfferPlan(token, spare, now) => OffersPlan(p, a, token, spare, now, b)
    case StoreCapture(token, vector, i, d, spare, now) => StoresCapture(p, a, token, vector, i, d, spare, now, b)
    case DraftCapture(token, vector, i, d, now) => DraftsCapture(p, a, token, vector, i, d, now, b)
    case OfferCapture(token, now) => OffersCapture(p, a, token, now, b)
    case GiveUp(token, now) => GivesUp(p, a, token, now, b)
    case Review(id, accept) => Reviews(a, id, accept, b)
    case Retry(id) => Retries(a, id, b)
    case Begin(task, row) => task !in a.tasks && !row.complete && b == a.(tasks := a.tasks[task := row])
    case Complete(task) => task in a.tasks && b == a.(tasks := a.tasks[task := a.tasks[task].(complete := true)])
    case Capture(task, event, report, id, now) => Captures(a, task, event, report, id, now, b)
    case Foreground(e, spare, now) => Foregrounds(p, a, e, spare, now, b)
    case DraftByHand(id, size, plan) => DraftsByHand(a, id, size, plan, b)
    case ApplyByHand(id, vectors, now) => AppliesByHand(a, id, vectors, now, b)
    case Compact(id) => Compacts(a, id, b)
    case ArchiveEvent(key) => Archives(a, key, b)
  }

  /** Only the store and the plans differ, and plans only in having been applied. */
  ghost predicate PlansMarked(a: System, b: System) {
    && b == a.(store := b.store, plans := b.plans, handmade := b.handmade) && b.plans.Keys == a.plans.Keys
    && forall id :: id in a.plans ==> b.plans[id] == a.plans[id].(applied := b.plans[id].applied)
  }

  lemma DraftMarks(a: System, id: PlanId, size: nat, plan: SavedPlan, b: System)
    requires DraftsByHand(a, id, size, plan, b)
    ensures PlansMarked(a, b) && b.store.cursor == a.store.cursor
  {
    hide IsHandmade;
  }

  lemma ApplyMarks(a: System, id: PlanId, vectors: seq<Vector>, now: Time, b: System)
    requires AppliesByHand(a, id, vectors, now, b)
    ensures PlansMarked(a, b)
  {
    hide Dream.ApplyByHand, Keyed, SavedAs, PlansMarked;
    SavedSomewhere(a, id);
    if id in a.handmade {
      HandmadeMarked(a, b.store, b.handmade);
    } else {
      PlanMarked(a, b.store, id);
    }
  }

  lemma HandmadeMarked(a: System, t: State, handmade: map<PlanId, SavedPlan>)
    ensures PlansMarked(a, a.(store := t, handmade := handmade))
  {
  }

  lemma PlanMarked(a: System, t: State, id: PlanId)
    requires id in a.plans
    ensures PlansMarked(a, a.(store := t, plans := a.plans[id := a.plans[id].(applied := true)]))
  {
  }

  lemma SavedSomewhere(a: System, id: PlanId)
    requires SavedAs(a, id).Some?
    ensures id in a.handmade || id in a.plans
  {
  }

  /** Requests about plans made by hand touch nothing the workers keep but the plans. */
  lemma ByHandKeepsTables(p: Policy, a: System, step: Step, b: System)
    requires Transition(p, a, step, b) && (step.DraftByHand? || step.ApplyByHand?)
    ensures PlansMarked(a, b) && (step.DraftByHand? ==> b.store.cursor == a.store.cursor)
    ensures b.jobs == a.jobs && b.claims == a.claims && b.tasks == a.tasks && b.stored == a.stored
    ensures b.events == a.events && b.eventArchives == a.eventArchives
    ensures b.advances == a.advances && b.pins == a.pins
  {
    hide DraftsByHand, AppliesByHand, Sweeps, Leases, Pins, Saves, AppliesPlan, OffersPlan, StoresCapture,
        DraftsCapture;
    hide OffersCapture, GivesUp, Reviews, Retries, Captures, Foregrounds, Compacts, Archives;
    if step.DraftByHand? {
      DraftMarks(a, step.id, step.size, step.draft, b);
    } else {
      ApplyMarks(a, step.id, step.vectors, step.now, b);
    }
  }

  ghost predicate Start(a: System) {
    && Runs.Initial(a.store) && a.jobs == map[] && a.tasks == map[] && a.events == map[] && a.eventArchives == map[]
    && a.plans == map[] && a.handmade == map[] && a.claims == map[] && a.pins == map[] && a.advances == []
      && a.stored == []
  }

  /** Any interleaving from an empty owner. */
  ghost predicate Execution(p: Policy, systems: seq<System>, steps: seq<Step>) {
    && |systems| == |steps| + 1 && Start(systems[0]) && ValidPolicy(p)
    && forall i :: 0 <= i < |steps| ==> Transition(p, systems[i], steps[i], systems[i + 1])
  }

  /** Some interleaving leads there. */
  ghost predicate Reachable(p: Policy, a: System) {
    exists systems, steps :: Execution(p, systems, steps) && systems[|steps|] == a
  }

  lemma ReachableStart(p: Policy, a: System)
    requires ValidPolicy(p) && Start(a)
    ensures Reachable(p, a)
  {
    hide Start, Transition;
    var systems: seq<System>, steps: seq<Step> := [a], [];
    assert Execution(p, systems, steps);
  }

  lemma ReachableNext(p: Policy, a: System, step: Step, b: System)
    requires Reachable(p, a) && Transition(p, a, step, b)
    ensures Reachable(p, b)
  {
    hide Start, Transition;
    var systems, steps :| Execution(p, systems, steps) && systems[|steps|] == a;
    var more, longer := systems + [b], steps + [step];
    forall i | 0 <= i < |longer| ensures Transition(p, more[i], longer[i], more[i + 1]) {
      if i < |steps| { assert more[i] == systems[i] && more[i + 1] == systems[i + 1] && longer[i] == steps[i]; }
    }
    assert Execution(p, more, longer);
  }
}
