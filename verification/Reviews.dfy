/** What workers hold from earlier states: pinned windows, saved plans, suggestions and approvals, each still tied to
    the state it was computed from when it is finally used. */
module Reviews {
  import opened Types
  import opened Counting
  import opened Ordering
  import opened Store
  import opened Jobs
  import opened Protocol
  import opened Fencing
  import Fields
  import Dream
  import Reconciliation
  import Remember
  import Runs
  import Effects

  // ---------- windows ----------

  /** A window of the past only loses records: whatever changes moves past its end. */
  lemma WindowShrinks(s: State, t: State, cursor: Key, end: nat)
    requires Store.Later(s, t) && end <= s.generation
    ensures WindowKeys(t, cursor, end) <= WindowKeys(s, cursor, end)
  {
    forall k | k in WindowKeys(t, cursor, end) ensures k in WindowKeys(s, cursor, end) {
      assert k.id in t.rows && t.rows[k.id].generation == k.generation;
      assert t.rows[k.id] == s.rows[k.id];
    }
  }

  predicate AtOrAfter(a: Key, b: Key) {
    a == b || KeyBelow(a, b)
  }

  lemma WindowNarrows(s: State, from: Key, to: Key, end: nat)
    requires AtOrAfter(from, to)
    ensures WindowKeys(s, to, end) <= WindowKeys(s, from, end)
  {
    forall k | k in WindowKeys(s, to, end) ensures k in WindowKeys(s, from, end) {
      assert KeyBelow(to, k);
      if from != to { KeyTransitive(from, to, k); }
    }
  }

  /** A pinned scan: its bounds lie in the past, and the records still ahead of it were there when it was pinned. */
  ghost predicate ScanOk(scan: Scan, s: State) {
    scan.end <= s.generation && scan.writes <= s.writes && WindowKeys(s, scan.cursor, scan.end) <= scan.window
  }

  lemma ScanCarries(scan: Scan, s: State, t: State)
    requires ScanOk(scan, s) && Store.Later(s, t)
    ensures ScanOk(scan, t)
  {
    WindowShrinks(s, t, scan.cursor, scan.end);
  }

  lemma ScanMovesOn(scan: Scan, s: State, to: Key)
    requires ScanOk(scan, s) && AtOrAfter(scan.cursor, to)
    ensures ScanOk(scan.(cursor := to), s)
  {
    WindowNarrows(s, scan.cursor, to, scan.end);
  }

  lemma PinIsOk(s: State, id: JobId)
    ensures ScanOk(Pin(s, id), s)
  {
  }

  // ---------- plans ----------

  /** A saved plan was read from its basis at the generation it records. */
  ghost predicate PlanOk(plan: Plan, s: State, size: nat) {
    && Inv(plan.basis) && Store.Later(plan.basis, s) && plan.generation == plan.basis.generation
      && ScanOk(plan.scan, plan.basis)
    && IsPlan(plan.basis, plan.scan, size, plan.(applied := false))
  }

  lemma PlanCursorMoves(plan: Plan, s: State, size: nat)
    requires PlanOk(plan, s, size)
    ensures AtOrAfter(plan.scan.cursor, plan.cursor)
    ensures plan.batch != [] ==> KeyBelow(plan.scan.cursor, plan.cursor) && plan.cursor in plan.scan.window
  {
    hide Inv, Store.Later;
    if plan.batch != [] {
      var last := plan.batch[|plan.batch| - 1];
      assert last in plan.batch;
      assert last in WindowKeys(plan.basis, plan.scan.cursor, plan.scan.end);
    }
  }

  ghost predicate PlansOk(plans: map<PlanId, Plan>, s: State, size: nat) {
    forall id :: id in plans ==> PlanOk(plans[id], s, size)
  }

  ghost predicate PlansGrow(x: map<PlanId, Plan>, y: map<PlanId, Plan>) {
    forall id :: id in x ==> id in y && y[id] == x[id].(applied := y[id].applied)
  }

  lemma PlansCarry(plans: map<PlanId, Plan>, s: State, t: State, size: nat)
    requires PlansOk(plans, s, size) && Store.Later(s, t)
    ensures PlansOk(plans, t, size)
  {
    hide Inv, Store.Later, IsPlan;
    forall id | id in plans ensures PlanOk(plans[id], t, size) {
      assert PlanOk(plans[id], s, size);
      LaterTransitive(plans[id].basis, s, t);
    }
  }

  // ---------- results and claims ----------

  ghost predicate ResultOk(o: JobResult, s: State, plans: map<PlanId, Plan>) {
    match o
    case Suggested(_, g, _, basis) => basis.generation == g && Store.Later(basis, s)
    case PlanOffered(plan, g, _) => plan in plans && plans[plan].generation == g
    case _ => true
  }

  /** An offered plan has already moved its scan on. */
  ghost predicate RowReads(j: Job, s: State, plans: map<PlanId, Plan>) {
    && (j.payload.Consolidation? && j.payload.scan.Some? ==> ScanOk(j.payload.scan.value, s))
    && ResultOk(j.result, s, plans)
    && (j.result.PlanOffered? && j.payload.Consolidation? ==> j.payload.continued)
  }

  /** What a claim has pinned or planned is the window of its own job. */
  ghost predicate ClaimReads(c: Claim, jobs: Table, s: State, plans: map<PlanId, Plan>) {
    && c.job in jobs && ResultOk(c.result, s, plans)
    && (c.stage.Drafted? ==> ResultOk(c.stage.proposal, s, plans))
    && (c.stage.Pinned? ==> ScanOk(c.stage.scan, s) && OwnScan(jobs[c.job], c.stage.scan))
    && (c.stage.Planned? ==> c.stage.plan in plans && OwnScan(jobs[c.job], plans[c.stage.plan].scan))
  }

  predicate OwnScan(j: Job, scan: Scan) {
    (j.payload.Compacted? && j.status == Done) || (j.payload.Consolidation? && j.payload.scan == Some(scan))
  }

  ghost predicate RowsRead(jobs: Table, s: State, plans: map<PlanId, Plan>) {
    forall id :: id in jobs ==> RowReads(jobs[id], s, plans)
  }

  ghost predicate ClaimsRead(claims: map<Token, Claim>, jobs: Table, s: State, plans: map<PlanId, Plan>) {
    forall t :: t in claims ==> ClaimReads(claims[t], jobs, s, plans)
  }

  /** What plans made by hand carry: writes of the past, and identified changes. */
  ghost predicate HandmadeOk(handmade: map<PlanId, Dream.SavedPlan>, s: State) {
    forall id :: id in handmade ==>
      && handmade[id].writes <= s.writes
      && forall i :: 0 <= i < |handmade[id].changes| ==> handmade[id].changes[i].memory.id != ""
  }

  lemma HandmadeCarries(handmade: map<PlanId, Dream.SavedPlan>, s: State, t: State)
    requires HandmadeOk(handmade, s) && Store.Later(s, t)
    ensures HandmadeOk(handmade, t)
  {
  }

  ghost predicate Reads(p: Policy, a: System) {
    && HandmadeOk(a.handmade, a.store)
    && Inv(a.store)
    && PlansOk(a.plans, a.store, p.batchSize)
    && RowsRead(a.jobs, a.store, a.plans)
    && ClaimsRead(a.claims, a.jobs, a.store, a.plans)
  }

  lemma ResultCarries(o: JobResult, s: State, t: State, x: map<PlanId, Plan>, y: map<PlanId, Plan>)
    requires ResultOk(o, s, x) && Store.Later(s, t) && PlansGrow(x, y)
    ensures ResultOk(o, t, y)
  {
    hide Store.Later;
    if o.Suggested? { LaterTransitive(o.basis, s, t); }
  }

  lemma RowCarries(j: Job, s: State, t: State, x: map<PlanId, Plan>, y: map<PlanId, Plan>)
    requires RowReads(j, s, x) && Store.Later(s, t) && PlansGrow(x, y)
    ensures RowReads(j, t, y)
  {
    hide Store.Later, ScanOk, ResultOk, PlansGrow;
    ResultCarries(j.result, s, t, x, y);
    if j.payload.Consolidation? && j.payload.scan.Some? { ScanCarries(j.payload.scan.value, s, t); }
  }

  lemma RowsCarry(jobs: Table, s: State, t: State, x: map<PlanId, Plan>, y: map<PlanId, Plan>)
    requires RowsRead(jobs, s, x) && Store.Later(s, t) && PlansGrow(x, y)
    ensures RowsRead(jobs, t, y)
  {
    hide Store.Later, RowReads, PlansGrow;
    forall id | id in jobs ensures RowReads(jobs[id], t, y) { RowCarries(jobs[id], s, t, x, y); }
  }

  lemma ClaimCarries(c: Claim, i: Table, j: Table, s: State, t: State, x: map<PlanId, Plan>, y: map<PlanId, Plan>)
    requires ClaimReads(c, i, s, x) && Grows(i, j) && Store.Later(s, t) && PlansGrow(x, y)
    ensures ClaimReads(c, j, t, y)
  {
    hide Store.Later, ScanOk, ResultOk;
    assert RowGrows(i[c.job], j[c.job]);
    ResultCarries(c.result, s, t, x, y);
    if c.stage.Drafted? { ResultCarries(c.stage.proposal, s, t, x, y); }
    if c.stage.Pinned? { ScanCarries(c.stage.scan, s, t); }
  }

  lemma ClaimsCarry(claims: map<Token, Claim>, i: Table, j: Table, s: State, t: State, x: map<PlanId, Plan>,
                    y: map<PlanId, Plan>)
    requires ClaimsRead(claims, i, s, x) && Grows(i, j) && Store.Later(s, t) && PlansGrow(x, y)
    ensures ClaimsRead(claims, j, t, y)
  {
    hide Store.Later, ClaimReads, PlansGrow, Grows;
    forall k | k in claims ensures ClaimReads(claims[k], j, t, y) { ClaimCarries(claims[k], i, j, s, t, x, y); }
  }

  lemma PlansGrowReflexive(x: map<PlanId, Plan>)
    ensures PlansGrow(x, x)
  {
  }

  lemma RowAdded(jobs: Table, s: State, plans: map<PlanId, Plan>, id: JobId, j: Job)
    requires RowsRead(jobs, s, plans) && RowReads(j, s, plans)
    ensures RowsRead(jobs[id := j], s, plans)
  {
  }

  lemma RowReading(jobs: Table, s: State, plans: map<PlanId, Plan>, id: JobId)
    requires RowsRead(jobs, s, plans) && id in jobs
    ensures RowReads(jobs[id], s, plans)
  {
  }

  lemma ClaimReading(claims: map<Token, Claim>, jobs: Table, s: State, plans: map<PlanId, Plan>, token: Token)
    requires ClaimsRead(claims, jobs, s, plans) && token in claims
    ensures ClaimReads(claims[token], jobs, s, plans)
  {
  }

  lemma ClaimAdd(claims: map<Token, Claim>, jobs: Table, s: State, plans: map<PlanId, Plan>, token: Token, c: Claim)
    requires ClaimsRead(claims, jobs, s, plans) && ClaimReads(c, jobs, s, plans)
    ensures ClaimsRead(claims[token := c], jobs, s, plans)
  {
  }

  lemma SweptReads(jobs: Table, s: State, plans: map<PlanId, Plan>, now: Time, max: nat)
    requires RowsRead(jobs, s, plans)
    ensures RowsRead(Swept(jobs, now, max), s, plans)
  {
    hide ScanOk, ResultOk;
    var swept := Swept(jobs, now, max);
    forall id | id in swept ensures RowReads(swept[id], s, plans) { assert RowReads(jobs[id], s, plans); }
  }

  lemma ScheduledReads(jobs: Table, s: State, plans: map<PlanId, Plan>, t: State, p: Policy, spare: JobId, now: Time)
    requires RowsRead(jobs, s, plans)
    ensures RowsRead(Scheduled(jobs, t, p, spare, now), s, plans)
  {
    hide ScanOk;
  }

  // ---------- steps ----------

  /** What a step keeps of everything read earlier. */
  ghost predicate Follows(p: Policy, a: System, b: System) {
    Reads(p, b) && Store.Later(a.store, b.store) && PlansGrow(a.plans, b.plans)
  }

  /** The scan's owner either has moved on already, or moves on from exactly the window the plan was read from. */
  predicate Fits(j: Job, plan: Plan) {
    j.payload.Consolidation? && (j.payload.continued || j.payload.scan == Some(plan.scan))
  }

  lemma AccountsOnly(s: State, cursor: Key, dreamWrites: nat)
    requires Inv(s) && dreamWrites <= s.writes
    ensures Inv(s.(cursor := cursor, dreamWrites := dreamWrites))
    ensures Store.Later(s, s.(cursor := cursor, dreamWrites := dreamWrites))
  {
    hide Inv, Store.Later, Runs.Sound;
    Runs.AccountSound(s, cursor, dreamWrites);
    Runs.SoundParts(s, s.(cursor := cursor, dreamWrites := dreamWrites));
  }

  lemma AdvanceStore(p: Policy, jobs: Table, s: State, plans: map<PlanId, Plan>, id: JobId, cursor: Key, spare: JobId,
                     now: Time)
    requires Inv(s) && id in jobs && RowReads(jobs[id].(result := Blank), s, plans)
    ensures
      var t := Advanced(jobs, s, id, cursor, p, spare, now).store;
      Inv(t) && Store.Later(s, t)
  {
    hide Inv, Store.Later, Scheduled, WindowKeys;
    LaterReflexive(s);
    InvParts(s);
    var payload := jobs[id].payload;
    if payload.Consolidation? && !payload.continued && payload.scan.Some? {
      var scan := payload.scan.value;
      var more := More(s, scan.end, cursor);
      AccountsOnly(s, Further(s.cursor, cursor), if more then s.dreamWrites else Max(s.dreamWrites, scan.writes));
    }
  }

  lemma FinishedReads(jobs: Table, s: State, plans: map<PlanId, Plan>, id: JobId, status: JobStatus, result: JobResult)
    requires RowsRead(jobs, s, plans) && id in jobs && ResultOk(result, s, plans)
    ensures RowReads(Finished(jobs[id], status, result).(result := Blank), s, plans)
    ensures jobs[id].payload.Consolidation? && jobs[id].payload.continued ==>
      RowReads(Finished(jobs[id], status, result), s, plans)
    ensures jobs[id].payload.Consolidation? ==>
      RowReads(Finished(jobs[id], status, result).(payload := jobs[id].payload.(continued := true)), s, plans)
  {
    hide ScanOk, ResultOk;
    NothingYet(s, plans);
    assert RowReads(jobs[id], s, plans);
  }

  lemma AdvanceRows(p: Policy, jobs: Table, s: State, plans: map<PlanId, Plan>, id: JobId, status: JobStatus,
                    result: JobResult, plan: Plan, spare: JobId, now: Time)
    requires RowsRead(jobs, s, plans) && id in jobs && spare !in jobs && ResultOk(result, s, plans)
    requires Fits(jobs[id], plan) && AtOrAfter(plan.scan.cursor, plan.cursor)
    ensures RowsRead(Advanced(jobs[id := Finished(jobs[id], status, result)], s, id, plan.cursor, p, spare, now).jobs,
      s, plans)
  {
    hide RowsRead, ScanOk, ResultOk, Scheduled, WindowKeys;
    var finished := jobs[id := Finished(jobs[id], status, result)];
    var payload := jobs[id].payload;
    FinishedReads(jobs, s, plans, id, status, result);
    RowReading(jobs, s, plans, id);
    if payload.continued {
      RowAdded(jobs, s, plans, id, finished[id]);
    } else {
      var scan := payload.scan.value;
      var more := More(s, scan.end, plan.cursor);
      ScanMovesOn(scan, s, plan.cursor);
      var next := Fresh(DreamJob, None, Consolidation(Some(scan.(cursor := plan.cursor)), false), now);
      var moved := finished[id].(payload := payload.(continued := true));
      assert RowReads(next, s, plans) by { NothingYet(s, plans); }
      RowAdded(jobs, s, plans, spare, next);
      var jobs1 := if more then jobs[spare := next] else jobs;
      RowAdded(jobs1, s, plans, id, moved);
      assert (if more then finished[spare := next] else finished)[id := moved] == jobs1[id := moved];
      var s1 := s.(
        cursor := Further(s.cursor, plan.cursor),
        dreamWrites := if more then s.dreamWrites else Max(s.dreamWrites, scan.writes));
      ScheduledReads(jobs1[id := moved], s, plans, s1, p, spare, now);
    }
  }

  lemma NothingYet(s: State, plans: map<PlanId, Plan>)
    ensures ResultOk(Blank, s, plans)
  {
  }

  /** Acknowledging a dream: rows, store and scan stay tied together. */
  lemma AdvanceReads(p: Policy, jobs: Table, s: State, plans: map<PlanId, Plan>, id: JobId, status: JobStatus,
                     result: JobResult, plan: Plan, spare: JobId, now: Time)
    requires Inv(s) && RowsRead(jobs, s, plans) && id in jobs && spare !in jobs && ResultOk(result, s, plans)
    requires Fits(jobs[id], plan) && AtOrAfter(plan.scan.cursor, plan.cursor)
    ensures
      var next := Advanced(jobs[id := Finished(jobs[id], status, result)], s, id, plan.cursor, p, spare, now);
      RowsRead(next.jobs, next.store, plans) && Inv(next.store) && Store.Later(s, next.store)
  {
    hide Inv, RowsRead, Store.Later, Advanced, RowReads, ResultOk;
    var finished := jobs[id := Finished(jobs[id], status, result)];
    FinishedReads(jobs, s, plans, id, status, result);
    AdvanceRows(p, jobs, s, plans, id, status, result, plan, spare, now);
    AdvanceStore(p, finished, s, plans, id, plan.cursor, spare, now);
    PlansGrowReflexive(plans);
    var next := Advanced(finished, s, id, plan.cursor, p, spare, now);
    RowsCarry(next.jobs, s, next.store, plans, plans);
  }

  /** A job still running under the claim that planned it has the plan's own window pinned. */
  lemma PlannerFits(p: Policy, a: System, token: Token, now: Time, id: PlanId)
    requires Guarded(p, a) && Reads(p, a) && Holding(a, token, now) && id in a.plans
    requires Applies(p, a, token, id) || a.claims[token].stage == Planned(id)
    ensures Fits(a.jobs[JobOf(a, token)], a.plans[id])
  {
    hide PlansOk, Inv, Fenced, Drafts, RowsRead, ClaimsRead, Automatic, ScanOk, ResultOk;
    var job := JobOf(a, token);
    RowAt(p, a.jobs, a.claims, job);
    DraftAt(a.claims, a.jobs, token);
    RowReading(a.jobs, a.store, a.plans, job);
    ClaimReading(a.claims, a.jobs, a.store, a.plans, token);
  }

  lemma PlanAt(plans: map<PlanId, Plan>, s: State, size: nat, id: PlanId)
    requires PlansOk(plans, s, size) && id in plans
    ensures PlanOk(plans[id], s, size)
  {
  }

  /** Applying a plan to the store it was read from. */
  lemma ApplyStore(plan: Plan, s: State, size: nat, vectors: seq<Vector>, now: Time)
    requires PlanOk(plan, s, size) && Inv(s) && Keyed(s) && |vectors| == |plan.changes|
    requires Dream.ApplyPlan(s, plan.groups, plan.changes, vectors, now).Ok?
    ensures
      var t := Dream.ApplyPlan(s, plan.groups, plan.changes, vectors, now).value;
      Inv(t) && Store.Later(s, t) && t.writes == s.writes && t.cursor == s.cursor && t.dreamWrites == s.dreamWrites
  {
    hide Inv, Store.Later, Dream.ApplyPlan, ScanOk, Reconciliation.Kept;
    Dream.PlanKeeps(s, plan.groups, plan.changes, vectors, now);
    KeptIsLater(s, Dream.ApplyPlan(s, plan.groups, plan.changes, vectors, now).value);
  }

  lemma KeptIsLater(s: State, t: State)
    requires Reconciliation.Kept(s, s, t)
    ensures Inv(t) && Store.Later(s, t)
  {
  }

  lemma PlansApplied(plans: map<PlanId, Plan>, s: State, size: nat, id: PlanId)
    requires PlansOk(plans, s, size) && id in plans
    ensures PlansOk(plans[id := plans[id].(applied := true)], s, size)
    ensures PlansGrow(plans, plans[id := plans[id].(applied := true)])
  {
    hide Inv, Store.Later, ScanOk;
    assert PlanOk(plans[id], s, size);
  }

  lemma ApplyFollows(p: Policy, a: System, token: Token, vectors: seq<Vector>, spare: JobId, now: Time, b: System)
    requires ValidPolicy(p) && Guarded(p, a) && Reads(p, a) && AppliesPlan(p, a, token, vectors, spare, now, b)
      && Grows(a.jobs, b.jobs)
    ensures Follows(p, a, b)
  {
    hide Guarded, Inv, PlansOk, RowsRead, ClaimsRead, Advanced, Dream.ApplyPlan, Applies, PlansGrow, Store.Later, Grows,
        LogEntry;
    var id :| AppliesThis(p, a, token, id, vectors, spare, now, b);
    var job := JobOf(a, token);
    var plan := a.plans[id];
    PlannerFits(p, a, token, now, id);
    PlanAt(a.plans, a.store, p.batchSize, id);
    PlanCursorMoves(plan, a.store, p.batchSize);
    ApplyStore(plan, a.store, p.batchSize, vectors, now);
    var t := Dream.ApplyPlan(a.store, plan.groups, plan.changes, vectors, now).value;
    PlansApplied(a.plans, a.store, p.batchSize, id);
    RowsCarry(a.jobs, a.store, t, a.plans, b.plans);
    AdvanceReads(p, a.jobs, t, b.plans, job, Done, Consolidated(id), plan, spare, now);
    LaterTransitive(a.store, t, b.store);
    PlansCarry(b.plans, a.store, b.store, p.batchSize);
    ClaimsCarry(a.claims, a.jobs, b.jobs, a.store, b.store, a.plans, b.plans);
    HandmadeCarries(a.handmade, a.store, b.store);
  }

  lemma OfferFollows(p: Policy, a: System, token: Token, spare: JobId, now: Time, b: System)
    requires ValidPolicy(p) && Guarded(p, a) && Reads(p, a) && OffersPlan(p, a, token, spare, now, b)
      && Grows(a.jobs, b.jobs)
    ensures Follows(p, a, b)
  {
    hide Guarded, Inv, PlansOk, RowsRead, ClaimsRead, Advanced, Applies, PlansGrow, Store.Later, Grows, LogEntry,
        Automatic;
    var id := a.claims[token].stage.plan;
    var plan := a.plans[id];
    PlannerFits(p, a, token, now, id);
    PlanAt(a.plans, a.store, p.batchSize, id);
    PlanCursorMoves(plan, a.store, p.batchSize);
    PlansGrowReflexive(a.plans);
    AdvanceReads(p, a.jobs, a.store, a.plans, JobOf(a, token), Proposed, PlanOffered(id, plan.generation, false), plan,
      spare, now);
    PlansCarry(b.plans, a.store, b.store, p.batchSize);
    ClaimsCarry(a.claims, a.jobs, b.jobs, a.store, b.store, a.plans, b.plans);
    HandmadeCarries(a.handmade, a.store, b.store);
  }

  /** A step that moves only the store, to a later one, and rows whose reading is unaffected. */
  lemma StoreFollows(p: Policy, a: System, b: System)
    requires Reads(p, a) && Inv(b.store) && Store.Later(a.store, b.store) && a.plans == b.plans && a.claims == b.claims
      && Grows(a.jobs, b.jobs)
    requires a.handmade == b.handmade
    requires RowsRead(b.jobs, a.store, a.plans)
    ensures Follows(p, a, b)
  {
    hide Inv, PlansOk, RowsRead, ClaimsRead, PlansGrow, Store.Later, Grows;
    PlansGrowReflexive(a.plans);
    PlansCarry(b.plans, a.store, b.store, p.batchSize);
    RowsCarry(b.jobs, a.store, b.store, a.plans, b.plans);
    ClaimsCarry(a.claims, a.jobs, b.jobs, a.store, b.store, a.plans, b.plans);
    HandmadeCarries(a.handmade, a.store, b.store);
  }

  lemma PersistSound(s: State, request: Remember.Request, i: Remember.Inspection, d: Reconciliation.Decision, now: Time)
    requires Inv(s) && Keyed(s) && request.memory.id != "" && Remember.Inspects(s, request, i)
      && Remember.Persist(s, request, i, d, now).Ok?
    ensures
      var t := Remember.Persist(s, request, i, d, now).value;
      Inv(t) && Store.Later(s, t) && t.generation == s.generation + 1 && t.writes == s.writes + 1
  {
    hide Inv, Store.Later, Remember.Inspects, Remember.Persist, Runs.Commit, Runs.Sound;
    Remember.PersistIsACommit(s, request, i, d, now);
    var allowed :| Runs.Commit(s, Runs.Event.Remember(request.memory, request.vector, d, allowed, now))
      == Remember.Persist(s, request, i, d, now);
    var e := Runs.Event.Remember(request.memory, request.vector, d, allowed, now);
    Runs.CommitIsSound(s, e);
    Runs.SoundParts(s, Remember.Persist(s, request, i, d, now).value);
    PersistCounts(s, request, i, d, now);
  }

  lemma PersistCounts(s: State, request: Remember.Request, i: Remember.Inspection, d: Reconciliation.Decision,
                      now: Time)
    requires Keyed(s) && Remember.Persist(s, request, i, d, now).Ok?
    ensures
      var t := Remember.Persist(s, request, i, d, now).value;
      t.generation == s.generation + 1 && t.writes == s.writes + 1 && t.dreamWrites == s.dreamWrites
        && t.cursor == s.cursor
  {
    hide Reconciliation.Objection, Reconciliation.MergedRefs, Remember.Eligible, Remember.NeighborIds;
  }

  lemma PersistsSoundly(a: System, token: Token, vector: Vector, i: Remember.Inspection, d: Reconciliation.Decision,
                        now: Time, t: State)
    requires Inv(a.store) && Persists(a, token, vector, i, d, now, t)
    ensures Inv(t) && Store.Later(a.store, t) && t.generation == a.store.generation + 1
      && t.writes == a.store.writes + 1
  {
    hide Inv, Store.Later, Remember.Inspects, Remember.Persist, Remember.Decides, MemoryOf;
    var request := RequestOf(MemoryOf(a, token).value, vector, a.claims[token].result);
    PersistSound(a.store, request, i, d, now);
  }

  lemma StoreCaptureFollows(p: Policy, a: System, token: Token, vector: Vector, i: Remember.Inspection,
                            d: Reconciliation.Decision, spare: JobId, now: Time, b: System)
    requires Reads(p, a) && StoresCapture(p, a, token, vector, i, d, spare, now, b) && Grows(a.jobs, b.jobs)
    ensures Follows(p, a, b)
  {
    hide Inv, PlansOk, RowsRead, ClaimsRead, Store.Later, Grows, Persists, Permitted, Scheduled, RowReads, ResultOk;
    var t :| Persists(a, token, vector, i, d, now, t) && StoresThis(p, a, token, i, d, spare, now, t, b);
    var id := JobOf(a, token);
    PersistsSoundly(a, token, vector, i, d, now, t);
    ScheduledReads(a.jobs, a.store, a.plans, t, p, spare, now);
    var finished := Finished(a.jobs[id], Done, Stored(if d.Attach? then d.target else i.memory.id));
    AcknowledgedReads(a.jobs, a.store, a.plans, id, finished);
    RowAdded(Scheduled(a.jobs, t, p, spare, now), a.store, a.plans, id, finished);
    StoreFollows(p, a, b);
  }

  lemma AcknowledgedReads(jobs: Table, s: State, plans: map<PlanId, Plan>, id: JobId, j: Job)
    requires RowsRead(jobs, s, plans) && id in jobs && j.payload == jobs[id].payload && j.result.Stored?
    ensures RowReads(j, s, plans)
  {
    hide ScanOk;
    assert RowReads(jobs[id], s, plans);
  }

  lemma ForegroundFollows(p: Policy, a: System, e: Runs.Event, spare: JobId, now: Time, b: System)
    requires Reads(p, a) && Foregrounds(p, a, e, spare, now, b) && Grows(a.jobs, b.jobs)
    ensures Follows(p, a, b)
  {
    hide Inv, PlansOk, RowsRead, ClaimsRead, Store.Later, Grows, Scheduled, Runs.Commit, Runs.Sound;
    Runs.CommitIsSound(a.store, e);
    Runs.SoundParts(a.store, b.store);
    ScheduledReads(a.jobs, a.store, a.plans, b.store, p, spare, now);
    StoreFollows(p, a, b);
  }

  lemma RowFollows(p: Policy, a: System, id: JobId, j: Job, b: System)
    requires Reads(p, a) && id in a.jobs && b == a.(jobs := a.jobs[id := j]) && Grows(a.jobs, b.jobs)
    requires RowReads(a.jobs[id], a.store, a.plans) ==> RowReads(j, a.store, a.plans)
    ensures Follows(p, a, b)
  {
    hide Inv, PlansOk, RowsRead, ClaimsRead, Store.Later, Grows, RowReads;
    RowReading(a.jobs, a.store, a.plans, id);
    RowAdded(a.jobs, a.store, a.plans, id, j);
    LaterReflexive(a.store);
    StoreFollows(p, a, b);
  }

  lemma OfferCaptureFollows(p: Policy, a: System, token: Token, now: Time, b: System)
    requires Guarded(p, a) && Reads(p, a) && OffersCapture(p, a, token, now, b) && Grows(a.jobs, b.jobs)
    ensures Follows(p, a, b)
  {
    hide Inv, PlansOk, RowsRead, ClaimsRead, Store.Later, Grows, ScanOk, Fenced, Drafts, PlansGrow, Follows;
    ClaimReading(a.claims, a.jobs, a.store, a.plans, token);
    DraftAt(a.claims, a.jobs, token);
    RowFollows(p, a, JobOf(a, token), b.jobs[JobOf(a, token)], b);
  }

  lemma SweepFollows(p: Policy, a: System, now: Time, b: System)
    requires Reads(p, a) && Sweeps(p, a, now, b) && Grows(a.jobs, b.jobs)
    ensures Follows(p, a, b)
  {
    hide Inv, PlansOk, RowsRead, ClaimsRead, Store.Later, Grows;
    SweptReads(a.jobs, a.store, a.plans, now, p.maxAttempts);
    LaterReflexive(a.store);
    StoreFollows(p, a, b);
  }

  /** A step that moves only rows and one claim. */
  lemma ClaimFollows(p: Policy, a: System, token: Token, c: Claim, b: System)
    requires Reads(p, a) && a.store == b.store && a.plans == b.plans && Grows(a.jobs, b.jobs)
      && a.handmade == b.handmade && b.claims == a.claims[token := c]
    requires RowsRead(b.jobs, b.store, b.plans) && ClaimReads(c, b.jobs, b.store, b.plans)
    ensures Follows(p, a, b)
  {
    hide Inv, PlansOk, RowsRead, ClaimsRead, ClaimReads, PlansGrow, Store.Later, Grows;
    LaterReflexive(a.store);
    PlansGrowReflexive(a.plans);
    ClaimsCarry(a.claims, a.jobs, b.jobs, a.store, b.store, a.plans, b.plans);
    ClaimAdd(a.claims, b.jobs, b.store, b.plans, token, c);
  }

  lemma LeaseFollows(p: Policy, a: System, id: JobId, token: Token, now: Time, b: System)
    requires Reads(p, a) && Leases(p, a, id, token, now, b) && Grows(a.jobs, b.jobs)
    ensures Follows(p, a, b)
  {
    hide Inv, PlansOk, RowsRead, ClaimsRead, Store.Later, Grows, ScanOk, ResultOk, Follows;
    var swept := Swept(a.jobs, now, p.maxAttempts);
    SweptReads(a.jobs, a.store, a.plans, now, p.maxAttempts);
    RowReading(swept, a.store, a.plans, id);
    RowAdded(swept, a.store, a.plans, id, b.jobs[id]);
    ClaimFollows(p, a, token, b.claims[token], b);
  }

  lemma PinFollows(p: Policy, a: System, token: Token, now: Time, b: System)
    requires Reads(p, a) && Pins(p, a, token, now, b) && Grows(a.jobs, b.jobs)
    ensures Follows(p, a, b)
  {
    hide Inv, PlansOk, RowsRead, ClaimsRead, Store.Later, Grows, ScanOk, ResultOk, Follows, Pin;
    var id := JobOf(a, token);
    PinIsOk(a.store, id);
    RowReading(a.jobs, a.store, a.plans, id);
    RowAdded(a.jobs, a.store, a.plans, id, b.jobs[id]);
    ClaimReading(a.claims, a.jobs, a.store, a.plans, token);
    ClaimFollows(p, a, token, b.claims[token], b);
  }

  lemma DraftFollows(p: Policy, a: System, token: Token, vector: Vector, i: Remember.Inspection,
                     d: Reconciliation.Decision, now: Time, b: System)
    requires Reads(p, a) && DraftsCapture(p, a, token, vector, i, d, now, b)
    ensures Follows(p, a, b)
    ensures b.claims[token].stage == Drafted(Suggested(d, a.store.generation, false, a.store))
  {
    hide Inv, PlansOk, RowsRead, ClaimsRead, Store.Later, Grows, Follows, Persists, Permitted;
    var t :| Persists(a, token, vector, i, d, now, t) && DraftsThis(p, a, token, i, d, t, b);
    PersistsSoundly(a, token, vector, i, d, now, t);
    LaterReflexive(a.store);
    ClaimReading(a.claims, a.jobs, a.store, a.plans, token);
    GrowsReflexive(a.jobs);
    ClaimFollows(p, a, token, b.claims[token], b);
  }

  lemma SaveFollows(p: Policy, a: System, token: Token, id: PlanId, plan: Plan, b: System)
    requires Reads(p, a) && Saves(p, a, token, id, plan, b)
    ensures Follows(p, a, b)
  {
    hide Inv, PlansOk, RowsRead, ClaimsRead, Store.Later, Grows, ScanOk, ResultOk, IsPlan, PlansGrow;
    GrowsReflexive(a.jobs);
    LaterReflexive(a.store);
    ClaimReading(a.claims, a.jobs, a.store, a.plans, token);
    PlanSaved(a.plans, a.store, p.batchSize, id, plan, a.claims[token].stage.scan);
    RowsCarry(a.jobs, a.store, a.store, a.plans, b.plans);
    ClaimsCarry(a.claims, a.jobs, a.jobs, a.store, a.store, a.plans, b.plans);
    ClaimReading(a.claims, a.jobs, a.store, b.plans, token);
    ClaimAdd(a.claims, a.jobs, a.store, b.plans, token, b.claims[token]);
  }

  lemma PlanSaved(plans: map<PlanId, Plan>, s: State, size: nat, id: PlanId, plan: Plan, scan: Scan)
    requires Inv(s) && PlansOk(plans, s, size) && id !in plans && IsPlan(s, scan, size, plan) && ScanOk(scan, s)
    ensures PlansOk(plans[id := plan], s, size) && PlansGrow(plans, plans[id := plan]) && plan.scan == scan
  {
    hide Inv, Store.Later, ScanOk;
    LaterReflexive(s);
    assert plan.(applied := false) == plan;
    assert PlanOk(plan, s, size);
  }

  lemma SameReadings(p: Policy, a: System, b: System)
    requires Reads(p, a) && a.store == b.store && a.jobs == b.jobs && a.plans == b.plans && a.claims == b.claims
    requires a.handmade == b.handmade
    ensures Follows(p, a, b)
  {
    hide Inv, PlansOk, RowsRead, ClaimsRead, Store.Later, PlansGrow;
    LaterReflexive(a.store);
    PlansGrowReflexive(a.plans);
  }

  lemma StepFollows(p: Policy, a: System, step: Step, b: System)
    requires ValidPolicy(p) && Guarded(p, a) && Reads(p, a) && Transition(p, a, step, b)
    ensures Follows(p, a, b)
  {
    hide Guarded, Fencing.Kept, Follows, Reads, Sweeps, Leases, Pins, Saves, AppliesPlan, OffersPlan, StoresCapture,
         DraftsCapture, OffersCapture;
    hide Foregrounds, ScanOk, ResultOk, DraftsByHand, AppliesByHand;
    StepKeeps(p, a, step, b);
    assert Grows(a.jobs, b.jobs) by { KeptGrows(p, a, b); }
    NothingYet(a.store, a.plans);
    match step
    case Sweep(now) => SweepFollows(p, a, now, b);
    case Lease(id, token, now) => LeaseFollows(p, a, id, token, now, b);
    case PinScan(token, now) => PinFollows(p, a, token, now, b);
    case SavePlan(token, id, plan) => SaveFollows(p, a, token, id, plan, b);
    case ApplyPlan(token, vectors, spare, now) => ApplyFollows(p, a, token, vectors, spare, now, b);
    case OfferPlan(token, spare, now) => OfferFollows(p, a, token, spare, now, b);
    case StoreCapture(token, vector, i, d, spare, now) => StoreCaptureFollows(p, a, token, vector, i, d, spare, now, b);
    case DraftCapture(token, vector, i, d, now) => DraftFollows(p, a, token, vector, i, d, now, b);
    case OfferCapture(token, now) => OfferCaptureFollows(p, a, token, now, b);
    case GiveUp(token, now) => RowFollows(p, a, JobOf(a, token), b.jobs[JobOf(a, token)], b);
    case Review(id, accept) => ReviewFollows(p, a, id, accept, b);
    case Retry(id) => RowFollows(p, a, id, Retried(a.jobs[id]), b);
    case Begin(_, _) => SameReadings(p, a, b);
    case Complete(_) => SameReadings(p, a, b);
    case Capture(task, event, report, id, now) => CaptureFollows(p, a, step, b);
    case Foreground(e, spare, now) => ForegroundFollows(p, a, e, spare, now, b);
    case DraftByHand(id, size, plan) => DraftByHandFollows(p, a, id, size, plan, b);
    case ApplyByHand(id, vectors, now) => ApplyByHandFollows(p, a, id, vectors, now, b);
    case Compact(id) => RowFollows(p, a, id, a.jobs[id].(payload := Compacted), b);
    case ArchiveEvent(_) => SameReadings(p, a, b);
  }

  lemma DraftByHandFollows(p: Policy, a: System, id: PlanId, size: nat, plan: Dream.SavedPlan, b: System)
    requires Reads(p, a) && DraftsByHand(a, id, size, plan, b)
    ensures Follows(p, a, b)
  {
    hide Inv, PlansOk, RowsRead, ClaimsRead, Store.Later, Grows, HandBatch;
    AccountsOnly(a.store, a.store.cursor, plan.writes);
    GrowsReflexive(a.jobs);
    var mid := a.(store := b.store);
    StoreFollows(p, a, mid);
    FollowsReads(p, a, mid);
  }

  /** What applying any saved plan by hand makes of the store. */
  lemma ByHandStore(s: State, plan: Dream.SavedPlan, vectors: seq<Vector>, now: Time)
    requires Inv(s) && Keyed(s) && |vectors| == |plan.changes| && plan.writes <= s.writes
    requires forall i :: 0 <= i < |plan.changes| ==> plan.changes[i].memory.id != ""
    requires Dream.ApplyByHand(s, plan, vectors, now).Ok?
    ensures
      var t := Dream.ApplyByHand(s, plan, vectors, now).value;
      Inv(t) && Store.Later(s, t) && t.writes == s.writes && t.cursor == plan.cursor
  {
    hide Inv, Store.Later, Dream.ApplyPlan, Reconciliation.Kept;
    Dream.PlanKeeps(s, plan.groups, plan.changes, vectors, now);
    var mid := Dream.ApplyPlan(s, plan.groups, plan.changes, vectors, now).value;
    KeptIsLater(s, mid);
    CountsFit(mid);
    AccountsOnly(mid, plan.cursor, Max(mid.dreamWrites, plan.writes));
    LaterTransitive(s, mid, Dream.Accounted(mid, plan));
  }

  lemma CountsFit(s: State)
    requires Inv(s)
    ensures s.dreamWrites <= s.writes
  {
  }

  /** A saved plan accounts for writes of the past and changes identified records. */
  lemma SavedIsOk(p: Policy, a: System, id: PlanId)
    requires Reads(p, a) && SavedAs(a, id).Some?
    ensures
      var plan := SavedAs(a, id).value;
      && plan.writes <= a.store.writes
      && forall i :: 0 <= i < |plan.changes| ==> plan.changes[i].memory.id != ""
  {
    hide Inv, RowsRead, ClaimsRead, PlansOk;
    if id !in a.handmade { PlanAt(a.plans, a.store, p.batchSize, id); }
  }

  lemma ApplyByHandFollows(p: Policy, a: System, id: PlanId, vectors: seq<Vector>, now: Time, b: System)
    requires Reads(p, a) && AppliesByHand(a, id, vectors, now, b)
    ensures Follows(p, a, b)
  {
    hide Inv, PlansOk, RowsRead, ClaimsRead, Store.Later, Grows, PlansGrow, Dream.ApplyByHand, Keyed, HandmadeOk;
    SavedIsOk(p, a, id);
    ByHandStore(a.store, SavedAs(a, id).value, vectors, now);
    GrowsReflexive(a.jobs);
    ByHandPlans(p, a, id, b);
    PlansCarry(b.plans, a.store, b.store, p.batchSize);
    RowsCarry(a.jobs, a.store, b.store, a.plans, b.plans);
    ClaimsCarry(a.claims, a.jobs, b.jobs, a.store, b.store, a.plans, b.plans);
    HandmadeCarries(b.handmade, a.store, b.store);
  }

  lemma ByHandPlans(p: Policy, a: System, id: PlanId, b: System)
    requires PlansOk(a.plans, a.store, p.batchSize) && HandmadeOk(a.handmade, a.store) && SavedAs(a, id).Some?
    requires b.plans == if id in a.handmade then a.plans else a.plans[id := a.plans[id].(applied := true)]
    requires b.handmade == if id in a.handmade then a.handmade[id := a.handmade[id].(applied := true)] else a.handmade
    ensures PlansOk(b.plans, a.store, p.batchSize) && PlansGrow(a.plans, b.plans) && HandmadeOk(b.handmade, a.store)
  {
    hide PlansOk, PlansGrow;
    PlansGrowReflexive(a.plans);
    if id !in a.handmade { PlansApplied(a.plans, a.store, p.batchSize, id); }
  }

  lemma KeptGrows(p: Policy, a: System, b: System)
    requires Fencing.Kept(p, a, b)
    ensures Grows(a.jobs, b.jobs) && Guarded(p, b)
  {
  }

  lemma ReviewFollows(p: Policy, a: System, id: JobId, accept: bool, b: System)
    requires Reads(p, a) && Reviews(a, id, accept, b) && Grows(a.jobs, b.jobs)
    ensures Follows(p, a, b)
  {
    hide Inv, PlansOk, RowsRead, ClaimsRead, Store.Later, Grows, ScanOk, Follows;
    RowFollows(p, a, id, Reviewed(a.jobs[id], accept), b);
  }

  lemma CaptureFollows(p: Policy, a: System, step: Step, b: System)
    requires Reads(p, a) && step.Capture? && Transition(p, a, step, b) && Grows(a.jobs, b.jobs)
    ensures Follows(p, a, b)
  {
    hide Inv, PlansOk, RowsRead, ClaimsRead, Store.Later, Grows;
    NothingYet(a.store, a.plans);
    RowAdded(a.jobs, a.store, a.plans, step.job, b.jobs[step.job]);
    LaterReflexive(a.store);
    StoreFollows(p, a, b);
  }

  // ---------- executions ----------

  lemma StartReads(p: Policy, a: System)
    requires Start(a)
    ensures Reads(p, a)
  {
    hide Runs.Initial, Inv;
    Runs.InitialInv(a.store);
  }

  lemma FollowsReads(p: Policy, a: System, b: System)
    requires Follows(p, a, b)
    ensures Reads(p, b) && Store.Later(a.store, b.store)
  {
  }

  lemma {:induction false} AlwaysReads(p: Policy, systems: seq<System>, steps: seq<Step>, k: nat)
    requires Execution(p, systems, steps) && k < |systems|
    ensures Reads(p, systems[k])
  {
    hide Transition, Start, Reads, Guarded, Follows;
    if k == 0 {
      StartReads(p, systems[0]);
    } else {
      AlwaysReads(p, systems, steps, k - 1);
      Effects.AlwaysGuarded(p, systems, steps, k - 1);
      StepFollows(p, systems[k - 1], steps[k - 1], systems[k]);
      FollowsReads(p, systems[k - 1], systems[k]);
    }
  }

  lemma StepIsLater(p: Policy, systems: seq<System>, steps: seq<Step>, k: nat)
    requires Execution(p, systems, steps) && k < |steps|
    ensures Store.Later(systems[k].store, systems[k + 1].store)
  {
    hide Transition, Start, Reads, Guarded, Follows;
    AlwaysReads(p, systems, steps, k);
    Effects.AlwaysGuarded(p, systems, steps, k);
    StepFollows(p, systems[k], steps[k], systems[k + 1]);
    FollowsReads(p, systems[k], systems[k + 1]);
  }

  /** In every execution the store only moves to later states. */
  lemma {:induction false} StoresAreLater(p: Policy, systems: seq<System>, steps: seq<Step>, i: nat, k: nat)
    requires Execution(p, systems, steps) && i <= k < |systems|
    ensures Store.Later(systems[i].store, systems[k].store)
    decreases k
  {
    hide Transition, Start, Store.Later;
    if i == k {
      LaterReflexive(systems[i].store);
    } else {
      StoresAreLater(p, systems, steps, i, k - 1);
      StepIsLater(p, systems, steps, k - 1);
      LaterTransitive(systems[i].store, systems[k - 1].store, systems[k].store);
    }
  }

  /** A reviewed capture is stored only if the owner's records are exactly those its decision was computed from, and the
      decision applied is the one approved. */
  lemma ReviewedCaptureMeetsItsState(p: Policy, systems: seq<System>, steps: seq<Step>, k: nat)
    requires Execution(p, systems, steps) && k < |steps| && steps[k].StoreCapture?
    requires steps[k].token in systems[k].claims && Approved(systems[k].claims[steps[k].token].result)
    ensures systems[k].claims[steps[k].token].result.Suggested?
    ensures steps[k].decision == systems[k].claims[steps[k].token].result.decision
    ensures SameContents(systems[k].claims[steps[k].token].result.basis, systems[k].store)
  {
    hide Transition, Start, Reads, Guarded, PlansOk, RowsRead, ClaimsRead, Store.Later, Inv;
    AlwaysReads(p, systems, steps, k);
    Effects.AlwaysGuarded(p, systems, steps, k);
    TransitionAt(p, systems, steps, k);
    ApprovedCapture(p, systems[k], steps[k], systems[k + 1]);
  }

  lemma TransitionAt(p: Policy, systems: seq<System>, steps: seq<Step>, k: nat)
    requires Execution(p, systems, steps) && k < |steps|
    ensures Transition(p, systems[k], steps[k], systems[k + 1]) && ValidPolicy(p)
  {
  }

  lemma ApprovedCapture(p: Policy, a: System, step: Step, b: System)
    requires Guarded(p, a) && Reads(p, a) && Transition(p, a, step, b) && step.StoreCapture?
    requires step.token in a.claims && Approved(a.claims[step.token].result)
    ensures
      var result := a.claims[step.token].result;
      result.Suggested? && step.decision == result.decision && SameContents(result.basis, a.store)
  {
    hide Fenced, Drafts, Inv, PlansOk, RowsRead, ClaimsRead, Persists, Permitted, Store.Later, Scheduled, RowReads;
    var t :| Persists(a, step.token, step.vector, step.inspection, step.decision, step.now, t)
          && StoresThis(p, a, step.token, step.inspection, step.decision, step.spare, step.now, t, b);
    var result := a.claims[step.token].result;
    ClaimReading(a.claims, a.jobs, a.store, a.plans, step.token);
    ExplicitIsCurrent(a, step.token, step.vector, step.inspection, step.decision, step.now, t);
    RowAt(p, a.jobs, a.claims, JobOf(a, step.token));
    CapturesHold(a, step.token, step.vector, step.inspection, step.decision, step.now, t);
    Remember.LaterSame(result.basis, a.store);
  }

  lemma CapturesHold(a: System, token: Token, vector: Vector, i: Remember.Inspection, d: Reconciliation.Decision,
                     now: Time, t: State)
    requires Persists(a, token, vector, i, d, now, t)
    ensures JobOf(a, token) in a.jobs && a.jobs[JobOf(a, token)].payload.Evidence?
  {
    hide Remember.Persist, Remember.Inspects, Remember.Decides;
  }

  lemma ExplicitIsCurrent(a: System, token: Token, vector: Vector, i: Remember.Inspection, d: Reconciliation.Decision,
                          now: Time, t: State)
    requires Persists(a, token, vector, i, d, now, t)
    ensures
      var result := a.claims[token].result;
      result.Suggested? && result.approved ==> d == result.decision && result.generation == a.store.generation
  {
    hide Remember.Persist, Remember.Inspects, MemoryOf;
    var request := RequestOf(MemoryOf(a, token).value, vector, a.claims[token].result);
    Remember.SameGeneration(a.store, request, i);
  }

  /** A plan, reviewed or not, is applied only to exactly the records it was read from. */
  lemma PlansMeetTheirState(p: Policy, systems: seq<System>, steps: seq<Step>, k: nat)
    requires Execution(p, systems, steps) && k < |steps| && steps[k].ApplyPlan?
    ensures steps[k].token in systems[k].claims
    ensures exists id ::
      id in systems[k].plans && !systems[k].plans[id].applied && Applies(p, systems[k], steps[k].token, id)
                      && SameContents(systems[k].plans[id].basis, systems[k].store)
  {
    hide Transition, Start, Reads, Guarded, Applies, Store.Later, Inv;
    AlwaysReads(p, systems, steps, k);
    TransitionAt(p, systems, steps, k);
    AppliedMeetsBasis(p, systems[k], steps[k], systems[k + 1]);
  }

  lemma AppliedMeetsBasis(p: Policy, a: System, step: Step, b: System)
    requires Reads(p, a) && Transition(p, a, step, b) && step.ApplyPlan?
    ensures step.token in a.claims
    ensures exists id ::
      id in a.plans && !a.plans[id].applied && Applies(p, a, step.token, id) && SameContents(a.plans[id].basis, a.store)
  {
    hide Inv, RowsRead, ClaimsRead, Store.Later, Applies, Dream.ApplyPlan, Advanced, IsPlan, ScanOk;
    var id :| AppliesThis(p, a, step.token, id, step.vectors, step.spare, step.now, b);
    PlanAt(a.plans, a.store, p.batchSize, id);
    Remember.LaterSame(a.plans[id].basis, a.store);
  }

  /** The generation a proposal records is the one of the state it was computed from. */
  lemma DraftsRecordTheirState(p: Policy, systems: seq<System>, steps: seq<Step>, k: nat)
    requires Execution(p, systems, steps) && k < |steps| && steps[k].DraftCapture?
    ensures steps[k].token in systems[k + 1].claims
    ensures systems[k + 1].claims[steps[k].token].stage
         == Drafted(Suggested(steps[k].decision, systems[k].store.generation, false, systems[k].store))
    ensures systems[k + 1].store == systems[k].store && systems[k + 1].jobs == systems[k].jobs
  {
    hide Transition, Start, Reads, Follows, Persists, Permitted;
    AlwaysReads(p, systems, steps, k);
    TransitionAt(p, systems, steps, k);
    DraftFollows(p, systems[k], steps[k].token, steps[k].vector, steps[k].inspection, steps[k].decision, steps[k].now,
      systems[k + 1]);
  }

  // ---------- approvals ----------

  predicate ApprovedJob(jobs: Table, id: JobId) {
    id in jobs && Approved(jobs[id].result)
  }

  /** A job becomes approved only by a review that found the proposal current, and a failed attempt drops the
      approval. */
  lemma ApprovalOnlyByReview(p: Policy, a: System, step: Step, b: System, id: JobId)
    requires Guarded(p, a) && Transition(p, a, step, b)
    ensures ApprovedJob(b.jobs, id) && !ApprovedJob(a.jobs, id) ==>
      step == Step.Review(id, true) && GenerationOf(a.jobs[id].result) == Some(a.store.generation)
    ensures step.GiveUp? ==> !ApprovedJob(b.jobs, JobOf(a, step.token))
  {
    hide DraftsByHand, AppliesByHand;
    hide AppliesPlan, OffersPlan, StoresCapture, DraftsCapture, Foregrounds, IsPlan, Leases, Sweeps, Pins, Fenced,
        Drafts;
    match step
    case ApplyPlan(token, vectors, spare, now) => DreamsApproveNothing(p, a, step, b, id);
    case OfferPlan(token, spare, now) => DreamsApproveNothing(p, a, step, b, id);
    case StoreCapture(_, _, _, _, _, _) => StoresApproveNothing(p, a, step, b, id);
    case DraftCapture(_, _, _, _, _) => StoresApproveNothing(p, a, step, b, id);
    case Foreground(_, _, _) => StoresApproveNothing(p, a, step, b, id);
    case Lease(_, _, _) => LeasesApproveNothing(p, a, step, b, id);
    case Sweep(_) => LeasesApproveNothing(p, a, step, b, id);
    case PinScan(_, _) => LeasesApproveNothing(p, a, step, b, id);
    case OfferCapture(token, now) => DraftAt(a.claims, a.jobs, token);
    case DraftByHand(_, _, _) => ByHandKeepsTables(p, a, step, b);
    case ApplyByHand(_, _, _) => ByHandKeepsTables(p, a, step, b);
    case _ =>
  }

  lemma LeasesApproveNothing(p: Policy, a: System, step: Step, b: System, id: JobId)
    requires Transition(p, a, step, b) && (step.Lease? || step.Sweep? || step.PinScan?)
    ensures ApprovedJob(b.jobs, id) ==> ApprovedJob(a.jobs, id)
  {
    hide Pin;
  }

  lemma StoresApproveNothing(p: Policy, a: System, step: Step, b: System, id: JobId)
    requires Transition(p, a, step, b) && (step.StoreCapture? || step.DraftCapture? || step.Foreground?)
    ensures ApprovedJob(b.jobs, id) ==> ApprovedJob(a.jobs, id)
  {
    hide Persists, Permitted, Runs.Commit, DreamWaiting;
    if step.StoreCapture? {
      var t :| Persists(a, step.token, step.vector, step.inspection, step.decision, step.now, t)
            && StoresThis(p, a, step.token, step.inspection, step.decision, step.spare, step.now, t, b);
    }
  }

  lemma DreamsApproveNothing(p: Policy, a: System, step: Step, b: System, id: JobId)
    requires Transition(p, a, step, b) && (step.ApplyPlan? || step.OfferPlan?)
    ensures ApprovedJob(b.jobs, id) ==> ApprovedJob(a.jobs, id)
  {
    hide More, Dream.ApplyPlan, Automatic, Applies, DreamWaiting;
    if step.ApplyPlan? {
      var plan :| AppliesThis(p, a, step.token, plan, step.vectors, step.spare, step.now, b);
    }
  }
}
