/** Background work ends: without foreground requests every step of the workers, retention included, strictly lowers a
    well-founded measure, so consolidation cannot keep itself going; and where no step is left, nothing is left to
    do. */
module Quiescence {
  import opened Types
  import opened Counting
  import opened Ordering
  import opened Store
  import opened Jobs
  import opened Protocol
  import opened Fencing
  import opened Reviews
  import Dream
  import Remember
  import Reconciliation
  import Runs

  // ---------- sums over the job table ----------

  ghost function Sum(jobs: Table, f: Job -> nat): nat
    decreases |jobs|
  {
    if jobs == map[] then 0
    else
      var id :| id in jobs;
      f(jobs[id]) + Sum(jobs - {id}, f)
  }

  lemma {:induction false} SumWithout(jobs: Table, id: JobId, f: Job -> nat)
    requires id in jobs
    ensures Sum(jobs, f) == f(jobs[id]) + Sum(jobs - {id}, f)
    decreases |jobs|
  {
    var x :| x in jobs && Sum(jobs, f) == f(jobs[x]) + Sum(jobs - {x}, f);
    if x != id {
      SumWithout(jobs - {x}, id, f);
      SumWithout(jobs - {id}, x, f);
      assert jobs - {x} - {id} == jobs - {id} - {x};
    }
  }

  lemma Replaced(jobs: Table, id: JobId, j: Job, f: Job -> nat)
    requires id in jobs
    ensures Sum(jobs[id := j], f) + f(jobs[id]) == Sum(jobs, f) + f(j)
  {
    SumWithout(jobs, id, f);
    SumWithout(jobs[id := j], id, f);
    assert jobs[id := j] - {id} == jobs - {id};
  }

  lemma Inserted(jobs: Table, id: JobId, j: Job, f: Job -> nat)
    requires id !in jobs
    ensures Sum(jobs[id := j], f) == Sum(jobs, f) + f(j)
  {
    SumWithout(jobs[id := j], id, f);
    assert jobs[id := j] - {id} == jobs;
  }

  lemma {:induction false} SumAtMost(x: Table, y: Table, f: Job -> nat)
    requires x.Keys == y.Keys && forall id :: id in x ==> f(y[id]) <= f(x[id])
    ensures Sum(y, f) <= Sum(x, f)
    ensures (exists id :: id in x && f(y[id]) < f(x[id])) ==> Sum(y, f) < Sum(x, f)
    decreases |x|
  {
    if x != map[] {
      var id :| id in x && ((exists i :: i in x && f(y[i]) < f(x[i])) ==> f(y[id]) < f(x[id]));
      SumWithout(x, id, f);
      SumWithout(y, id, f);
      SumAtMost(x - {id}, y - {id}, f);
    } else {
      assert y == map[];
    }
  }

  // ---------- weights ----------

  predicate Unfinished(j: Job) { j.status == Pending || j.status == Running }

  predicate IsOpen(j: Job) {
    j.payload.Consolidation? && j.payload.scan.Some? && !j.payload.continued
  }

  /** Captures still to be decided: each may add a write, and a write may trigger a pass. */
  function Undecided(j: Job): nat { if Unfinished(j) && j.kind.CaptureJob? then 1 else 0 }

  /** Passes pinned before the latest write: finishing one may trigger another. */
  function StaleAt(writes: nat): Job -> nat {
    (j: Job) => if Unfinished(j) && IsOpen(j) && j.payload.scan.value.writes < writes then 1 else 0
  }

  function Unpinned(j: Job): nat { if Unfinished(j) && j.payload.Consolidation? && j.payload.scan.None? then 1 else 0 }

  function KeysAhead(scan: Scan): set<Key> {
    set k | k in scan.window && KeyBelow(scan.cursor, k)
  }

  /** What is left of the window as it was pinned, whatever happened to the records since. */
  function Remaining(j: Job): nat { if Unfinished(j) && IsOpen(j) then 1 + |KeysAhead(j.payload.scan.value)| else 0 }

  function AttemptsLeft(max: nat): Job -> nat {
    (j: Job) => if Unfinished(j)
      then 2 * (if j.attempts < max then max - j.attempts else 0) + (if j.status == Running then 1 else 0) else 0
  }

  function StageWeight(c: Claim): nat {
    match c.stage
    case Started => 2
    case Pinned(_) => 1
    case Planned(_) => 0
    case Drafted(_) => 0
  }

  ghost function Stages(claims: map<Token, Claim>): nat
    decreases |claims|
  {
    if claims == map[] then 0
    else
      var t :| t in claims;
      StageWeight(claims[t]) + Stages(claims - {t})
  }

  lemma {:induction false} StagesWithout(claims: map<Token, Claim>, t: Token)
    requires t in claims
    ensures Stages(claims) == StageWeight(claims[t]) + Stages(claims - {t})
    decreases |claims|
  {
    var x :| x in claims && Stages(claims) == StageWeight(claims[x]) + Stages(claims - {x});
    if x != t {
      StagesWithout(claims - {x}, t);
      StagesWithout(claims - {t}, x);
      assert claims - {x} - {t} == claims - {t} - {x};
    }
  }

  lemma StageLowered(claims: map<Token, Claim>, t: Token, c: Claim)
    requires t in claims && StageWeight(c) < StageWeight(claims[t])
    ensures Stages(claims[t := c]) < Stages(claims)
  {
    StagesWithout(claims, t);
    StagesWithout(claims[t := c], t);
    assert claims[t := c] - {t} == claims - {t};
  }

  /** Finished jobs that still carry their payload. */
  function Uncompacted(j: Job): nat { if j.status == Done && !j.payload.Compacted? then 1 else 0 }

  function SupersededRows(s: State): set<Id> {
    set id | id in s.rows && s.rows[id].memory.status == Superseded
  }

  /** What retention still has to move out of the way. */
  ghost function Bulk(a: System): nat {
    |SupersededRows(a.store)| + Sum(a.jobs, Uncompacted) + |a.events|
  }

  datatype Measure = Measure(
    undecided: nat, stale: nat, unpinned: nat, remaining: nat, attempts: nat, stages: nat, bulk: nat)

  ghost function MeasureOf(p: Policy, a: System): Measure {
    Measure(Sum(a.jobs, Undecided), Sum(a.jobs, StaleAt(a.store.writes)), Sum(a.jobs, Unpinned), Sum(a.jobs, Remaining),
            Sum(a.jobs, AttemptsLeft(p.maxAttempts)), Stages(a.claims), Bulk(a))
  }

  predicate Below6(x: Measure, y: Measure) {
    || x.undecided < y.undecided
    || (x.undecided == y.undecided &&
        (|| x.stale < y.stale
         || (x.stale == y.stale &&
             (|| x.unpinned < y.unpinned
              || (x.unpinned == y.unpinned &&
                  (|| x.remaining < y.remaining
                   || (x.remaining == y.remaining &&
                       (|| x.attempts < y.attempts
                        || (x.attempts == y.attempts && x.stages < y.stages)))))))))
  }

  /** The measure falls: in work left, or else in what retention has left. */
  predicate Falls(x: Measure, y: Measure) {
    Below6(x, y) || (x.(bulk := 0) == y.(bulk := 0) && x.bulk < y.bulk)
  }

  /** What the workers do on their own, retention in their idle time included. */
  predicate Background(step: Step) {
    match step
    case Sweep(_) => true
    case Lease(_, _, _) => true
    case PinScan(_, _) => true
    case SavePlan(_, _, _) => true
    case ApplyPlan(_, _, _, _) => true
    case OfferPlan(_, _, _) => true
    case StoreCapture(_, _, _, _, _, _) => true
    case DraftCapture(_, _, _, _, _) => true
    case OfferCapture(_, _) => true
    case GiveUp(_, _) => true
    case Compact(_) => true
    case ArchiveEvent(_) => true
    case Foreground(change, _, _) => change.Archive?
    case _ => false
  }

  // ---------- rows only losing weight ----------

  /** A row no heavier in any respect. */
  predicate NoHeavier(max: nat, x: Job, y: Job) {
    && Undecided(y) <= Undecided(x)
    && (Unfinished(y) && IsOpen(y) ==> Unfinished(x) && IsOpen(x) && y.payload.scan == x.payload.scan)
    && Unpinned(y) <= Unpinned(x)
    && AttemptsLeft(max)(y) <= AttemptsLeft(max)(x)
  }

  lemma TableNoHeavier(max: nat, writes: nat, x: Table, y: Table)
    requires x.Keys == y.Keys && forall id :: id in x ==> NoHeavier(max, x[id], y[id])
    ensures Sum(y, Undecided) <= Sum(x, Undecided) && Sum(y, StaleAt(writes)) <= Sum(x, StaleAt(writes))
    ensures Sum(y, Unpinned) <= Sum(x, Unpinned) && Sum(y, Remaining) <= Sum(x, Remaining)
    ensures Sum(y, AttemptsLeft(max)) <= Sum(x, AttemptsLeft(max))
    ensures (exists id :: id in x && AttemptsLeft(max)(y[id]) < AttemptsLeft(max)(x[id])) ==>
      Sum(y, AttemptsLeft(max)) < Sum(x, AttemptsLeft(max))
  {
    hide Sum;
    SumAtMost(x, y, Undecided);
    SumAtMost(x, y, StaleAt(writes));
    SumAtMost(x, y, Unpinned);
    SumAtMost(x, y, Remaining);
    SumAtMost(x, y, AttemptsLeft(max));
  }

  lemma SweepLowers(p: Policy, a: System, now: Time, b: System)
    requires Sweeps(p, a, now, b)
    ensures b == a || Below6(MeasureOf(p, b), MeasureOf(p, a))
  {
    hide Sum, Bulk, Stages;
    forall id | id in a.jobs ensures NoHeavier(p.maxAttempts, a.jobs[id], b.jobs[id]) { }
    TableNoHeavier(p.maxAttempts, a.store.writes, a.jobs, b.jobs);
    if b.jobs != a.jobs {
      var id :| id in a.jobs && b.jobs[id] != a.jobs[id];
      assert AttemptsLeft(p.maxAttempts)(b.jobs[id]) < AttemptsLeft(p.maxAttempts)(a.jobs[id]);
    }
  }

  lemma LeaseLowers(p: Policy, a: System, id: JobId, token: Token, now: Time, b: System)
    requires Leases(p, a, id, token, now, b)
    ensures Below6(MeasureOf(p, b), MeasureOf(p, a))
  {
    hide Sum, Bulk, Stages;
    forall x | x in a.jobs ensures NoHeavier(p.maxAttempts, a.jobs[x], b.jobs[x]) { }
    TableNoHeavier(p.maxAttempts, a.store.writes, a.jobs, b.jobs);
    assert AttemptsLeft(p.maxAttempts)(b.jobs[id]) < AttemptsLeft(p.maxAttempts)(a.jobs[id]);
  }

  lemma GiveUpLowers(p: Policy, a: System, token: Token, now: Time, b: System)
    requires Guarded(p, a) && GivesUp(p, a, token, now, b)
    ensures Below6(MeasureOf(p, b), MeasureOf(p, a))
  {
    hide Sum, Bulk, Stages, Fenced, Drafts;
    var id := JobOf(a, token);
    RowAt(p, a.jobs, a.claims, id);
    forall x | x in a.jobs ensures NoHeavier(p.maxAttempts, a.jobs[x], b.jobs[x]) { }
    TableNoHeavier(p.maxAttempts, a.store.writes, a.jobs, b.jobs);
    assert AttemptsLeft(p.maxAttempts)(b.jobs[id]) < AttemptsLeft(p.maxAttempts)(a.jobs[id]);
  }

  lemma OfferCaptureLowers(p: Policy, a: System, token: Token, now: Time, b: System)
    requires Guarded(p, a) && OffersCapture(p, a, token, now, b)
    ensures Below6(MeasureOf(p, b), MeasureOf(p, a))
  {
    hide Sum, Bulk, Stages, Fenced, Drafts;
    DraftAt(a.claims, a.jobs, token);
    Replaced(a.jobs, JobOf(a, token), b.jobs[JobOf(a, token)], Undecided);
  }

  lemma PinLowers(p: Policy, a: System, token: Token, now: Time, b: System)
    requires Pins(p, a, token, now, b)
    ensures Below6(MeasureOf(p, b), MeasureOf(p, a))
  {
    hide Sum, Bulk, Stages, WindowKeys;
    var id := JobOf(a, token);
    if a.jobs[id].payload.scan.Some? {
      assert b.jobs == a.jobs;
      StageLowered(a.claims, token, b.claims[token]);
    } else {
      Replaced(a.jobs, id, b.jobs[id], Undecided);
      Replaced(a.jobs, id, b.jobs[id], StaleAt(a.store.writes));
      Replaced(a.jobs, id, b.jobs[id], Unpinned);
    }
  }

  lemma StagesOnly(p: Policy, a: System, token: Token, c: Claim, b: System)
    requires a.jobs == b.jobs && a.store == b.store && token in a.claims
    requires b.claims == a.claims[token := c] && StageWeight(c) < StageWeight(a.claims[token])
    ensures Below6(MeasureOf(p, b), MeasureOf(p, a))
  {
    hide Sum, Bulk, Stages;
    StageLowered(a.claims, token, c);
  }

  lemma StoreLowers(p: Policy, a: System, token: Token, vector: Vector, i: Remember.Inspection,
                    d: Reconciliation.Decision, spare: JobId, now: Time, b: System)
    requires Guarded(p, a) && StoresCapture(p, a, token, vector, i, d, spare, now, b)
    ensures Below6(MeasureOf(p, b), MeasureOf(p, a))
  {
    hide Sum, Bulk, Stages, Fenced, Drafts, Persists, Permitted, DreamWaiting;
    var t :| Persists(a, token, vector, i, d, now, t) && StoresThis(p, a, token, i, d, spare, now, t, b);
    var id := JobOf(a, token);
    CapturesHold(a, token, vector, i, d, now, t);
    RowAt(p, a.jobs, a.claims, id);
    var jobs := Scheduled(a.jobs, t, p, spare, now);
    if jobs != a.jobs { Inserted(a.jobs, spare, jobs[spare], Undecided); }
    Replaced(jobs, id, b.jobs[id], Undecided);
  }

  // ---------- a scan that moves on ----------

  /** The job leaves the unfinished rows and nothing else changes. */
  lemma JobLeaves(p: Policy, writes: nat, jobs: Table, id: JobId, j: Job)
    requires id in jobs && jobs[id].status == Running && jobs[id].kind.DreamJob? && !Unfinished(j)
    ensures Sum(jobs[id := j], Undecided) == Sum(jobs, Undecided)
    ensures Sum(jobs[id := j], StaleAt(writes)) + StaleAt(writes)(jobs[id]) == Sum(jobs, StaleAt(writes))
    ensures Sum(jobs[id := j], Unpinned) <= Sum(jobs, Unpinned)
    ensures IsOpen(jobs[id]) ==> Sum(jobs[id := j], Unpinned) == Sum(jobs, Unpinned)
    ensures Sum(jobs[id := j], Remaining) + Remaining(jobs[id]) == Sum(jobs, Remaining)
    ensures Sum(jobs[id := j], AttemptsLeft(p.maxAttempts)) < Sum(jobs, AttemptsLeft(p.maxAttempts))
  {
    hide Sum, KeysAhead;
    Replaced(jobs, id, j, Undecided);
    Replaced(jobs, id, j, StaleAt(writes));
    Replaced(jobs, id, j, Unpinned);
    Replaced(jobs, id, j, Remaining);
    Replaced(jobs, id, j, AttemptsLeft(p.maxAttempts));
  }

  lemma SuccessorJoins(writes: nat, jobs: Table, spare: JobId, next: Job)
    requires spare !in jobs && next.kind.DreamJob? && IsOpen(next) && Unfinished(next)
    ensures Sum(jobs[spare := next], Undecided) == Sum(jobs, Undecided)
    ensures Sum(jobs[spare := next], StaleAt(writes)) == Sum(jobs, StaleAt(writes)) + StaleAt(writes)(next)
    ensures Sum(jobs[spare := next], Unpinned) == Sum(jobs, Unpinned)
    ensures Sum(jobs[spare := next], Remaining) == Sum(jobs, Remaining) + Remaining(next)
  {
    hide Sum, KeysAhead;
    Inserted(jobs, spare, next, Undecided);
    Inserted(jobs, spare, next, StaleAt(writes));
    Inserted(jobs, spare, next, Unpinned);
    Inserted(jobs, spare, next, Remaining);
  }

  lemma FewerAhead(scan: Scan, to: Key)
    requires KeyBelow(scan.cursor, to) && to in scan.window
    ensures |KeysAhead(scan.(cursor := to))| < |KeysAhead(scan)|
  {
    var before, after := KeysAhead(scan), KeysAhead(scan.(cursor := to));
    forall k | k in after ensures k in before { KeyTransitive(scan.cursor, to, k); }
    KeyTrichotomy(to, to);
    assert to in before && to !in after;
    assert after <= before - {to};
    SubsetSize(after, before - {to});
  }

  ghost predicate Lowers(p: Policy, writes: nat, x: Table, y: Table) {
    && Sum(y, Undecided) == Sum(x, Undecided)
    && (Sum(y, StaleAt(writes)) < Sum(x, StaleAt(writes)) ||
        (Sum(y, StaleAt(writes)) == Sum(x, StaleAt(writes)) && Sum(y, Unpinned) <= Sum(x, Unpinned) &&
         (Sum(y, Remaining) < Sum(x, Remaining) ||
          (Sum(y, Remaining) == Sum(x, Remaining)
            && Sum(y, AttemptsLeft(p.maxAttempts)) < Sum(x, AttemptsLeft(p.maxAttempts))))))
  }

  /** More to scan means the batch was not empty, so the successor's window is smaller. */
  lemma MoreMeansMoved(plan: Plan, s: State, t: State, size: nat)
    requires PlanOk(plan, s, size) && Store.Later(s, t) && size > 0 && More(t, plan.scan.end, plan.cursor)
    ensures KeyBelow(plan.scan.cursor, plan.cursor) && plan.cursor in plan.scan.window
  {
    hide Inv, WindowKeys, FirstKeys;
    PlanCursorMoves(plan, s, size);
    if plan.batch == [] {
      LaterTransitive(plan.basis, s, t);
      WindowShrinks(plan.basis, t, plan.scan.cursor, plan.scan.end);
      FirstKeysIsSegment(WindowKeys(plan.basis, plan.scan.cursor, plan.scan.end), size);
    }
  }

  lemma ContinuationLowers(p: Policy, jobs: Table, id: JobId, left: Job, next: Job, spare: JobId, scan: Scan, to: Key,
                           writes: nat)
    requires id in jobs && spare !in jobs && jobs[id].status == Running && jobs[id].kind.DreamJob? && !Unfinished(left)
    requires jobs[id].payload == Consolidation(Some(scan), false)
    requires next.kind.DreamJob? && next.status == Pending
      && next.payload == Consolidation(Some(scan.(cursor := to)), false)
    requires KeyBelow(scan.cursor, to) && to in scan.window
    ensures Lowers(p, writes, jobs, jobs[id := left][spare := next])
  {
    hide Sum;
    JobLeaves(p, writes, jobs, id, left);
    SuccessorJoins(writes, jobs[id := left], spare, next);
    FewerAhead(scan, to);
  }

  /** A finished pass accounts for the writes it was pinned at; if no write came later, nothing is scheduled. */
  lemma LastLowers(p: Policy, jobs: Table, id: JobId, left: Job, spare: JobId, scan: Scan, s: State, now: Time)
    requires ValidPolicy(p) && id in jobs && spare !in jobs && jobs[id].status == Running && jobs[id].kind.DreamJob?
      && !Unfinished(left)
    requires jobs[id].payload == Consolidation(Some(scan), false) && s.dreamWrites >= scan.writes
    ensures Lowers(p, s.writes, jobs, Scheduled(jobs[id := left], s, p, spare, now))
  {
    hide Sum, DreamWaiting, KeysAhead;
    JobLeaves(p, s.writes, jobs, id, left);
    var rest := jobs[id := left];
    var next := Scheduled(rest, s, p, spare, now);
    if next != rest {
      Inserted(rest, spare, next[spare], Undecided);
      Inserted(rest, spare, next[spare], StaleAt(s.writes));
    }
  }

  lemma AdvanceLowers(p: Policy, jobs: Table, id: JobId, status: JobStatus, result: JobResult, plan: Plan, s: State,
                      t: State, spare: JobId, now: Time)
    requires ValidPolicy(p) && id in jobs && spare !in jobs && jobs[id].status == Running && jobs[id].kind.DreamJob?
    requires (status == Done || status == Proposed) && Fits(jobs[id], plan)
    requires PlanOk(plan, s, p.batchSize) && Store.Later(s, t) && s.writes == t.writes
    ensures
      var next := Advanced(jobs[id := Finished(jobs[id], status, result)], t, id, plan.cursor, p, spare, now);
      next.store.writes == t.writes && Lowers(p, t.writes, jobs, next.jobs)
  {
    hide Sum, Inv, Store.Later, PlanOk, WindowKeys, Scheduled, KeysAhead, Lowers;
    var finished := jobs[id := Finished(jobs[id], status, result)];
    var payload := jobs[id].payload;
    if payload.continued {
      LeavingLowers(p, t.writes, jobs, id, finished[id]);
    } else {
      var scan := plan.scan;
      var left := finished[id].(payload := payload.(continued := true));
      var s1 := t.(cursor := Further(t.cursor, plan.cursor),
                   dreamWrites := if More(t, scan.end, plan.cursor) then t.dreamWrites
                     else Max(t.dreamWrites, scan.writes));
      if More(t, scan.end, plan.cursor) {
        MoreMeansMoved(plan, s, t, p.batchSize);
        var next := Fresh(DreamJob, None, Consolidation(Some(scan.(cursor := plan.cursor)), false), now);
        ContinuationLowers(p, jobs, id, left, next, spare, scan, plan.cursor, t.writes);
        assert finished[spare := next][id := left] == jobs[id := left][spare := next];
      } else {
        LastLowers(p, jobs, id, left, spare, scan, s1, now);
        assert finished[id := left] == jobs[id := left];
      }
      ScheduledKeepsStore(s1, t);
    }
  }

  /** A finished pass with no write after its pin leaves no new job behind: dreaming counts no write, so it cannot wake
      itself. */
  lemma FinishedPassStaysQuiet(p: Policy, jobs: Table, id: JobId, s: State, cursor: Key, spare: JobId, now: Time)
    requires ValidPolicy(p) && id in jobs && IsOpen(jobs[id]) && jobs[id].payload.scan.value.writes == s.writes
    requires !More(s, jobs[id].payload.scan.value.end, cursor)
    ensures
      var next := Advanced(jobs, s, id, cursor, p, spare, now);
      next.jobs.Keys == jobs.Keys && next.store.dreamWrites >= next.store.writes
  {
    hide More, DreamWaiting;
  }

  lemma ScheduledKeepsStore(s: State, t: State)
    requires s == t.(cursor := s.cursor, dreamWrites := s.dreamWrites)
    ensures s.writes == t.writes
  {
  }

  lemma LeavingLowers(p: Policy, writes: nat, jobs: Table, id: JobId, j: Job)
    requires id in jobs && jobs[id].status == Running && jobs[id].kind.DreamJob? && !Unfinished(j)
    requires jobs[id].payload.Consolidation? && jobs[id].payload.continued
    ensures Lowers(p, writes, jobs, jobs[id := j])
  {
    hide Sum, KeysAhead;
    JobLeaves(p, writes, jobs, id, j);
  }

  lemma LoweredMeasure(p: Policy, a: System, b: System)
    requires Lowers(p, a.store.writes, a.jobs, b.jobs) && a.store.writes == b.store.writes
    ensures Below6(MeasureOf(p, b), MeasureOf(p, a))
  {
    hide Sum, Bulk, Stages;
  }

  lemma ApplyLowers(p: Policy, a: System, token: Token, vectors: seq<Vector>, spare: JobId, now: Time, b: System)
    requires ValidPolicy(p) && Guarded(p, a) && Reads(p, a) && AppliesPlan(p, a, token, vectors, spare, now, b)
    ensures Below6(MeasureOf(p, b), MeasureOf(p, a))
  {
    hide Fenced, Drafts, Inv, PlansOk, RowsRead, ClaimsRead, Advanced, Dream.ApplyPlan, Applies, LogEntry, PlanOk,
         Lowers, Store.Later, Sum, MeasureOf;
    var id :| AppliesThis(p, a, token, id, vectors, spare, now, b);
    var plan := a.plans[id];
    var job := JobOf(a, token);
    PlannerFits(p, a, token, now, id);
    PlanAt(a.plans, a.store, p.batchSize, id);
    ApplyStore(plan, a.store, p.batchSize, vectors, now);
    var t := Dream.ApplyPlan(a.store, plan.groups, plan.changes, vectors, now).value;
    RowAt(p, a.jobs, a.claims, job);
    assert a.jobs[job].kind.DreamJob?;
    AdvanceLowers(p, a.jobs, job, Done, Consolidated(id), plan, a.store, t, spare, now);
    LoweredMeasure(p, a, b);
  }

  lemma OfferLowers(p: Policy, a: System, token: Token, spare: JobId, now: Time, b: System)
    requires ValidPolicy(p) && Guarded(p, a) && Reads(p, a) && OffersPlan(p, a, token, spare, now, b)
    ensures Below6(MeasureOf(p, b), MeasureOf(p, a))
  {
    hide Fenced, Drafts, Inv, PlansOk, RowsRead, ClaimsRead, Advanced, Applies, LogEntry, PlanOk, Lowers, Store.Later,
         Sum, Automatic, MeasureOf;
    var id := a.claims[token].stage.plan;
    var plan := a.plans[id];
    var job := JobOf(a, token);
    PlannerFits(p, a, token, now, id);
    PlanAt(a.plans, a.store, p.batchSize, id);
    LaterReflexive(a.store);
    DraftAt(a.claims, a.jobs, token);
    AdvanceLowers(p, a.jobs, job, Proposed, PlanOffered(id, plan.generation, false), plan, a.store, a.store, spare,
      now);
    LoweredMeasure(p, a, b);
  }

  /** Every background step that changes anything lowers the measure: captures are decided, then passes pinned before
      the last write run out, then unpinned passes are pinned, then windows shrink, then attempts run out. */
  lemma BackgroundStepsLower(p: Policy, a: System, step: Step, b: System)
    requires ValidPolicy(p) && Guarded(p, a) && Reads(p, a) && Background(step) && Transition(p, a, step, b)
    ensures b == a || Falls(MeasureOf(p, b), MeasureOf(p, a))
  {
    hide Foregrounds, Compacts, Archives;
    hide Guarded, Reads, Sweeps, Leases, Pins, AppliesPlan, OffersPlan, StoresCapture, OffersCapture, GivesUp,
        MeasureOf, Below6;
    hide Persists, Permitted, IsPlan;
    match step
    case Sweep(now) => SweepLowers(p, a, now, b);
    case Lease(id, token, now) => LeaseLowers(p, a, id, token, now, b);
    case PinScan(token, now) => PinLowers(p, a, token, now, b);
    case SavePlan(token, id, plan) =>
      StagesOnly(p, a.(plans := b.plans), token, a.claims[token].(stage := Planned(id)), b);
      SamePlans(p, a, b.plans);
    case ApplyPlan(token, vectors, spare, now) => ApplyLowers(p, a, token, vectors, spare, now, b);
    case OfferPlan(token, spare, now) => OfferLowers(p, a, token, spare, now, b);
    case StoreCapture(token, vector, i, d, spare, now) => StoreLowers(p, a, token, vector, i, d, spare, now, b);
    case DraftCapture(token, vector, i, d, now) => DraftLowers(p, a, token, vector, i, d, now, b);
    case OfferCapture(token, now) => OfferCaptureLowers(p, a, token, now, b);
    case GiveUp(token, now) => GiveUpLowers(p, a, token, now, b);
    case Compact(id) => CompactLowers(p, a, id, b);
    case ArchiveEvent(key) => ArchiveEventLowers(p, a, key, b);
    case Foreground(change, spare, now) => ArchiveLowers(p, a, change, spare, now, b);
  }

  // ---------- retention ----------

  lemma CompactLowers(p: Policy, a: System, id: JobId, b: System)
    requires Compacts(a, id, b)
    ensures b == a || Falls(MeasureOf(p, b), MeasureOf(p, a))
  {
    hide Sum, Stages, KeysAhead;
    Replaced(a.jobs, id, b.jobs[id], Undecided);
    Replaced(a.jobs, id, b.jobs[id], StaleAt(a.store.writes));
    Replaced(a.jobs, id, b.jobs[id], Unpinned);
    Replaced(a.jobs, id, b.jobs[id], Remaining);
    Replaced(a.jobs, id, b.jobs[id], AttemptsLeft(p.maxAttempts));
    Replaced(a.jobs, id, b.jobs[id], Uncompacted);
    if a.jobs[id].payload.Compacted? { assert b.jobs == a.jobs; }
  }

  lemma ArchiveEventLowers(p: Policy, a: System, key: EventKey, b: System)
    requires Archives(a, key, b)
    ensures Falls(MeasureOf(p, b), MeasureOf(p, a))
  {
    hide Sum, Stages;
  }

  lemma PageLowers(s: State, cutoff: int, limit: nat)
    ensures Runs.ArchivePage(s, cutoff, limit).writes == s.writes
    ensures Runs.ArchivePage(s, cutoff, limit) == s
         || |SupersededRows(Runs.ArchivePage(s, cutoff, limit))| < |SupersededRows(s)|
  {
    hide FirstKeys, Runs.Expired;
    var page := FirstKeys(Runs.Expired(s, cutoff), limit);
    if page != [] {
      Runs.PageRows(s, cutoff, limit);
      assert page[0].id in Runs.Ids(page);
      var left := SupersededRows(Runs.ArchivePage(s, cutoff, limit));
      assert left <= SupersededRows(s) - {page[0].id};
      SubsetSize(left, SupersededRows(s) - {page[0].id});
    }
  }

  lemma ArchiveLowers(p: Policy, a: System, e: Runs.Event, spare: JobId, now: Time, b: System)
    requires Foregrounds(p, a, e, spare, now, b) && e.Archive?
    ensures b == a || Falls(MeasureOf(p, b), MeasureOf(p, a))
  {
    hide Sum, Stages, SupersededRows, Runs.ArchivePage;
    PageLowers(a.store, e.cutoff, e.limit);
  }

  lemma SamePlans(p: Policy, a: System, plans: map<PlanId, Plan>)
    ensures MeasureOf(p, a.(plans := plans)) == MeasureOf(p, a)
  {
  }

  lemma DraftLowers(p: Policy, a: System, token: Token, vector: Vector, i: Remember.Inspection,
                    d: Reconciliation.Decision, now: Time, b: System)
    requires DraftsCapture(p, a, token, vector, i, d, now, b)
    ensures Below6(MeasureOf(p, b), MeasureOf(p, a))
  {
    hide Remember.Persist, Remember.Inspects, Remember.Decides, Permitted, MemoryOf, MeasureOf, Below6;
    assert a.claims[token].stage.Started?;
    StagesOnly(p, a, token, b.claims[token], b);
  }

  // ---------- runs of background steps end ----------

  lemma BackgroundKeeps(p: Policy, a: System, step: Step, b: System)
    requires ValidPolicy(p) && Guarded(p, a) && Reads(p, a) && Transition(p, a, step, b)
    ensures Guarded(p, b) && Reads(p, b)
  {
    hide Guarded, Reads, Transition, Fencing.Kept, Follows;
    StepKeeps(p, a, step, b);
    KeptGrows(p, a, b);
    StepFollows(p, a, step, b);
    FollowsReads(p, a, b);
  }

  /** Workers moving on their own, each step changing something. */
  ghost predicate Drains(p: Policy, systems: seq<System>, steps: seq<Step>) {
    && |systems| == |steps| + 1
    && forall i :: 0 <= i < |steps| ==>
      Background(steps[i]) && Transition(p, systems[i], steps[i], systems[i + 1]) && systems[i + 1] != systems[i]
  }

  /** Along any run of background steps the measure only falls: no state recurs, and consolidation cannot re-trigger
      itself for ever. */
  lemma {:induction false} BackgroundRunsFall(p: Policy, systems: seq<System>, steps: seq<Step>, i: nat, k: nat)
    requires ValidPolicy(p) && Drains(p, systems, steps) && i < k < |systems| && Guarded(p, systems[0])
      && Reads(p, systems[0])
    ensures Guarded(p, systems[k]) && Reads(p, systems[k])
    ensures Falls(MeasureOf(p, systems[k]), MeasureOf(p, systems[i]))
    decreases k
  {
    hide Guarded, Reads, Transition, Background, MeasureOf;
    if k == 1 {
      BackgroundStepsLower(p, systems[0], steps[0], systems[1]);
      BackgroundKeeps(p, systems[0], steps[0], systems[1]);
    } else if i < k - 1 {
      BackgroundRunsFall(p, systems, steps, i, k - 1);
      BackgroundStepsLower(p, systems[k - 1], steps[k - 1], systems[k]);
      BackgroundKeeps(p, systems[k - 1], steps[k - 1], systems[k]);
    } else {
      BackgroundRunsFall(p, systems, steps, 0, k - 1);
      BackgroundStepsLower(p, systems[k - 1], steps[k - 1], systems[k]);
      BackgroundKeeps(p, systems[k - 1], steps[k - 1], systems[k]);
    }
  }

  /** There is no infinite run of background steps. */
  lemma {:induction false} QueuesDrain(p: Policy, systems: nat -> System, steps: nat -> Step, i: nat)
    requires ValidPolicy(p) && Guarded(p, systems(i)) && Reads(p, systems(i))
    requires forall k: nat ::
      k >= i ==>
        && Background(steps(k)) && Transition(p, systems(k), steps(k), systems(k + 1))
        && systems(k + 1) != systems(k)
    ensures false
    decreases MeasureOf(p, systems(i)).undecided, MeasureOf(p, systems(i)).stale, MeasureOf(p, systems(i)).unpinned,
              MeasureOf(p, systems(i)).remaining, MeasureOf(p, systems(i)).attempts, MeasureOf(p, systems(i)).stages,
                MeasureOf(p, systems(i)).bulk
  {
    hide Guarded, Reads, Transition, Background, MeasureOf;
    BackgroundStepsLower(p, systems(i), steps(i), systems(i + 1));
    BackgroundKeeps(p, systems(i), steps(i), systems(i + 1));
    QueuesDrain(p, systems, steps, i + 1);
  }

  // ---------- and they end with nothing left to do ----------

  lemma {:induction false} ClockBeyond(jobs: Table) returns (now: Time)
    ensures forall id :: id in jobs ==>
      jobs[id].available <= now && (jobs[id].lease.Some? ==> jobs[id].lease.value <= now)
    decreases |jobs|
  {
    if jobs == map[] { return 0; }
    var id :| id in jobs;
    var rest := jobs - {id};
    now := ClockBeyond(rest);
    assert forall x :: x in jobs && x != id ==> x in rest && rest[x] == jobs[x];
    if now < jobs[id].available { now := jobs[id].available; }
    if jobs[id].lease.Some? && now < jobs[id].lease.value { now := jobs[id].lease.value; }
  }

  lemma {:induction false} LongToken(used: set<Token>) returns (token: Token)
    ensures forall t :: t in used ==> |t| < |token|
  {
    if used == {} { return ""; }
    var t :| t in used;
    token := LongToken(used - {t});
    if |token| <= |t| { token := t + ['+']; }
  }

  /** No background step changes anything any more. */
  ghost predicate AtRest(p: Policy, a: System) {
    forall step, b :: Background(step) && Transition(p, a, step, b) ==> b == a
  }

  /** A pending or running job can be taken up: once leases and waiting times have run out, a worker either fails what
      is exhausted or leases the first ready job. */
  lemma WorkIsTakenUp(p: Policy, a: System, id: JobId) returns (step: Step, b: System)
    requires Guarded(p, a) && id in a.jobs && Unfinished(a.jobs[id])
    ensures (step.Sweep? || step.Lease?) && Transition(p, a, step, b) && b != a
  {
    hide Fenced, Drafts;
    var now := ClockBeyond(a.jobs);
    var swept := Swept(a.jobs, now, p.maxAttempts);
    if swept != a.jobs {
      step, b := Sweep(now), a.(jobs := swept);
    } else {
      RowAt(p, a.jobs, a.claims, id);
      assert !Exhausted(a.jobs[id], now, p.maxAttempts) by { assert swept[id] == a.jobs[id]; }
      FirstReadyExists(swept, now, p.maxAttempts, id);
      var first :| FirstReady(swept, now, p.maxAttempts, first);
      var token := LongToken(a.claims.Keys);
      step := Lease(first, token, now);
      b := a.(jobs := swept[first := Leased(swept[first], token, now, p)],
              claims := a.claims[token := Claim(first, swept[first].attempts + 1, swept[first].result, Started)]);
    }
  }

  /** A system at rest has no pending or running job, no finished job with a payload and no superseded row among the
      live. */
  lemma RestIsDrained(p: Policy, a: System)
    requires Guarded(p, a) && Reads(p, a) && AtRest(p, a)
    ensures forall id :: id in a.jobs ==> !Unfinished(a.jobs[id]) && Uncompacted(a.jobs[id]) == 0
    ensures SupersededRows(a.store) == {}
  {
    hide Guarded, Reads;
    forall id | id in a.jobs ensures !Unfinished(a.jobs[id]) && Uncompacted(a.jobs[id]) == 0 {
      if Unfinished(a.jobs[id]) {
        var step, b := WorkIsTakenUp(p, a, id);
      } else if Uncompacted(a.jobs[id]) > 0 {
        PayloadsGo(p, a, id);
      }
    }
    if id :| id in SupersededRows(a.store) { RowsGo(p, a, id); }
  }

  lemma PayloadsGo(p: Policy, a: System, id: JobId)
    requires id in a.jobs && Uncompacted(a.jobs[id]) > 0
    ensures !AtRest(p, a)
  {
    var b := a.(jobs := a.jobs[id := a.jobs[id].(payload := Compacted)]);
    assert Transition(p, a, Compact(id), b);
    assert b.jobs[id] != a.jobs[id];
  }

  lemma RowsGo(p: Policy, a: System, id: Id)
    requires Reads(p, a) && id in SupersededRows(a.store)
    ensures !AtRest(p, a)
  {
    hide Runs.ArchivePage, Reads, Keyed;
    var cutoff := a.store.rows[id].memory.updatedAt + 1;
    PageChanges(a.store, cutoff, id);
    var spare := LongToken(a.jobs.Keys);
    var b := a.(store := Runs.ArchivePage(a.store, cutoff, 1));
    KeyedStore(p, a);
    assert Foregrounds(p, a, Runs.Archive(cutoff, 1), spare, 0, b);
    assert Transition(p, a, Foreground(Runs.Archive(cutoff, 1), spare, 0), b);
  }

  lemma PageChanges(s: State, cutoff: int, id: Id)
    requires id in SupersededRows(s) && s.rows[id].memory.updatedAt < cutoff
    ensures Runs.ArchivePage(s, cutoff, 1) != s
  {
    hide FirstKeys;
    assert Key(s.rows[id].generation, id) in Runs.Expired(s, cutoff);
    FirstKeysIsSegment(Runs.Expired(s, cutoff), 1);
    assert Runs.ArchivePage(s, cutoff, 1).generation == s.generation + 1;
  }

  lemma KeyedStore(p: Policy, a: System)
    requires Reads(p, a)
    ensures Keyed(a.store)
  {
    hide PlansOk, RowsRead, ClaimsRead;
    InvParts(a.store);
  }

  lemma Prepended(p: Policy, a: System, step: Step, systems: seq<System>, steps: seq<Step>)
    requires Drains(p, systems, steps) && Background(step) && Transition(p, a, step, systems[0]) && systems[0] != a
    ensures Drains(p, [a] + systems, [step] + steps)
  {
    hide Transition, Background;
    var s, t := [a] + systems, [step] + steps;
    forall i | 0 <= i < |t| ensures Background(t[i]) && Transition(p, s[i], t[i], s[i + 1]) && s[i + 1] != s[i] {
      if i > 0 { assert s[i] == systems[i - 1] && t[i] == steps[i - 1] && s[i + 1] == systems[i]; }
    }
  }

  /** Left alone, the workers reach a state of rest from every state, and it is drained. */
  lemma {:induction false} WorkersComeToRest(p: Policy, a: System) returns (systems: seq<System>, steps: seq<Step>)
    requires ValidPolicy(p) && Guarded(p, a) && Reads(p, a)
    ensures Drains(p, systems, steps) && systems[0] == a && AtRest(p, systems[|steps|])
    ensures
      var last := systems[|steps|];
      && (forall id :: id in last.jobs ==> !Unfinished(last.jobs[id]) && Uncompacted(last.jobs[id]) == 0)
      && SupersededRows(last.store) == {}
    decreases MeasureOf(p, a).undecided, MeasureOf(p, a).stale, MeasureOf(p, a).unpinned, MeasureOf(p, a).remaining,
              MeasureOf(p, a).attempts, MeasureOf(p, a).stages, MeasureOf(p, a).bulk
  {
    hide Guarded, Reads, Transition, Background, MeasureOf, AtRest, SupersededRows, Unfinished, Uncompacted;
    if AtRest(p, a) {
      systems, steps := [a], [];
      RestIsDrained(p, a);
    } else {
      var step, b := Unrest(p, a);
      BackgroundStepsLower(p, a, step, b);
      BackgroundKeeps(p, a, step, b);
      systems, steps := WorkersComeToRest(p, b);
      Prepended(p, a, step, systems, steps);
      assert ([a] + systems)[|steps| + 1] == systems[|steps|];
      systems, steps := [a] + systems, [step] + steps;
    }
  }

  lemma Unrest(p: Policy, a: System) returns (step: Step, b: System)
    requires !AtRest(p, a)
    ensures Background(step) && Transition(p, a, step, b) && b != a
  {
    hide Transition, Background;
    step, b :| Background(step) && Transition(p, a, step, b) && b != a;
  }
}
