/** When things happen: how long a lease lasts, how long a retry waits, when a dream becomes due
    (`memory_core/runtime/queue.py`, `memory_core/runtime/dreams.py`). */
module Pacing {
  import opened Types
  import opened Ordering
  import opened Store
  import opened Jobs
  import opened Protocol
  import opened Fencing
  import opened Counting
  import Effects
  import Reviews
  import Dream
  import Reconciliation
  import Remember
  import Runs

  // ---------- leases ----------

  /** A lease is held from its step on for exactly the lease time, and each one counts as an attempt. */
  lemma LeaseLasts(p: Policy, a: System, step: Step, b: System)
    requires Transition(p, a, step, b) && step.Lease?
    ensures step.job in a.jobs && step.job in b.jobs && b.jobs[step.job].attempts == a.jobs[step.job].attempts + 1
    ensures b.jobs[step.job].attempts <= p.maxAttempts
    ensures forall t :: Holding(b, step.token, t) <==> t < step.now + p.leaseSeconds
  {
  }

  /** A job is leased only while attempts remain, and only when it waits and is due, or when the lease it was under has
      run out: nobody holds it then. */
  lemma LeaseNeverStolen(p: Policy, a: System, step: Step, b: System)
    requires Transition(p, a, step, b) && step.Lease?
    ensures step.job in a.jobs && a.jobs[step.job].attempts < p.maxAttempts
    ensures
      var j := a.jobs[step.job];
      (j.status == Pending && j.available <= step.now)
      || (j.status == Running && j.lease.Some? && j.lease.value <= step.now)
    ensures forall t, now :: Holding(a, t, now) && JobOf(a, t) == step.job ==> now < step.now
    ensures step.token !in a.claims
  {
    hide FirstReady;
    assert Ready(Swept(a.jobs, step.now, p.maxAttempts)[step.job], step.now, p.maxAttempts) by {
      FirstIsReady(p, a, step, b);
    }
  }

  lemma FirstIsReady(p: Policy, a: System, step: Step, b: System)
    requires Transition(p, a, step, b) && step.Lease?
    ensures
      var swept := Swept(a.jobs, step.now, p.maxAttempts);
      step.job in swept && Ready(swept[step.job], step.now, p.maxAttempts)
  {
  }

  /** Waiting jobs are taken in the order in which they become due, and by id when they become due together. */
  lemma SoonestIsTaken(p: Policy, a: System, step: Step, b: System, other: JobId)
    requires Transition(p, a, step, b) && step.Lease? && other in a.jobs && other != step.job
    requires a.jobs[other].status == Pending && a.jobs[other].available <= step.now
      && a.jobs[other].attempts < p.maxAttempts
    ensures step.job in a.jobs
    ensures
      var x, y := a.jobs[step.job].available, a.jobs[other].available;
      x < y || (x == y && Below(step.job, other))
  {
    var swept := Swept(a.jobs, step.now, p.maxAttempts);
    assert Ready(swept[other], step.now, p.maxAttempts);
  }

  /** Sweeping fails exactly the running jobs whose last lease has run out. */
  lemma SweepFailsTheExhausted(p: Policy, a: System, now: Time, b: System, id: JobId)
    requires Transition(p, a, Sweep(now), b) && id in a.jobs
    ensures id in b.jobs
    ensures
      var x, y := a.jobs[id], b.jobs[id];
      if x.status == Running && x.lease.Some? && x.lease.value <= now && x.attempts >= p.maxAttempts
      then y == x.(status := Failed, token := None)
      else y == x
  {
  }

  /** While a lease lasts, neither sweeping nor another claim touches its job. */
  lemma HeldUntilItRunsOut(p: Policy, a: System, step: Step, b: System, token: Token)
    requires Transition(p, a, step, b) && (step.Sweep? || step.Lease?) && Holding(a, token, step.now)
    ensures JobOf(a, token) in b.jobs && b.jobs[JobOf(a, token)] == a.jobs[JobOf(a, token)]
    ensures Holding(b, token, step.now) && JobOf(b, token) == JobOf(a, token)
  {
    if step.Lease? { LeaseNeverStolen(p, a, step, b); }
  }

  // ---------- retries ----------

  /** The wait doubles with every attempt up to an hour. */
  lemma BackoffDoubles(p: Policy, attempts: nat)
    ensures Backoff(p, 1) == Min(3600, p.retrySeconds)
    ensures attempts >= 1 ==> Backoff(p, attempts + 1) == Min(3600, 2 * Backoff(p, attempts))
  {
    if attempts >= 1 {
      var n := p.retrySeconds * Power2(attempts - 1);
      assert p.retrySeconds * Power2(attempts) == 2 * n by { Twice(p.retrySeconds, Power2(attempts - 1)); }
    }
  }

  lemma Twice(k: nat, x: nat)
    ensures k * (2 * x) == 2 * (k * x)
  {
  }

  /** Below the cap every retry waits strictly longer than the last. */
  lemma BackoffGrowsStrictly(p: Policy, attempts: nat)
    requires attempts >= 1 && p.retrySeconds >= 1 && Backoff(p, attempts) < 3600
    ensures Backoff(p, attempts) < Backoff(p, attempts + 1)
  {
    BackoffDoubles(p, attempts);
    PowersGrow(0, attempts - 1);
    Multiplied(p.retrySeconds, 1, Power2(attempts - 1));
  }

  /** A worker that gives up under its lease leaves its job failed when it was the last attempt, and otherwise pending
      until the wait is over; whatever was proposed is dropped. */
  lemma RetryWaits(p: Policy, a: System, step: Step, b: System)
    requires Transition(p, a, step, b) && step.GiveUp?
    ensures step.token in a.claims && JobOf(a, step.token) in a.jobs && JobOf(a, step.token) in b.jobs
    ensures
      var id, n := JobOf(a, step.token), a.claims[step.token].attempts;
      && b == a.(jobs := a.jobs[id := b.jobs[id]])
      && b.jobs[id] == a.jobs[id].(status :=
        if n >= p.maxAttempts then Failed else Pending, result := Blank, token := None,
           lease := None, available := step.now + Backoff(p, n))
  {
  }

  /** A retry by hand starts a failed, proposed or rejected job over. */
  lemma RetryStartsOver(p: Policy, a: System, step: Step, b: System)
    requires Transition(p, a, step, b) && step.Retry?
    ensures step.job in a.jobs && a.jobs[step.job].status in {Failed, Proposed, Rejected} && step.job in b.jobs
    ensures b == a.(jobs := a.jobs[step.job := b.jobs[step.job]])
    ensures
      var j := b.jobs[step.job];
      && j == Job(j.kind, j.task, j.payload, Pending, 0, 0, None, None, Blank)
      && j.kind == a.jobs[step.job].kind && j.task == a.jobs[step.job].task && j.payload == a.jobs[step.job].payload
  {
  }

  // ---------- acknowledgements ----------

  /** A worker's last step ends its lease and leaves the outcome: what was stored, or the proposal as it was computed,
      not approved. */
  lemma CaptureEnds(p: Policy, a: System, step: Step, b: System)
    requires Transition(p, a, step, b) && (step.StoreCapture? || step.OfferCapture?)
    ensures Holding(a, step.token, step.now) && JobOf(a, step.token) in b.jobs
    ensures step.OfferCapture? ==> a.claims[step.token].stage.Drafted?
    ensures
      var id := JobOf(a, step.token);
      var outcome :=
        if step.OfferCapture? then a.claims[step.token].stage.proposal
        else Stored(if step.decision.Attach? then step.decision.target else step.inspection.memory.id);
      b.jobs[id] == a.jobs[id].(status :=
        if step.StoreCapture? then Done else Proposed, result := outcome, token := None,
        lease := None)
  {
    hide Persists, Permitted, DreamWaiting;
    if step.StoreCapture? {
      var t :| Persists(a, step.token, step.vector, step.inspection, step.decision, step.now, t)
            && StoresThis(p, a, step.token, step.inspection, step.decision, step.spare, step.now, t, b);
    }
  }

  /** The same for a dream: the plan applied, or the plan offered at the generation it was computed at. */
  lemma DreamEnds(p: Policy, a: System, step: Step, b: System)
    requires Transition(p, a, step, b) && (step.ApplyPlan? || step.OfferPlan?)
    ensures Holding(a, step.token, step.now) && JobOf(a, step.token) in b.jobs
    ensures
      var x, y := a.jobs[JobOf(a, step.token)], b.jobs[JobOf(a, step.token)];
      && y == x.(status := y.status, result := y.result, token := None, lease := None, payload := y.payload)
      && (y.payload == x.payload || (x.payload.Consolidation? && y.payload == x.payload.(continued := true)))
      && if step.ApplyPlan? then
           && y.status == Done && y.result.Consolidated? && y.result.plan in a.plans && y.result.plan in b.plans
           && !a.plans[y.result.plan].applied && b.plans[y.result.plan].applied
         else
           && y.status == Proposed && y.result.PlanOffered? && !y.result.approved && y.result.plan in a.plans
           && a.plans[y.result.plan].generation == y.result.generation
           && a.claims[step.token].stage == Planned(y.result.plan)
  {
    hide Automatic, Applies, Dream.ApplyPlan, Keyed, LogEntry, Advanced;
    var job := JobOf(a, step.token);
    if step.ApplyPlan? {
      var id :| AppliesThis(p, a, step.token, id, step.vectors, step.spare, step.now, b);
      AdvancedRow(a.jobs[job := Finished(a.jobs[job], Done, Consolidated(id))],
        Dream.ApplyPlan(a.store, a.plans[id].groups, a.plans[id].changes, step.vectors, step.now).value, job,
        a.plans[id].cursor, p, step.spare, step.now);
    } else {
      var plan := a.claims[step.token].stage.plan;
      AdvancedRow(a.jobs[job := Finished(a.jobs[job], Proposed, PlanOffered(plan, a.plans[plan].generation, false))],
        a.store,
        job, a.plans[plan].cursor, p, step.spare, step.now);
    }
  }

  lemma AdvancedRow(jobs: Table, s: State, id: JobId, cursor: Key, p: Policy, spare: JobId, now: Time)
    requires id in jobs && spare !in jobs
    ensures
      var t := Advanced(jobs, s, id, cursor, p, spare, now).jobs;
      && id in t
      && (t[id] == jobs[id]
          || (jobs[id].payload.Consolidation? && t[id] == jobs[id].(payload := jobs[id].payload.(continued := true))))
  {
    hide More, DreamWaiting;
  }

  // ---------- captures ----------

  /** A new event makes one job, ready at once, that carries exactly the report. */
  lemma CaptureIsDue(p: Policy, a: System, step: Step, b: System)
    requires Transition(p, a, step, b) && step.Capture?
    ensures step.job !in a.jobs && b.store == a.store && b.jobs.Keys == a.jobs.Keys + {step.job}
    ensures forall id :: id in a.jobs ==> b.jobs[id] == a.jobs[id]
    ensures
      var j := b.jobs[step.job];
      && j.kind == CaptureJob && j.task == Some(step.task) && j.payload == Evidence(step.report)
      && j.status == Pending && j.attempts == 0 && j.available == step.now && j.result == Blank
      && j.lease == None && j.token == None
    ensures b.events.Keys == a.events.Keys + {(step.task, step.event)}
    ensures b.events[(step.task, step.event)].job == step.job
  {
  }

  // ---------- dreams ----------

  /** Some dream job waits or runs. */
  predicate DreamDue(jobs: Table) {
    exists id :: id in jobs && jobs[id].kind == DreamJob && (jobs[id].status == Pending || jobs[id].status == Running)
  }

  /** `due` is a dream job of its own, waiting at once, that pins its window when it runs. */
  predicate NewDream(j: Job, now: Time) {
    && j.kind == DreamJob && j.task == None && j.payload == Consolidation(None, false) && j.status == Pending
    && j.attempts == 0 && j.available == now && j.result == Blank && j.lease == None && j.token == None
  }

  /** The trigger: when enough was written since the last pass, some dream job waits or runs afterwards; a new one is
      made only then, and only if none did. */
  lemma TriggerMeaning(jobs: Table, s: State, p: Policy, spare: JobId, now: Time)
    requires spare !in jobs
    ensures
      var t, pressed := Scheduled(jobs, s, p, spare, now), s.writes - s.dreamWrites >= p.dreamAfterWrites;
      && (pressed ==> DreamDue(t))
      && (forall id :: id in jobs ==> id in t && t[id] == jobs[id])
      && (forall id :: id in t && id !in jobs ==> id == spare && pressed && !DreamDue(jobs) && NewDream(t[id], now))
  {
    var t := Scheduled(jobs, s, p, spare, now);
    if s.writes - s.dreamWrites >= p.dreamAfterWrites {
      if DreamWaiting(jobs) {
        var id :| id in jobs && jobs[id].kind == DreamJob && (jobs[id].status == Pending || jobs[id].status == Running);
        assert id in t && t[id] == jobs[id];
      } else {
        assert t[spare].kind == DreamJob;
      }
    }
  }

  lemma FinishingKeepsDue(x: Table, id: JobId, j: Job)
    requires DreamDue(x) && id in x && x[id].kind == j.kind == CaptureJob
    ensures DreamDue(x[id := j])
  {
    var due :| due in x && x[due].kind == DreamJob && (x[due].status == Pending || x[due].status == Running);
    assert x[id := j][due] == x[due];
  }

  /** What a worker stores came from a capture job. */
  lemma CaptureIsHeld(p: Policy, a: System, token: Token, now: Time)
    requires Guarded(p, a) && Holding(a, token, now) && MemoryOf(a, token).Some?
    ensures a.jobs[JobOf(a, token)].kind == CaptureJob
  {
    hide Fenced, Drafts;
    RowAt(p, a.jobs, a.claims, JobOf(a, token));
  }

  /** A new dream is made only above the threshold and while none waits or runs, and above it one does afterwards. */
  predicate Triggered(p: Policy, a: System, b: System, now: Time) {
    var pressed := b.store.writes - b.store.dreamWrites >= p.dreamAfterWrites;
    && (pressed ==> DreamDue(b.jobs))
    && forall id :: id in b.jobs && id !in a.jobs ==> pressed && !DreamDue(a.jobs) && NewDream(b.jobs[id], now)
  }

  lemma WriteTriggers(p: Policy, a: System, step: Step, b: System)
    requires Guarded(p, a) && Transition(p, a, step, b)
    requires step.StoreCapture? || (step.Foreground? && step.change.Remember?)
    ensures Triggered(p, a, b, step.now)
  {
    hide Guarded, Scheduled, Persists, Permitted, DreamDue, Runs.Commit, MemoryOf, NewDream;
    TriggerMeaning(a.jobs, b.store, p, step.spare, step.now);
    if step.StoreCapture? {
      var t :| Persists(a, step.token, step.vector, step.inspection, step.decision, step.now, t)
            && StoresThis(p, a, step.token, step.inspection, step.decision, step.spare, step.now, t, b);
      var id, jobs := JobOf(a, step.token), Scheduled(a.jobs, t, p, step.spare, step.now);
      CaptureIsHeld(p, a, step.token, step.now);
      assert jobs[id] == a.jobs[id] && b.jobs == jobs[id := b.jobs[id]];
      if DreamDue(jobs) { FinishingKeepsDue(jobs, id, b.jobs[id]); }
    }
  }

  /** In every execution, every stored capture and every remembered record runs the trigger in its own transaction. */
  lemma WritesMakeDreamsDue(p: Policy, systems: seq<System>, steps: seq<Step>, k: nat)
    requires Execution(p, systems, steps) && k < |steps|
    requires steps[k].StoreCapture? || (steps[k].Foreground? && steps[k].change.Remember?)
    ensures Triggered(p, systems[k], systems[k + 1], steps[k].now)
  {
    hide Start, Transition, Guarded, Triggered;
    Effects.AlwaysGuarded(p, systems, steps, k);
    Reviews.TransitionAt(p, systems, steps, k);
    WriteTriggers(p, systems[k], steps[k], systems[k + 1]);
  }

  /** Moving a scan on: while records of its window remain, exactly one new job takes the window over from the plan's
      cursor, and no write is accounted for; at its end the writes it began with are accounted for and the trigger
      runs. */
  lemma ScanGoesOn(jobs: Table, s: State, id: JobId, cursor: Key, p: Policy, spare: JobId, now: Time)
    requires id in jobs && spare !in jobs && jobs[id].payload.Consolidation? && !jobs[id].payload.continued
    requires jobs[id].payload.scan.Some? && jobs[id].status != Pending && jobs[id].status != Running
    ensures
      var scan, r := jobs[id].payload.scan.value, Advanced(jobs, s, id, cursor, p, spare, now);
      var ahead := exists x ::
        x in s.rows && s.rows[x].generation <= scan.end && KeyBelow(cursor, Key(s.rows[x].generation, x));
      && r.store == s.(cursor := r.store.cursor, dreamWrites := r.store.dreamWrites)
      && r.store.cursor == (if KeyBelow(s.cursor, cursor) then cursor else s.cursor)
      && id in r.jobs && r.jobs[id] == jobs[id].(payload := jobs[id].payload.(continued := true))
      && (forall x :: x in jobs && x != id ==> x in r.jobs && r.jobs[x] == jobs[x])
      && (forall x :: x in r.jobs && x !in jobs ==> x == spare)
      && if ahead then
           && r.store.dreamWrites == s.dreamWrites && spare in r.jobs
           && r.jobs[spare].kind == DreamJob && r.jobs[spare].status == Pending && r.jobs[spare].available == now
           && r.jobs[spare].attempts == 0
             && r.jobs[spare].payload == Consolidation(Some(scan.(cursor := cursor)), false)
         else
           && r.store.dreamWrites >= s.dreamWrites && r.store.dreamWrites >= scan.writes
           && (r.store.dreamWrites == s.dreamWrites || r.store.dreamWrites == scan.writes)
           && (s.writes - r.store.dreamWrites >= p.dreamAfterWrites ==> DreamDue(r.jobs))
           && (spare in r.jobs ==> NewDream(r.jobs[spare], now) && s.writes - r.store.dreamWrites >= p.dreamAfterWrites)
  {
    hide Scheduled, DreamDue, WindowKeys, KeyBelow;
    var scan := jobs[id].payload.scan.value;
    AheadMeaning(s, scan.end, cursor);
    var marked := jobs[id := jobs[id].(payload := jobs[id].payload.(continued := true))];
    var r := Advanced(jobs, s, id, cursor, p, spare, now);
    if !More(s, scan.end, cursor) { TriggerMeaning(marked, r.store, p, spare, now); }
  }

  lemma AheadMeaning(s: State, end: nat, cursor: Key)
    ensures More(s, end, cursor) <==>
      exists x :: x in s.rows && s.rows[x].generation <= end && KeyBelow(cursor, Key(s.rows[x].generation, x))
  {
    if x :| x in s.rows && s.rows[x].generation <= end && KeyBelow(cursor, Key(s.rows[x].generation, x)) {
      assert Key(s.rows[x].generation, x) in WindowKeys(s, cursor, end);
    }
    if More(s, end, cursor) {
      var k :| k in WindowKeys(s, cursor, end);
      assert k.id in s.rows;
    }
  }

  // ---------- plans made by hand ----------

  lemma FirstOfNone(n: nat)
    ensures FirstKeys({}, n) == []
  {
  }

  /** What a plan made by hand reads: the oldest of what the owner's scan has before it, and only if there is nothing,
      the oldest of everything again. */
  lemma HandPlansRead(s: State, size: nat, k: Key)
    requires size >= 1
    ensures
      var batch := HandBatch(s, size);
      var ahead := exists id :: id in s.rows && s.rows[id].generation <= s.generation
                                && KeyBelow(s.cursor, Key(s.rows[id].generation, id));
      && Increasing(batch) && |batch| <= size
      && (k in batch ==>
            k.id in s.rows && s.rows[k.id].generation == k.generation && (ahead ==> KeyBelow(s.cursor, k)))
      && (k.id in s.rows && s.rows[k.id].generation == k.generation && k.generation <= s.generation && k !in batch
          && (ahead ==> KeyBelow(s.cursor, k)) ==>
            |batch| == size && forall x :: x in batch ==> KeyBelow(x, k))
  {
    hide FirstKeys, KeyBelow, Increasing;
    var window := WindowKeys(s, s.cursor, s.generation);
    AheadMeaning(s, s.generation, s.cursor);
    FirstKeysIsSegment(window, size);
    FirstKeysIsSegment(Everything(s), size);
    FirstOfNone(size);
    assert HandBatch(s, size) == FirstKeys(if window == {} then Everything(s) else window, size);
    if k.id in s.rows && s.rows[k.id].generation == k.generation {
      assert k == Key(s.rows[k.id].generation, k.id);
      assert k in Everything(s) && (k.generation <= s.generation && KeyBelow(s.cursor, k) ==> k in window);
    }
  }

  /** A plan applied by hand marks itself, takes the owner's scan to where it ended, back or forward, and accounts for
      the writes it was made at unless more are accounted for already; jobs are left alone. */
  lemma ByHandAccounts(p: Policy, a: System, step: Step, b: System)
    requires Reviews.Reads(p, a) && Transition(p, a, step, b) && step.ApplyByHand?
    ensures SavedAs(a, step.id).Some? && SavedAs(b, step.id).Some? && !SavedAs(a, step.id).value.applied
    ensures
      var plan := SavedAs(a, step.id).value;
      && plan.generation == a.store.generation && SavedAs(b, step.id) == Some(plan.(applied := true))
      && b.store.cursor == plan.cursor && b.store.generation > a.store.generation
      && b.store.dreamWrites >= plan.writes && b.store.dreamWrites >= a.store.dreamWrites
      && (b.store.dreamWrites == plan.writes || b.store.dreamWrites == a.store.dreamWrites)
      && b.jobs == a.jobs && b.store.writes == a.store.writes
  {
    hide Reviews.Reads, Dream.ApplyByHand, SavedAs, Keyed, AppliesByHand;
    hide AppliesPlan, OffersPlan, StoresCapture, DraftsCapture, Foregrounds, IsPlan, Leases, Sweeps, Pins, Saves,
        DraftsByHand, OffersCapture, GivesUp, Protocol.Reviews, Retries, Captures, Compacts, Archives;
    ByHandMarks(a, step.id, step.vectors, step.now, b);
    Reviews.SavedIsOk(p, a, step.id);
    ReadsInv(p, a);
    AppliedByHandCounts(a.store, SavedAs(a, step.id).value, step.vectors, step.now);
  }

  lemma ByHandMarks(a: System, id: PlanId, vectors: seq<Vector>, now: Time, b: System)
    requires AppliesByHand(a, id, vectors, now, b)
    ensures Keyed(a.store) && SavedAs(a, id).Some? && |vectors| == |SavedAs(a, id).value.changes|
    ensures Dream.ApplyByHand(a.store, SavedAs(a, id).value, vectors, now) == Ok(b.store) && b.jobs == a.jobs
    ensures SavedAs(b, id) == Some(SavedAs(a, id).value.(applied := true))
  {
    hide Dream.ApplyByHand, Keyed;
  }

  lemma AppliedByHandCounts(s: State, plan: Dream.SavedPlan, vectors: seq<Vector>, now: Time)
    requires Inv(s) && |plan.changes| == |vectors| && forall i :: 0 <= i < |vectors| ==> plan.changes[i].memory.id != ""
    requires Keyed(s) && Dream.ApplyByHand(s, plan, vectors, now).Ok?
    ensures
      var t := Dream.ApplyByHand(s, plan, vectors, now).value;
      && !plan.applied && plan.generation == s.generation && t.cursor == plan.cursor && t.generation > s.generation
      && t.dreamWrites >= plan.writes && t.dreamWrites >= s.dreamWrites && t.writes == s.writes
      && (t.dreamWrites == plan.writes || t.dreamWrites == s.dreamWrites)
  {
    hide Inv, Keyed, Dream.ApplyPlan;
    AppliedPlanCounts(s, plan.groups, plan.changes, vectors, now);
  }

  lemma ReadsInv(p: Policy, a: System)
    requires Reviews.Reads(p, a)
    ensures Inv(a.store)
  {
  }

  lemma AppliedPlanCounts(s: State, groups: seq<Dream.Group>, changes: seq<Dream.Change>, vectors: seq<Vector>,
                          now: Time)
    requires Inv(s) && |changes| == |vectors| && forall i :: 0 <= i < |changes| ==> changes[i].memory.id != ""
    requires Keyed(s) && Dream.ApplyPlan(s, groups, changes, vectors, now).Ok?
    ensures
      var t := Dream.ApplyPlan(s, groups, changes, vectors, now).value;
      t.generation > s.generation && t.writes == s.writes && t.dreamWrites == s.dreamWrites
  {
    hide Inv, Keyed, Dream.ApplyPlan, Reconciliation.Kept;
    Dream.PlanKeeps(s, groups, changes, vectors, now);
  }
}
