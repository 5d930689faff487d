/** What fencing buys over whole executions: a lost lease is lost for good, done is final, each capture takes effect
    once, and each event causes one job, ever. */
module Effects {
  import opened Types
  import opened Store
  import opened Jobs
  import opened Protocol
  import opened Fencing
  import Dream
  import Reconciliation
  import Remember
  import Runs

  // ---------- tokens ----------

  /** Tokens only disappear, or are new. */
  ghost predicate Retokened(x: Table, y: Table, used: set<Token>) {
    forall id :: id in y ==> y[id].token.None? || y[id].token.value !in used || (id in x && y[id].token == x[id].token)
  }

  /** A claim is a record of what was handed out: only its stage moves. */
  ghost predicate ClaimsGrow(x: map<Token, Claim>, y: map<Token, Claim>) {
    forall t :: t in x ==>
        t in y && y[t].job == x[t].job && y[t].attempts == x[t].attempts && y[t].result == x[t].result
  }

  lemma AdvanceRetokens(x: Table, s: State, id: JobId, status: JobStatus, result: JobResult, cursor: Key, p: Policy,
                        spare: JobId, now: Time, used: set<Token>)
    requires id in x && spare !in x
    ensures Retokened(x, Advanced(x[id := Finished(x[id], status, result)], s, id, cursor, p, spare, now).jobs, used)
  {
    hide More;
  }

  lemma ApplyTokens(p: Policy, a: System, token: Token, vectors: seq<Vector>, spare: JobId, now: Time, b: System)
    requires AppliesPlan(p, a, token, vectors, spare, now, b)
    ensures Retokened(a.jobs, b.jobs, a.claims.Keys) && ClaimsGrow(a.claims, b.claims)
  {
    hide Retokened, Advanced, Dream.ApplyPlan, Automatic;
    var id :| AppliesThis(p, a, token, id, vectors, spare, now, b);
    var plan := a.plans[id];
    var applied := Dream.ApplyPlan(a.store, plan.groups, plan.changes, vectors, now);
    AdvanceRetokens(a.jobs, applied.value, JobOf(a, token), Done, Consolidated(id), plan.cursor, p, spare, now,
      a.claims.Keys);
  }

  lemma OfferTokens(p: Policy, a: System, token: Token, spare: JobId, now: Time, b: System)
    requires OffersPlan(p, a, token, spare, now, b)
    ensures Retokened(a.jobs, b.jobs, a.claims.Keys) && ClaimsGrow(a.claims, b.claims)
  {
    hide Retokened, Advanced, Automatic;
    var claim := a.claims[token];
    var plan := a.plans[claim.stage.plan];
    AdvanceRetokens(a.jobs, a.store, claim.job, Proposed, PlanOffered(claim.stage.plan, plan.generation, false),
      plan.cursor, p, spare, now, a.claims.Keys);
  }

  lemma SweepTokens(p: Policy, a: System, step: Step, b: System)
    requires Transition(p, a, step, b) && (step.Sweep? || step.Lease? || step.PinScan?)
    ensures Retokened(a.jobs, b.jobs, a.claims.Keys) && ClaimsGrow(a.claims, b.claims)
  {
    hide Pin;
  }

  lemma StoreTokens(p: Policy, a: System, step: Step, b: System)
    requires Transition(p, a, step, b) && (step.StoreCapture? || step.DraftCapture? || step.Foreground?)
    ensures Retokened(a.jobs, b.jobs, a.claims.Keys) && ClaimsGrow(a.claims, b.claims)
  {
    hide Persists, Permitted, Runs.Commit, DreamWaiting;
    if step.StoreCapture? {
      var t :| Persists(a, step.token, step.vector, step.inspection, step.decision, step.now, t)
            && StoresThis(p, a, step.token, step.inspection, step.decision, step.spare, step.now, t, b);
    }
  }

  lemma RowTokens(p: Policy, a: System, step: Step, b: System)
    requires Transition(p, a, step, b)
    requires step.OfferCapture? || step.GiveUp? || step.Review? || step.Retry? || step.Capture? || step.Compact?
    ensures Retokened(a.jobs, b.jobs, a.claims.Keys) && ClaimsGrow(a.claims, b.claims)
  {
    hide DraftsByHand, AppliesByHand, AppliesPlan, OffersPlan, StoresCapture, DraftsCapture, Foregrounds, Sweeps,
        Leases, Pins, IsPlan;
  }

  lemma StepTokens(p: Policy, a: System, step: Step, b: System)
    requires Transition(p, a, step, b)
    ensures Retokened(a.jobs, b.jobs, a.claims.Keys) && ClaimsGrow(a.claims, b.claims)
  {
    hide DraftsByHand, AppliesByHand, OffersCapture, GivesUp, Protocol.Reviews, Retries, Captures, Compacts;
    hide AppliesPlan, OffersPlan, StoresCapture, DraftsCapture, Foregrounds, Sweeps, Leases, Pins, IsPlan;
    match step
    case OfferCapture(_, _) => RowTokens(p, a, step, b);
    case GiveUp(_, _) => RowTokens(p, a, step, b);
    case Review(_, _) => RowTokens(p, a, step, b);
    case Retry(_) => RowTokens(p, a, step, b);
    case Capture(_, _, _, _, _) => RowTokens(p, a, step, b);
    case Compact(_) => RowTokens(p, a, step, b);
    case ApplyPlan(token, vectors, spare, now) => ApplyTokens(p, a, token, vectors, spare, now, b);
    case OfferPlan(token, spare, now) => OfferTokens(p, a, token, spare, now, b);
    case Sweep(_) => SweepTokens(p, a, step, b);
    case Lease(_, _, _) => SweepTokens(p, a, step, b);
    case PinScan(_, _) => SweepTokens(p, a, step, b);
    case StoreCapture(_, _, _, _, _, _) => StoreTokens(p, a, step, b);
    case DraftCapture(_, _, _, _, _) => StoreTokens(p, a, step, b);
    case Foreground(_, _, _) => StoreTokens(p, a, step, b);
    case DraftByHand(_, _, _) => ByHandKeepsTables(p, a, step, b);
    case ApplyByHand(_, _, _) => ByHandKeepsTables(p, a, step, b);
    case _ =>
  }

  lemma {:induction false} AlwaysGuarded(p: Policy, systems: seq<System>, steps: seq<Step>, k: nat)
    requires Execution(p, systems, steps) && k < |systems|
    ensures Guarded(p, systems[k])
  {
    hide Transition, Runs.Initial;
    if k > 0 {
      AlwaysGuarded(p, systems, steps, k - 1);
      StepKeeps(p, systems[k - 1], steps[k - 1], systems[k]);
    }
  }

  lemma {:induction false} AlwaysGrows(p: Policy, systems: seq<System>, steps: seq<Step>, i: nat, k: nat)
    requires Execution(p, systems, steps) && i <= k < |systems|
    ensures Grows(systems[i].jobs, systems[k].jobs)
    decreases k
  {
    hide Transition, Runs.Initial, Grows, Guarded;
    if i == k {
      GrowsReflexive(systems[i].jobs);
    } else {
      AlwaysGrows(p, systems, steps, i, k - 1);
      AlwaysGuarded(p, systems, steps, k - 1);
      StepKeeps(p, systems[k - 1], steps[k - 1], systems[k]);
      GrowsTransitive(systems[i].jobs, systems[k - 1].jobs, systems[k].jobs);
    }
  }

  /** The token's claim exists and its job now belongs to nobody or to another. */
  predicate Lost(a: System, token: Token) {
    && token in a.claims && a.claims[token].job in a.jobs
    && a.jobs[a.claims[token].job].token != Some(token)
  }

  lemma LostStaysLost(p: Policy, a: System, step: Step, b: System, token: Token)
    requires Transition(p, a, step, b) && Lost(a, token) && Grows(a.jobs, b.jobs)
    ensures Lost(b, token)
  {
    hide Transition;
    StepTokens(p, a, step, b);
  }

  /** The step acts under the token's lease. */
  predicate ActsUnder(step: Step, token: Token) {
    match step
    case PinScan(t, _) => t == token
    case ApplyPlan(t, _, _, _) => t == token
    case OfferPlan(t, _, _) => t == token
    case StoreCapture(t, _, _, _, _, _) => t == token
    case DraftCapture(t, _, _, _, _) => t == token
    case OfferCapture(t, _) => t == token
    case GiveUp(t, _) => t == token
    case _ => false
  }

  lemma ActingNeedsTheLease(p: Policy, a: System, step: Step, b: System, token: Token)
    requires Transition(p, a, step, b) && ActsUnder(step, token)
    ensures !Lost(a, token)
  {
    hide Dream.ApplyPlan, Remember.Persist, Remember.Inspects, Remember.Decides, Permitted, Advanced, Automatic;
  }

  /** Fencing: from the moment a worker's lease has been finished, expired into failure or taken over by another token,
      no later step of any execution acts under it, whatever the clocks say. */
  lemma {:induction false} LostLeasesNeverAct(p: Policy, systems: seq<System>, steps: seq<Step>, i: nat, k: nat,
                                              token: Token)
    requires Execution(p, systems, steps) && i <= k < |steps| && Lost(systems[i], token)
    ensures Lost(systems[k], token) && !ActsUnder(steps[k], token)
    decreases k
  {
    hide Transition, Runs.Initial, Lost, ActsUnder, Grows;
    if i < k {
      LostLeasesNeverAct(p, systems, steps, i, k - 1, token);
      AlwaysGrows(p, systems, steps, k - 1, k);
      LostStaysLost(p, systems[k - 1], steps[k - 1], systems[k], token);
    }
    if ActsUnder(steps[k], token) {
      ActingNeedsTheLease(p, systems[k], steps[k], systems[k + 1], token);
    }
  }

  /** Running is exactly having a token, a pending job has attempts left, and two jobs never share a token. */
  lemma RowsAreConsistent(p: Policy, systems: seq<System>, steps: seq<Step>, k: nat, id: JobId, other: JobId)
    requires Execution(p, systems, steps) && k < |systems| && id in systems[k].jobs && other in systems[k].jobs
    ensures systems[k].jobs[id].status == Running <==> systems[k].jobs[id].token.Some?
    ensures systems[k].jobs[id].status == Pending ==> systems[k].jobs[id].attempts < p.maxAttempts
    ensures systems[k].jobs[id].token.Some? && systems[k].jobs[id].token == systems[k].jobs[other].token ==> id == other
  {
    hide Execution, Fenced, Drafts;
    AlwaysGuarded(p, systems, steps, k);
    RowAt(p, systems[k].jobs, systems[k].claims, id);
    RowAt(p, systems[k].jobs, systems[k].claims, other);
  }

  lemma DoneIsFinal(p: Policy, systems: seq<System>, steps: seq<Step>, i: nat, k: nat, id: JobId)
    requires Execution(p, systems, steps) && i <= k < |systems| && id in systems[i].jobs
      && systems[i].jobs[id].status == Done
    ensures id in systems[k].jobs && systems[k].jobs[id].status == Done
      && systems[k].jobs[id].result == systems[i].jobs[id].result
  {
    hide Execution;
    AlwaysGrows(p, systems, steps, i, k);
    assert RowGrows(systems[i].jobs[id], systems[k].jobs[id]);
  }

  // ---------- captures take effect once ----------

  predicate DoneCapture(jobs: Table, id: JobId) {
    id in jobs && jobs[id].kind.CaptureJob? && jobs[id].status == Done
  }

  ghost predicate Acknowledged(a: System) {
    && (forall i, j :: 0 <= i < j < |a.stored| ==> a.stored[i] != a.stored[j])
    && (forall id :: id in a.stored <==> DoneCapture(a.jobs, id))
  }

  /** The step that stores a capture takes it from not done to done; no other step makes one done. */
  lemma StepAcknowledges(p: Policy, a: System, step: Step, b: System)
    requires ValidPolicy(p) && Guarded(p, a) && Transition(p, a, step, b)
    ensures step.StoreCapture? ==> step.token in a.claims
    ensures b.stored == if step.StoreCapture? then a.stored + [JobOf(a, step.token)] else a.stored
    ensures forall id ::
      DoneCapture(b.jobs, id) <==> DoneCapture(a.jobs, id) || (step.StoreCapture? && id == JobOf(a, step.token))
    ensures step.StoreCapture? ==> !DoneCapture(a.jobs, JobOf(a, step.token))
  {
    hide DraftsByHand, AppliesByHand;
    hide AppliesPlan, OffersPlan, StoresCapture, Dream.ApplyPlan, Remember.Persist, Remember.Inspects, Remember.Decides,
         Permitted, Runs.Commit, IsPlan;
    hide FirstReady, Pin, MemoryOf, DreamWaiting, Fenced, Drafts, Sweeps, Leases, Pins;
    match step
    case ApplyPlan(token, vectors, spare, now) => DreamsAcknowledgeNothing(p, a, step, b);
    case OfferPlan(token, spare, now) => DreamsAcknowledgeNothing(p, a, step, b);
    case StoreCapture(token, vector, i, d, spare, now) => StoreAcknowledges(p, a, token, vector, i, d, spare, now, b);
    case Sweep(now) => SweepAcknowledges(p, a, step, b);
    case Lease(id, token, now) => SweepAcknowledges(p, a, step, b);
    case PinScan(token, now) => SweepAcknowledges(p, a, step, b);
    case Retry(id) =>
      RowAt(p, a.jobs, a.claims, id);
    case GiveUp(token, now) =>
      RowAt(p, a.jobs, a.claims, JobOf(a, token));
    case OfferCapture(token, now) =>
      RowAt(p, a.jobs, a.claims, JobOf(a, token));
    case DraftByHand(_, _, _) => ByHandKeepsTables(p, a, step, b);
    case ApplyByHand(_, _, _) => ByHandKeepsTables(p, a, step, b);
    case _ =>
  }

  lemma SweepAcknowledges(p: Policy, a: System, step: Step, b: System)
    requires Transition(p, a, step, b) && (step.Sweep? || step.Lease? || step.PinScan?)
    ensures b.stored == a.stored
    ensures forall id :: DoneCapture(b.jobs, id) <==> DoneCapture(a.jobs, id)
  {
    hide Pin;
  }

  lemma AdvanceAcknowledgesNothing(x: Table, s: State, id: JobId, status: JobStatus, result: JobResult, cursor: Key,
                                   p: Policy, spare: JobId, now: Time)
    requires id in x && spare !in x && x[id].kind.DreamJob?
    ensures forall j ::
      DoneCapture(Advanced(x[id := Finished(x[id], status, result)], s, id, cursor, p, spare, now).jobs, j)
      <==> DoneCapture(x, j)
  {
    hide More;
  }

  lemma DreamsAcknowledgeNothing(p: Policy, a: System, step: Step, b: System)
    requires Guarded(p, a) && Transition(p, a, step, b) && (step.ApplyPlan? || step.OfferPlan?)
    ensures b.stored == a.stored
    ensures forall id :: DoneCapture(b.jobs, id) <==> DoneCapture(a.jobs, id)
  {
    hide Advanced, Dream.ApplyPlan, Automatic, Fenced, Drafts, DoneCapture;
    DraftAt(a.claims, a.jobs, step.token);
    var job := JobOf(a, step.token);
    if step.ApplyPlan? {
      var id :| AppliesThis(p, a, step.token, id, step.vectors, step.spare, step.now, b);
      var plan := a.plans[id];
      RowAt(p, a.jobs, a.claims, job);
      AdvanceAcknowledgesNothing(a.jobs,
        Dream.ApplyPlan(a.store, plan.groups, plan.changes, step.vectors, step.now).value, job, Done, Consolidated(id),
        plan.cursor, p, step.spare, step.now);
    } else {
      var id := a.claims[step.token].stage.plan;
      var plan := a.plans[id];
      AdvanceAcknowledgesNothing(a.jobs, a.store, job, Proposed, PlanOffered(id, plan.generation, false), plan.cursor,
        p, step.spare, step.now);
    }
  }

  lemma StoreAcknowledges(p: Policy, a: System, token: Token, vector: Vector, i: Remember.Inspection,
                          d: Reconciliation.Decision, spare: JobId, now: Time, b: System)
    requires Guarded(p, a) && StoresCapture(p, a, token, vector, i, d, spare, now, b)
    ensures token in a.claims && b.stored == a.stored + [JobOf(a, token)]
    ensures forall id :: DoneCapture(b.jobs, id) <==> DoneCapture(a.jobs, id) || id == JobOf(a, token)
    ensures !DoneCapture(a.jobs, JobOf(a, token))
  {
    hide Fenced, Drafts, Permitted, Remember.Persist, Remember.Inspects, Remember.Decides, DreamWaiting;
    var t :| Persists(a, token, vector, i, d, now, t) && StoresThis(p, a, token, i, d, spare, now, t, b);
    RowAt(p, a.jobs, a.claims, JobOf(a, token));
  }

  lemma AcknowledgedStep(p: Policy, a: System, step: Step, b: System)
    requires ValidPolicy(p) && Guarded(p, a) && Acknowledged(a) && Transition(p, a, step, b)
    ensures Acknowledged(b)
  {
    hide Guarded, Transition, DoneCapture;
    StepAcknowledges(p, a, step, b);
    forall id ensures id in b.stored <==> DoneCapture(b.jobs, id) {
      if step.StoreCapture? { assert id in b.stored <==> id in a.stored || id == JobOf(a, step.token); }
    }
  }

  /** At most once, and exactly when acknowledged: over any execution, each capture job commits at most one memory
      change, and it has committed one exactly when its row says done. */
  lemma {:induction false} CapturesTakeEffectOnce(p: Policy, systems: seq<System>, steps: seq<Step>, k: nat)
    requires Execution(p, systems, steps) && k < |systems|
    ensures Acknowledged(systems[k])
  {
    hide Transition, Runs.Initial, Guarded;
    if k > 0 {
      CapturesTakeEffectOnce(p, systems, steps, k - 1);
      AlwaysGuarded(p, systems, steps, k - 1);
      AcknowledgedStep(p, systems[k - 1], steps[k - 1], systems[k]);
    }
  }

  // ---------- events cause one job ----------

  /** Every event ever captured, archived or not, with its job. */
  function AllEvents(a: System): map<EventKey, JobId> {
    map k | k in a.events.Keys + a.eventArchives.Keys ::
      if k in a.events then a.events[k].job else a.eventArchives[k].job
  }

  ghost predicate Causes(events: map<EventKey, JobId>, id: JobId) {
    exists k :: k in events && events[k] == id
  }

  /** Events and capture jobs are in one-to-one correspondence. */
  ghost predicate Matched(events: map<EventKey, JobId>, jobs: Table) {
    && (forall k ::
      k in events ==> events[k] in jobs && jobs[events[k]].kind.CaptureJob? && jobs[events[k]].task == Some(k.0))
    && (forall k, l :: k in events && l in events && events[k] == events[l] ==> k == l)
    && (forall id :: id in jobs && jobs[id].kind.CaptureJob? ==> Causes(events, id))
  }

  ghost predicate OneToOne(a: System) {
    a.events.Keys !! a.eventArchives.Keys && Matched(AllEvents(a), a.jobs)
  }

  lemma MatchedAdd(events: map<EventKey, JobId>, jobs: Table, key: EventKey, id: JobId, j: Job)
    requires Matched(events, jobs) && key !in events && id !in jobs && j.kind.CaptureJob? && j.task == Some(key.0)
    ensures Matched(events[key := id], jobs[id := j])
  {
    var after := events[key := id];
    forall x | x in jobs[id := j] && jobs[id := j][x].kind.CaptureJob? ensures Causes(after, x) {
      if x == id {
        assert after[key] == id;
      } else {
        var k :| k in events && events[k] == x;
        assert after[k] == x;
      }
    }
  }

  lemma MatchedGrows(events: map<EventKey, JobId>, x: Table, y: Table)
    requires Matched(events, x) && Grows(x, y) && forall id :: id in y && id !in x ==> y[id].kind.DreamJob?
    ensures Matched(events, y)
  {
    forall id | id in x ensures id in y && y[id].kind == x[id].kind && y[id].task == x[id].task {
      assert RowGrows(x[id], y[id]);
    }
  }

  /** No step but `Capture` makes a capture job, and rows keep their kind and task. */
  lemma NewRowsAreDreams(p: Policy, a: System, step: Step, b: System)
    requires Guarded(p, a) && Transition(p, a, step, b) && !step.Capture?
    ensures forall id :: id in b.jobs && id !in a.jobs ==> b.jobs[id].kind.DreamJob? && b.jobs[id].task.None?
  {
    hide DraftsByHand, AppliesByHand;
    hide AppliesPlan, OffersPlan, Dream.ApplyPlan, Remember.Persist, Remember.Inspects, Remember.Decides, Permitted,
         Runs.Commit, IsPlan;
    hide Pin, MemoryOf, DreamWaiting, Fenced, Drafts;
    match step
    case ApplyPlan(token, vectors, spare, now) => NewFromAdvance(p, a, step, b);
    case OfferPlan(token, spare, now) => NewFromAdvance(p, a, step, b);
    case StoreCapture(_, _, _, _, _, _) => NewFromSchedule(p, a, step, b);
    case Foreground(_, _, _) => NewFromSchedule(p, a, step, b);
    case DraftByHand(_, _, _) => ByHandKeepsTables(p, a, step, b);
    case ApplyByHand(_, _, _) => ByHandKeepsTables(p, a, step, b);
    case _ =>
  }

  lemma NewFromAdvance(p: Policy, a: System, step: Step, b: System)
    requires Transition(p, a, step, b) && (step.ApplyPlan? || step.OfferPlan?)
    ensures forall id :: id in b.jobs && id !in a.jobs ==> b.jobs[id].kind.DreamJob? && b.jobs[id].task.None?
  {
    hide More, Dream.ApplyPlan, Automatic, Applies, DreamWaiting;
    if step.ApplyPlan? {
      var id :| AppliesThis(p, a, step.token, id, step.vectors, step.spare, step.now, b);
    }
  }

  lemma NewFromSchedule(p: Policy, a: System, step: Step, b: System)
    requires Transition(p, a, step, b) && (step.StoreCapture? || step.Foreground?)
    ensures forall id :: id in b.jobs && id !in a.jobs ==> b.jobs[id].kind.DreamJob? && b.jobs[id].task.None?
  {
    hide Persists, Permitted, Runs.Commit, DreamWaiting, MemoryOf;
    if step.StoreCapture? {
      var t :| Persists(a, step.token, step.vector, step.inspection, step.decision, step.now, t)
            && StoresThis(p, a, step.token, step.inspection, step.decision, step.spare, step.now, t, b);
    }
  }

  lemma EventsUnlessCapture(p: Policy, a: System, step: Step, b: System)
    requires Transition(p, a, step, b) && !step.Capture? && a.events.Keys !! a.eventArchives.Keys
    ensures b.events.Keys !! b.eventArchives.Keys && AllEvents(b) == AllEvents(a)
  {
    hide DraftsByHand, AppliesByHand;
    hide AppliesPlan, OffersPlan, StoresCapture, DraftsCapture, Leases, Pins, Saves, Sweeps, Foregrounds;
    match step
    case ApplyPlan(token, vectors, spare, now) => SameEvents(p, a, step, b);
    case OfferPlan(token, spare, now) => SameEvents(p, a, step, b);
    case StoreCapture(_, _, _, _, _, _) => SameEvents(p, a, step, b);
    case DraftCapture(_, _, _, _, _) => SameEvents(p, a, step, b);
    case Lease(_, _, _) => SameEvents(p, a, step, b);
    case PinScan(_, _) => SameEvents(p, a, step, b);
    case SavePlan(_, _, _) => SameEvents(p, a, step, b);
    case Sweep(_) => SameEvents(p, a, step, b);
    case Foreground(_, _, _) => SameEvents(p, a, step, b);
    case ArchiveEvent(key) =>
      forall k ensures k in AllEvents(b) <==> k in AllEvents(a) { }
    case DraftByHand(_, _, _) => ByHandKeepsTables(p, a, step, b);
    case ApplyByHand(_, _, _) => ByHandKeepsTables(p, a, step, b);
    case _ =>
  }

  lemma SameEvents(p: Policy, a: System, step: Step, b: System)
    requires Transition(p, a, step, b)
    requires step.ApplyPlan? || step.OfferPlan? || step.StoreCapture? || step.DraftCapture? || step.Lease?
      || step.PinScan? || step.SavePlan?
          || step.Sweep? || step.Foreground?
    ensures a.events == b.events && a.eventArchives == b.eventArchives
  {
    hide Advanced, Scheduled, Swept, Dream.ApplyPlan, Automatic, Applies, Persists, Permitted, Runs.Commit, IsPlan,
         FirstReady, Pin, LogEntry;
  }

  lemma CaptureOneToOne(p: Policy, a: System, step: Step, b: System)
    requires OneToOne(a) && step.Capture? && Transition(p, a, step, b)
    ensures OneToOne(b)
  {
    hide AllEvents, Transition, Matched;
    CaptureAddsEvent(p, a, step, b);
    MatchedAdd(AllEvents(a), a.jobs, (step.task, step.event), step.job, b.jobs[step.job]);
  }

  lemma CaptureAddsEvent(p: Policy, a: System, step: Step, b: System)
    requires step.Capture? && Transition(p, a, step, b) && a.events.Keys !! a.eventArchives.Keys
    ensures b.events.Keys !! b.eventArchives.Keys && (step.task, step.event) !in AllEvents(a)
    ensures AllEvents(b) == AllEvents(a)[(step.task, step.event) := step.job]
    ensures step.job !in a.jobs
      && b.jobs == a.jobs[step.job := Fresh(CaptureJob, Some(step.task), Evidence(step.report), step.now)]
  {
  }

  lemma OneToOneStep(p: Policy, a: System, step: Step, b: System)
    requires ValidPolicy(p) && Guarded(p, a) && OneToOne(a) && Transition(p, a, step, b)
    ensures OneToOne(b)
  {
    hide Transition, Guarded, AllEvents, Matched, Grows;
    if step.Capture? {
      CaptureOneToOne(p, a, step, b);
    } else {
      StepKeeps(p, a, step, b);
      NewRowsAreDreams(p, a, step, b);
      EventsUnlessCapture(p, a, step, b);
      MatchedGrows(AllEvents(a), a.jobs, b.jobs);
    }
  }

  lemma {:induction false} EventsCauseOneJob(p: Policy, systems: seq<System>, steps: seq<Step>, k: nat)
    requires Execution(p, systems, steps) && k < |systems|
    ensures OneToOne(systems[k])
  {
    hide Transition, Runs.Initial, Guarded;
    if k > 0 {
      EventsCauseOneJob(p, systems, steps, k - 1);
      AlwaysGuarded(p, systems, steps, k - 1);
      OneToOneStep(p, systems[k - 1], steps[k - 1], systems[k]);
    }
  }

  lemma EventsPersist(p: Policy, a: System, step: Step, b: System, key: EventKey)
    requires Transition(p, a, step, b) && OneToOne(a) && key in AllEvents(a)
    ensures key in AllEvents(b) && AllEvents(b)[key] == AllEvents(a)[key]
  {
    hide Transition;
    if step.Capture? {
      CaptureKeepsEvents(p, a, step, b, key);
    } else {
      EventsUnlessCapture(p, a, step, b);
    }
  }

  lemma CaptureKeepsEvents(p: Policy, a: System, step: Step, b: System, key: EventKey)
    requires Transition(p, a, step, b) && step.Capture? && key in AllEvents(a)
    ensures key in AllEvents(b) && AllEvents(b)[key] == AllEvents(a)[key]
  {
  }

  /** An event, once captured, keeps its one job for good: archived or not, it is never captured again. */
  lemma {:induction false} NoEventIsCapturedTwice(p: Policy, systems: seq<System>, steps: seq<Step>, i: nat, k: nat,
                                                  key: EventKey)
    requires Execution(p, systems, steps) && i <= k < |steps| && key in AllEvents(systems[i])
    ensures key in AllEvents(systems[k]) && AllEvents(systems[k])[key] == AllEvents(systems[i])[key]
    ensures !(steps[k].Capture? && (steps[k].task, steps[k].event) == key)
    decreases k
  {
    hide Runs.Initial, Transition, OneToOne;
    if i < k {
      NoEventIsCapturedTwice(p, systems, steps, i, k - 1, key);
      EventsCauseOneJob(p, systems, steps, k - 1);
      EventsPersist(p, systems[k - 1], steps[k - 1], systems[k], key);
    }
    if steps[k].Capture? && (steps[k].task, steps[k].event) == key {
      CapturingNeedsNewEvent(p, systems[k], steps[k], systems[k + 1], key);
    }
  }

  lemma CapturingNeedsNewEvent(p: Policy, a: System, step: Step, b: System, key: EventKey)
    requires Transition(p, a, step, b) && step.Capture? && (step.task, step.event) == key
    ensures key !in AllEvents(a)
  {
  }

  // ---------- archived events are settled ----------

  /** The task is over and all its jobs are done. */
  ghost predicate TaskSettled(a: System, task: Task) {
    && task in a.tasks && a.tasks[task].complete
    && forall id :: id in a.jobs && a.jobs[id].task == Some(task) ==> a.jobs[id].status == Done
  }

  lemma TasksStay(p: Policy, a: System, step: Step, b: System, task: Task)
    requires Transition(p, a, step, b) && task in a.tasks
    ensures task in b.tasks && (a.tasks[task].complete ==> b.tasks[task].complete)
    ensures a.tasks[task].complete && step.Capture? ==> step.task != task
  {
    hide DraftsByHand, AppliesByHand, AppliesPlan, OffersPlan, StoresCapture, DraftsCapture, Foregrounds, IsPlan,
        Leases, Sweeps;
    match step
    case ApplyPlan(_, _, _, _) => SameTasks(p, a, step, b);
    case OfferPlan(_, _, _) => SameTasks(p, a, step, b);
    case StoreCapture(_, _, _, _, _, _) => SameTasks(p, a, step, b);
    case DraftCapture(_, _, _, _, _) => SameTasks(p, a, step, b);
    case Lease(_, _, _) => SameTasks(p, a, step, b);
    case Sweep(_) => SameTasks(p, a, step, b);
    case Foreground(_, _, _) => SameTasks(p, a, step, b);
    case DraftByHand(_, _, _) => ByHandKeepsTables(p, a, step, b);
    case ApplyByHand(_, _, _) => ByHandKeepsTables(p, a, step, b);
    case _ =>
  }

  lemma SameTasks(p: Policy, a: System, step: Step, b: System)
    requires Transition(p, a, step, b)
    requires step.ApplyPlan? || step.OfferPlan? || step.StoreCapture? || step.DraftCapture? || step.Lease?
      || step.Sweep?
      || step.Foreground?
    ensures a.tasks == b.tasks
  {
    hide Advanced, Scheduled, Swept, Dream.ApplyPlan, Automatic, Applies, Persists, Permitted, Runs.Commit, FirstReady,
        LogEntry;
  }

  lemma SettledStays(p: Policy, a: System, step: Step, b: System, task: Task)
    requires ValidPolicy(p) && Guarded(p, a) && Transition(p, a, step, b) && TaskSettled(a, task)
    ensures TaskSettled(b, task)
  {
    hide Transition, Guarded;
    TasksStay(p, a, step, b, task);
    StepKeeps(p, a, step, b);
    if step.Capture? { CaptureAddsJob(p, a, step, b); } else { NewRowsAreDreams(p, a, step, b); }
    forall id | id in b.jobs && b.jobs[id].task == Some(task) ensures b.jobs[id].status == Done {
      if id in a.jobs { assert RowGrows(a.jobs[id], b.jobs[id]); }
    }
  }

  lemma CaptureAddsJob(p: Policy, a: System, step: Step, b: System)
    requires Transition(p, a, step, b) && step.Capture?
    ensures forall id :: id in b.jobs && id !in a.jobs ==> b.jobs[id].task == Some(step.task)
  {
  }

  lemma NewlyArchived(p: Policy, a: System, step: Step, b: System, key: EventKey)
    requires Transition(p, a, step, b) && key in b.eventArchives && key !in a.eventArchives
    ensures TaskSettled(b, key.0)
  {
    hide DraftsByHand, AppliesByHand, AppliesPlan, OffersPlan, StoresCapture, DraftsCapture, Foregrounds, IsPlan,
        Leases, Sweeps, Pins, Saves, OffersCapture, GivesUp, Protocol.Reviews, Retries, Captures, Compacts;
    if !step.ArchiveEvent? { ArchivesStay(p, a, step, b); }
  }

  lemma ArchivesStay(p: Policy, a: System, step: Step, b: System)
    requires Transition(p, a, step, b) && !step.ArchiveEvent?
    ensures b.eventArchives == a.eventArchives
  {
    hide DraftsByHand, AppliesByHand, AppliesPlan, OffersPlan, StoresCapture, DraftsCapture, Leases, Pins, Saves,
        Sweeps, Foregrounds;
    match step
    case DraftByHand(_, _, _) => ByHandKeepsTables(p, a, step, b);
    case ApplyByHand(_, _, _) => ByHandKeepsTables(p, a, step, b);
    case ApplyPlan(_, _, _, _) => SameEvents(p, a, step, b);
    case OfferPlan(_, _, _) => SameEvents(p, a, step, b);
    case StoreCapture(_, _, _, _, _, _) => SameEvents(p, a, step, b);
    case DraftCapture(_, _, _, _, _) => SameEvents(p, a, step, b);
    case Lease(_, _, _) => SameEvents(p, a, step, b);
    case PinScan(_, _) => SameEvents(p, a, step, b);
    case SavePlan(_, _, _) => SameEvents(p, a, step, b);
    case Sweep(_) => SameEvents(p, a, step, b);
    case Foreground(_, _, _) => SameEvents(p, a, step, b);
    case _ =>
  }

  /** Once an event is archived, its task is over and all the task's jobs are done, for good. */
  lemma {:induction false} ArchivedEventsAreSettled(p: Policy, systems: seq<System>, steps: seq<Step>, k: nat,
                                                    key: EventKey)
    requires Execution(p, systems, steps) && k < |systems| && key in systems[k].eventArchives
    ensures TaskSettled(systems[k], key.0)
  {
    hide Transition, Runs.Initial, Guarded, TaskSettled;
    if k > 0 {
      if key in systems[k - 1].eventArchives {
        ArchivedEventsAreSettled(p, systems, steps, k - 1, key);
        AlwaysGuarded(p, systems, steps, k - 1);
        SettledStays(p, systems[k - 1], steps[k - 1], systems[k], key.0);
      } else {
        NewlyArchived(p, systems[k - 1], steps[k - 1], systems[k], key);
      }
    }
  }
}
