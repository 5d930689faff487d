/** Every store change the maintenance protocol makes is made of the store's own transactions, so what holds over runs
    of transactions holds over every execution of workers, approvals and callers. */
module Guarantees {
  import opened Types
  import opened Counting
  import opened Ordering
  import opened Store
  import opened Jobs
  import opened Protocol
  import opened Fencing
  import opened Reviews
  import Dream
  import Reconciliation
  import Remember
  import Runs
  import Effects

  /** At most two transactions: a change, and the accounting of a scan. */
  ghost predicate Commits(s: State, t: State) {
    s == t || Runs.Next(s, t) || exists m :: Runs.Next(s, m) && Runs.Next(m, t)
  }

  lemma AccountIsCommit(s: State, cursor: Key, dreamWrites: nat)
    requires Keyed(s) && dreamWrites <= s.writes
    ensures Runs.Next(s, s.(cursor := cursor, dreamWrites := dreamWrites))
  {
    assert Runs.Commit(s, Runs.Account(cursor, dreamWrites))
      == Result<State>.Ok(s.(cursor := cursor, dreamWrites := dreamWrites));
  }

  lemma AdvanceIsCommit(p: Policy, jobs: Table, s: State, plans: map<PlanId, Plan>, id: JobId, cursor: Key,
                        spare: JobId, now: Time)
    requires Inv(s) && id in jobs && RowReads(jobs[id].(result := Blank), s, plans)
    ensures
      var t := Advanced(jobs, s, id, cursor, p, spare, now).store;
      t == s || Runs.Next(s, t)
  {
    hide Inv, Scheduled, WindowKeys, Runs.Next, Keyed;
    InvParts(s);
    var payload := jobs[id].payload;
    if payload.Consolidation? && !payload.continued && payload.scan.Some? {
      var scan := payload.scan.value;
      var more := More(s, scan.end, cursor);
      CountersFit(s, scan);
      AccountIsCommit(s, Further(s.cursor, cursor), if more then s.dreamWrites else Max(s.dreamWrites, scan.writes));
    }
  }

  lemma CountersFit(s: State, scan: Scan)
    requires Inv(s) && ScanOk(scan, s)
    ensures Max(s.dreamWrites, scan.writes) <= s.writes && s.dreamWrites <= s.writes
  {
  }

  lemma ApplyIsCommit(plan: Plan, s: State, size: nat, vectors: seq<Vector>, now: Time)
    requires PlanOk(plan, s, size) && Keyed(s) && |vectors| == |plan.changes|
    requires Dream.ApplyPlan(s, plan.groups, plan.changes, vectors, now).Ok?
    ensures Runs.Next(s, Dream.ApplyPlan(s, plan.groups, plan.changes, vectors, now).value)
  {
    hide Inv, Store.Later, Dream.ApplyPlan, ScanOk, Runs.Next, Keyed;
    ConsolidateIsCommit(s, plan.groups, plan.changes, vectors, now);
  }

  lemma ApplyCommits(p: Policy, a: System, step: Step, b: System)
    requires Guarded(p, a) && Reads(p, a) && Transition(p, a, step, b) && step.ApplyPlan?
    ensures Commits(a.store, b.store)
  {
    hide Fenced, Drafts, Inv, PlansOk, RowsRead, ClaimsRead, Advanced, Dream.ApplyPlan, Applies, LogEntry, PlanOk,
         Runs.Next, RowReads, Store.Later;
    var id :| AppliesThis(p, a, step.token, id, step.vectors, step.spare, step.now, b);
    var plan := a.plans[id];
    var job := JobOf(a, step.token);
    PlanAt(a.plans, a.store, p.batchSize, id);
    ApplyIsCommit(plan, a.store, p.batchSize, step.vectors, step.now);
    ApplyStore(plan, a.store, p.batchSize, step.vectors, step.now);
    var t := Dream.ApplyPlan(a.store, plan.groups, plan.changes, step.vectors, step.now).value;
    PlansGrowReflexive(a.plans);
    RowsCarry(a.jobs, a.store, t, a.plans, a.plans);
    DreamResult(t, a.plans);
    FinishedReads(a.jobs, t, a.plans, job, Done, Consolidated(id));
    AdvanceIsCommit(p, a.jobs[job := Finished(a.jobs[job], Done, Consolidated(id))], t, a.plans, job, plan.cursor,
      step.spare, step.now);
  }

  lemma DreamResult(s: State, plans: map<PlanId, Plan>)
    ensures forall id :: ResultOk(Consolidated(id), s, plans)
  {
  }

  lemma OfferCommits(p: Policy, a: System, step: Step, b: System)
    requires Reads(p, a) && Transition(p, a, step, b) && step.OfferPlan?
    ensures Commits(a.store, b.store)
  {
    hide Inv, PlansOk, RowsRead, ClaimsRead, Advanced, Automatic, LogEntry, Runs.Next, RowReads;
    var claim := a.claims[step.token];
    var plan := a.plans[claim.stage.plan];
    var result := PlanOffered(claim.stage.plan, plan.generation, false);
    FinishedReads(a.jobs, a.store, a.plans, claim.job, Proposed, result);
    AdvanceIsCommit(p, a.jobs[claim.job := Finished(a.jobs[claim.job], Proposed, result)], a.store, a.plans, claim.job,
      plan.cursor, step.spare, step.now);
  }

  lemma PersistCommits(a: System, token: Token, vector: Vector, i: Remember.Inspection, d: Reconciliation.Decision,
                       now: Time, t: State)
    requires Inv(a.store) && Persists(a, token, vector, i, d, now, t)
    ensures Runs.Next(a.store, t)
  {
    hide Inv, Remember.Inspects, Remember.Persist, Remember.Decides, Runs.Commit, MemoryOf;
    var request := RequestOf(MemoryOf(a, token).value, vector, a.claims[token].result);
    Remember.PersistIsACommit(a.store, request, i, d, now);
    var allowed :| Runs.Commit(a.store, Runs.Event.Remember(request.memory, request.vector, d, allowed, now))
      == Remember.Persist(a.store, request, i, d, now);
    assert Runs.Admissible(Runs.Event.Remember(request.memory, request.vector, d, allowed, now));
  }

  lemma StepCommits(p: Policy, a: System, step: Step, b: System)
    requires Guarded(p, a) && Reads(p, a) && Transition(p, a, step, b)
    ensures Commits(a.store, b.store)
  {
    hide Guarded, PlansOk, RowsRead, ClaimsRead, AppliesPlan, OffersPlan, Persists, Permitted, Runs.Commit, Commits,
        Inv, Swept, Scheduled, IsPlan, DraftsByHand, AppliesByHand;
    match step
    case ApplyPlan(_, _, _, _) => ApplyCommits(p, a, step, b);
    case OfferPlan(_, _, _) => OfferCommits(p, a, step, b);
    case StoreCapture(token, vector, i, d, spare, now) =>
      var t :| Persists(a, token, vector, i, d, now, t) && StoresThis(p, a, token, i, d, spare, now, t, b);
      PersistCommits(a, token, vector, i, d, now, t);
      OneCommit(a.store, b.store);
    case Foreground(e, spare, now) =>
      assert Runs.Next(a.store, b.store);
      OneCommit(a.store, b.store);
    case DraftByHand(id, size, plan) => DraftByHandCommits(p, a, id, size, plan, b);
    case ApplyByHand(id, vectors, now) => ApplyByHandCommits(p, a, id, vectors, now, b);
    case _ => NoCommit(a.store);
  }

  lemma DraftByHandCommits(p: Policy, a: System, id: PlanId, size: nat, plan: Dream.SavedPlan, b: System)
    requires Reads(p, a) && DraftsByHand(a, id, size, plan, b)
    ensures Commits(a.store, b.store)
  {
    hide Reads, HandBatch, Runs.Next, Inv, Keyed;
    ReadsInv(p, a);
    InvParts(a.store);
    AccountIsCommit(a.store, a.store.cursor, plan.writes);
  }

  lemma ApplyByHandCommits(p: Policy, a: System, id: PlanId, vectors: seq<Vector>, now: Time, b: System)
    requires Reads(p, a) && AppliesByHand(a, id, vectors, now, b)
    ensures Commits(a.store, b.store)
  {
    hide Inv, PlansOk, RowsRead, ClaimsRead, Dream.ApplyPlan, Runs.Next, Keyed, HandmadeOk, Reconciliation.Kept;
    SavedIsOk(p, a, id);
    var plan := SavedAs(a, id).value;
    var mid := Dream.ApplyPlan(a.store, plan.groups, plan.changes, vectors, now).value;
    ConsolidateIsCommit(a.store, plan.groups, plan.changes, vectors, now);
    Dream.PlanKeeps(a.store, plan.groups, plan.changes, vectors, now);
    KeptIsLater(a.store, mid);
    CountsFit(mid);
    InvParts(mid);
    AccountIsCommit(mid, plan.cursor, Max(mid.dreamWrites, plan.writes));
  }

  lemma ConsolidateIsCommit(s: State, groups: seq<Dream.Group>, changes: seq<Dream.Change>, vectors: seq<Vector>,
                            now: Time)
    requires Keyed(s) && |vectors| == |changes| && Dream.ApplyPlan(s, groups, changes, vectors, now).Ok?
    requires forall i :: 0 <= i < |changes| ==> changes[i].memory.id != ""
    ensures Runs.Next(s, Dream.ApplyPlan(s, groups, changes, vectors, now).value)
  {
    hide Dream.ApplyPlan, Keyed;
    var e := Runs.Consolidate(groups, changes, vectors, now);
    assert Runs.Admissible(e);
    assert Runs.Commit(s, e) == Dream.ApplyPlan(s, groups, changes, vectors, now);
  }

  lemma OneCommit(s: State, t: State)
    requires Runs.Next(s, t)
    ensures Commits(s, t)
  {
  }

  lemma NoCommit(s: State)
    ensures Commits(s, s)
  {
  }

  lemma NextKeepsRule(s: State, t: State, rule: Rule)
    requires Inv(s) && Runs.Next(s, t) && Store.InForce(s, rule)
    ensures Store.InForce(t, rule) && Inv(t) && Evolves(s, t)
  {
    hide Inv, Runs.Commit, Store.InForce, Runs.Sound, Store.Later, Evolves;
    var e :| Runs.Admissible(e) && Runs.Commit(s, e) == Result<State>.Ok(t);
    Runs.CommitKeepsRule(s, e, rule);
    Runs.NextIsSound(s, t);
    Runs.SoundParts(s, t);
  }

  lemma CommitsKeepRule(s: State, t: State, rule: Rule)
    requires Inv(s) && Commits(s, t) && Store.InForce(s, rule)
    ensures Store.InForce(t, rule)
  {
    hide Inv, Store.InForce, Runs.Next, Evolves;
    if s != t && !Runs.Next(s, t) {
      var m :| Runs.Next(s, m) && Runs.Next(m, t);
      NextKeepsRule(s, m, rule);
      NextKeepsRule(m, t, rule);
    } else if s != t {
      NextKeepsRule(s, t, rule);
    }
  }

  /** Through every interleaving of captures, dreams, reviews, retries, expiries and foreground writes, a rule the user
      stated explicitly stays in force. */
  lemma {:induction false} ExplicitRulesSurviveMaintenance(p: Policy, systems: seq<System>, steps: seq<Step>, i: nat,
      k: nat, rule: Rule)
    requires Execution(p, systems, steps) && i <= k < |systems| && Store.InForce(systems[i].store, rule)
    ensures Store.InForce(systems[k].store, rule)
    decreases k
  {
    hide Start, Transition, Guarded, Reads, Store.InForce, Commits;
    if i < k {
      ExplicitRulesSurviveMaintenance(p, systems, steps, i, k - 1, rule);
      Effects.AlwaysGuarded(p, systems, steps, k - 1);
      AlwaysReads(p, systems, steps, k - 1);
      StepCommits(p, systems[k - 1], steps[k - 1], systems[k]);
      ReadsInv(p, systems[k - 1]);
      CommitsKeepRule(systems[k - 1].store, systems[k].store, rule);
    }
  }

  lemma ReadsInv(p: Policy, a: System)
    requires Reads(p, a)
    ensures Inv(a.store)
  {
  }
}
