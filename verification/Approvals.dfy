/** What the worker may do without a review, and what an accepted review brings about (`memory_core/runtime/worker.py`,
    the review of `memory_core/runtime/core.py`). */
module Approvals {
  import opened Types
  import opened Store
  import opened Reconciliation
  import opened Jobs
  import opened Protocol
  import opened Fencing
  import opened Reviews
  import Dream
  import Effects
  import Fields
  import Planner
  import Remember
  import Runs

  // ---------- captures without a review ----------

  /** A neighbour the capture inspected, saying the same. */
  predicate InspectedTwin(neighbors: seq<Memory>, id: Id, m: Memory) {
    exists k :: 0 <= k < |neighbors| && neighbors[k].id == id && SaysTheSame(m, neighbors[k])
  }

  /** What may come of a capture nobody reviewed: no row leaves Active, no link is added, and at most one row is
      revised, an inspected neighbour that says the same, under the policy for exact duplicates. */
  ghost predicate Harmless(p: Policy, a: State, b: State, m: Memory, neighbors: seq<Memory>) {
    && a.archives == b.archives
    && (forall id :: id in a.rows ==>
          && id in b.rows
          && (a.rows[id].memory.status == Active ==> b.rows[id].memory.status == Active)
          && (b.rows[id] != a.rows[id] ==>
                p.applyExact && a.rows[id].memory in neighbors && InspectedTwin(neighbors, id, m)
                && SaysTheSame(b.rows[id].memory, a.rows[id].memory)))
    && (forall x, y :: x in a.rows && y in a.rows && b.rows[x] != a.rows[x] && b.rows[y] != a.rows[y] ==> x == y)
    && (forall id :: id in b.rows && Present(b.rows[id].memory.supersedes) ==>
          id in a.rows && a.rows[id].memory.supersedes == b.rows[id].memory.supersedes)
  }

  lemma NeighborsAreRows(s: State, request: Remember.Request, i: Remember.Inspection, k: nat)
    requires Remember.Inspects(s, request, i) && k < |i.neighbors|
    ensures i.neighbors[k].id in s.rows && s.rows[i.neighbors[k].id].memory == i.neighbors[k]
  {
  }

  lemma AcceptedIsUnlinked(s: State, request: Remember.Request, i: Remember.Inspection)
    requires Remember.Inspects(s, request, i)
    ensures !Present(i.memory.supersedes)
  {
    hide Fields.NormalizeMemory;
  }

  lemma SettledIsHarmless(p: Policy, s: State, request: Remember.Request, i: Remember.Inspection, d: Decision,
                          now: Time, m: Memory)
    requires Inv(s) && Remember.Inspects(s, request, i) && Remember.Persist(s, request, i, d, now).Ok?
    requires request.memory.id != ""
      && (d.Create? || (p.applyExact && d.Attach? && InspectedTwin(i.neighbors, d.target, m)))
    ensures Harmless(p, s, Remember.Persist(s, request, i, d, now).value, m, i.neighbors)
  {
    hide Inv, Remember.Inspects, Remember.Persist;
    Remember.PersistSettles(s, request, i, d, now);
    AcceptedIsUnlinked(s, request, i);
    if d.Attach? {
      var k :| 0 <= k < |i.neighbors| && i.neighbors[k].id == d.target && SaysTheSame(m, i.neighbors[k]);
      NeighborsAreRows(s, request, i, k);
      assert s.rows[d.target].memory in i.neighbors;
    }
  }

  lemma UnreviewedDecision(p: Policy, m: Memory, i: Remember.Inspection, d: Decision, result: JobResult)
    requires Permitted(p, m, i, d, result) && !p.applySemantic && !(result.Suggested? && result.approved)
    requires !result.PlanOffered?
    ensures d.Create? || (p.applyExact && d.Attach? && InspectedTwin(i.neighbors, d.target, m))
  {
    if !d.Create? {
      var k :| 0 <= k < |i.neighbors| && i.neighbors[k].id == d.target && Equivalent(m, i.neighbors[k]);
      assert SaysTheSame(m, i.neighbors[k]);
    }
  }

  lemma UnreviewedStep(p: Policy, a: System, step: Step, b: System)
    requires Guarded(p, a) && Reads(p, a) && Transition(p, a, step, b) && step.StoreCapture? && !p.applySemantic
    requires step.token in a.claims && !(a.claims[step.token].result.Suggested? && a.claims[step.token].result.approved)
    ensures MemoryOf(a, step.token).Some?
    ensures Harmless(p, a.store, b.store, MemoryOf(a, step.token).value, step.inspection.neighbors)
  {
    hide Fenced, Drafts, PlansOk, RowsRead, ClaimsRead, HandmadeOk, Inv, Remember.Inspects, Remember.Persist,
         Remember.Decides, MemoryOf, Permitted, Scheduled, Harmless;
    var t :| Persists(a, step.token, step.vector, step.inspection, step.decision, step.now, t)
          && StoresThis(p, a, step.token, step.inspection, step.decision, step.spare, step.now, t, b);
    CapturesHold(a, step.token, step.vector, step.inspection, step.decision, step.now, t);
    CaptureResult(p, a, step.token, step.now);
    var m := MemoryOf(a, step.token).value;
    UnreviewedDecision(p, m, step.inspection, step.decision, a.claims[step.token].result);
    SettledIsHarmless(p, a.store, RequestOf(m, step.vector, a.claims[step.token].result), step.inspection,
      step.decision,
      step.now, m);
  }

  /** A worker that holds a capture job carries no plan. */
  lemma CaptureResult(p: Policy, a: System, token: Token, now: Time)
    requires Guarded(p, a) && Holding(a, token, now) && a.jobs[JobOf(a, token)].payload.Evidence?
    ensures !a.claims[token].result.PlanOffered?
  {
    hide Fenced, Drafts;
    RowAt(p, a.jobs, a.claims, JobOf(a, token));
  }

  /** In every execution, while semantic changes are not applied: a capture whose claim was not approved takes no row
      out of Active and adds no link, and it revises an existing row only under the policy for exact duplicates, and
      only an inspected neighbour with the capture's own scope, status, summary, metadata and content. */
  lemma UnreviewedCapturesAreHarmless(p: Policy, systems: seq<System>, steps: seq<Step>, k: nat)
    requires Execution(p, systems, steps) && k < |steps| && steps[k].StoreCapture? && !p.applySemantic
    requires
      var claims, token := systems[k].claims, steps[k].token;
      token in claims && !(claims[token].result.Suggested? && claims[token].result.approved)
    ensures MemoryOf(systems[k], steps[k].token).Some?
    ensures Harmless(p, systems[k].store, systems[k + 1].store, MemoryOf(systems[k], steps[k].token).value,
              steps[k].inspection.neighbors)
  {
    hide Start, Transition, Guarded, Reads, Harmless, MemoryOf;
    Effects.AlwaysGuarded(p, systems, steps, k);
    AlwaysReads(p, systems, steps, k);
    TransitionAt(p, systems, steps, k);
    UnreviewedStep(p, systems[k], steps[k], systems[k + 1]);
  }

  /** Creating a record, an approved decision, semantic changes applied, and an exact duplicate under its policy are
      never put up for review. */
  lemma OnlyTheRestIsDrafted(p: Policy, a: System, step: Step, b: System)
    requires Transition(p, a, step, b) && step.DraftCapture?
    ensures step.token in a.claims && MemoryOf(a, step.token).Some?
    ensures
      var result, d := a.claims[step.token].result, step.decision;
      && !d.Create? && !p.applySemantic && !(result.Suggested? && result.approved)
      && !(p.applyExact && d.Attach?
        && InspectedTwin(step.inspection.neighbors, d.target, MemoryOf(a, step.token).value))
  {
    hide Persists, MemoryOf;
    var t :| Persists(a, step.token, step.vector, step.inspection, step.decision, step.now, t)
          && DraftsThis(p, a, step.token, step.inspection, step.decision, t, b);
    var m := MemoryOf(a, step.token).value;
    var i, d := step.inspection, step.decision;
    if d.Attach? && InspectedTwin(i.neighbors, d.target, m) { TwinIsExact(m, i, d); }
  }

  lemma TwinIsExact(m: Memory, i: Remember.Inspection, d: Decision)
    requires d.Attach? && InspectedTwin(i.neighbors, d.target, m)
    ensures ExactAttach(m, i, d)
  {
    var k :| 0 <= k < |i.neighbors| && i.neighbors[k].id == d.target && SaysTheSame(m, i.neighbors[k]);
    assert Equivalent(m, i.neighbors[k]);
  }

  /** And each of them can be stored. */
  lemma TheRestIsStored(p: Policy, a: System, token: Token, vector: Vector, i: Remember.Inspection, d: Decision,
                        spare: JobId, now: Time, t: State) returns (b: System)
    requires Holding(a, token, now) && spare !in a.jobs && Persists(a, token, vector, i, d, now, t)
    requires
      var result := a.claims[token].result;
      || d.Create? || p.applySemantic || (result.Suggested? && result.approved)
      || (p.applyExact && d.Attach? && MemoryOf(a, token).Some?
          && InspectedTwin(i.neighbors, d.target, MemoryOf(a, token).value))
    ensures Transition(p, a, StoreCapture(token, vector, i, d, spare, now), b) && b.store == t
    ensures JobOf(a, token) in b.jobs && b.jobs[JobOf(a, token)].status == Done
    ensures b.jobs[JobOf(a, token)].result.Stored?
  {
    hide Persists, MemoryOf, ExactAttach, InspectedTwin, Scheduled, Transition;
    CaptureHasMemory(a, token, vector, i, d, now, t);
    var m := MemoryOf(a, token).value;
    if d.Attach? && InspectedTwin(i.neighbors, d.target, m) { TwinIsExact(m, i, d); }
    b := PermittedIsStored(p, a, token, vector, i, d, spare, now, t);
  }

  lemma PermittedIsStored(p: Policy, a: System, token: Token, vector: Vector, i: Remember.Inspection, d: Decision,
                          spare: JobId, now: Time, t: State) returns (b: System)
    requires Holding(a, token, now) && spare !in a.jobs && Persists(a, token, vector, i, d, now, t)
    requires MemoryOf(a, token).Some? && Permitted(p, MemoryOf(a, token).value, i, d, a.claims[token].result)
    ensures Transition(p, a, StoreCapture(token, vector, i, d, spare, now), b) && b.store == t
    ensures JobOf(a, token) in b.jobs && b.jobs[JobOf(a, token)].status == Done
    ensures b.jobs[JobOf(a, token)].result.Stored?
  {
    hide Persists, MemoryOf, Permitted, Scheduled;
    var id := JobOf(a, token);
    ScheduleOthers(p, a.jobs, t, spare, now, id);
    var jobs := Scheduled(a.jobs, t, p, spare, now);
    b := a.(store := t, jobs :=
      jobs[id := Finished(a.jobs[id], Done, Stored(if d.Attach? then d.target else i.memory.id))],
            stored := a.stored + [id]);
    assert StoresThis(p, a, token, i, d, spare, now, t, b);
  }

  lemma CaptureHasMemory(a: System, token: Token, vector: Vector, i: Remember.Inspection, d: Decision, now: Time,
                         t: State)
    requires Persists(a, token, vector, i, d, now, t)
    ensures MemoryOf(a, token).Some?
  {
  }

  // ---------- plans without a review ----------

  /** The record is as it was, but for its status, its evidence and its version. */
  predicate SameRecord(u: Row, v: Row) {
    && u.embedding == v.embedding
    && u.memory == v.memory.(status := u.memory.status, sourceRefs := u.memory.sourceRefs, revision :=
      u.memory.revision,
                             updatedAt := u.memory.updatedAt)
  }

  /** Another record, active before and after, said the same and now carries the evidence of both. */
  ghost predicate LivesOn(a: State, b: State, ids: set<Id>, id: Id)
    requires id in a.rows
  {
    exists t :: t in ids && t != id && t in a.rows && t in b.rows && b.rows[t].memory.status == Active
             && SaysTheSame(a.rows[id].memory, a.rows[t].memory)
             && forall x :: x in a.rows[id].memory.sourceRefs || x in a.rows[t].memory.sourceRefs ==>
                  x in b.rows[t].memory.sourceRefs
  }

  /** Only exact duplicates were merged: no record appears or disappears, what changed was active and says what it said,
      and what is active no longer is superseded and lives on in its duplicate. */
  ghost predicate Condensed(a: State, b: State, ids: set<Id>) {
    && b.rows.Keys == a.rows.Keys && b.archives == a.archives
    && forall id :: id in a.rows && b.rows[id] != a.rows[id] ==>
         && id in ids && a.rows[id].memory.status == Active && SameRecord(b.rows[id], a.rows[id])
         && (b.rows[id].memory.status == Active || (b.rows[id].memory.status == Superseded && LivesOn(a, b, ids, id)))
  }

  ghost predicate OnlyMerges(a: State, b: State) {
    exists ids :: Condensed(a, b, ids)
  }

  /** The change retires a scanned record into a neighbour read with it that says the same. */
  ghost predicate RetiresTwin(groups: seq<Dream.Group>, c: Dream.Change) {
    && c.decision.Attach?
    && exists i, j :: 0 <= i < |groups| && 0 <= j < |groups[i].neighbors| && groups[i].memory.id == c.memory.id
                   && groups[i].neighbors[j].id == c.decision.target && SaysTheSame(c.memory, groups[i].neighbors[j])
  }

  lemma TwinChange(groups: seq<Dream.Group>, c: Dream.Change)
    ensures ExactChange(groups, c) <==> RetiresTwin(groups, c)
  {
    if ExactChange(groups, c) {
      var i, j :| 0 <= i < |groups| && 0 <= j < |groups[i].neighbors| && groups[i].memory.id == c.memory.id
                && groups[i].neighbors[j].id == c.decision.target && Equivalent(c.memory, groups[i].neighbors[j]);
      assert SaysTheSame(c.memory, groups[i].neighbors[j]);
    }
    if RetiresTwin(groups, c) {
      var i, j :| 0 <= i < |groups| && 0 <= j < |groups[i].neighbors| && groups[i].memory.id == c.memory.id
                && groups[i].neighbors[j].id == c.decision.target && SaysTheSame(c.memory, groups[i].neighbors[j]);
      assert Equivalent(c.memory, groups[i].neighbors[j]);
    }
  }

  lemma MergeCondenses(start: State, s: State, touched: set<Id>, source: Memory, target: Memory, now: int)
    requires Condensed(start, s, touched) && source.id !in touched && target.id !in touched
    requires source.id in start.rows && start.rows[source.id].memory == source && source.status == Active
    requires target.id in start.rows && start.rows[target.id].memory == target && target.status == Active
    requires SaysTheSame(source, target)
    ensures Condensed(start, Dream.Merge(s, source, target, now), touched + {target.id, source.id})
  {
    hide SaysTheSame, SameRecord, LivesOn;
    var t, ids := Dream.Merge(s, source, target, now), touched + {target.id, source.id};
    assert s.rows[source.id] == start.rows[source.id] && s.rows[target.id] == start.rows[target.id];
    MergedPair(start, s, source, target, now);
    Dream.MergeTouches(s, source, target, now);
    if source.id != target.id { Survivor(start, t, ids, source.id, target.id); }
    forall id | id in start.rows && t.rows[id] != start.rows[id]
      ensures id in ids && start.rows[id].memory.status == Active && SameRecord(t.rows[id], start.rows[id])
      ensures t.rows[id].memory.status == Active
        || (t.rows[id].memory.status == Superseded && LivesOn(start, t, ids, id))
    {
      if id != source.id && id != target.id && s.rows[id].memory.status != Active {
        LivesOnLater(start, s, t, touched, ids, id);
      }
    }
  }

  lemma Survivor(a: State, b: State, ids: set<Id>, id: Id, t: Id)
    requires id in a.rows && t in ids && t != id && t in a.rows && t in b.rows && b.rows[t].memory.status == Active
    requires SaysTheSame(a.rows[id].memory, a.rows[t].memory)
    requires forall x :: x in a.rows[id].memory.sourceRefs || x in a.rows[t].memory.sourceRefs ==>
               x in b.rows[t].memory.sourceRefs
    ensures LivesOn(a, b, ids, id)
  {
  }

  lemma LivesOnLater(a: State, s: State, t: State, ids: set<Id>, more: set<Id>, id: Id)
    requires id in a.rows && LivesOn(a, s, ids, id) && ids <= more
    requires forall x :: x in ids && x in s.rows ==> x in t.rows && t.rows[x] == s.rows[x]
    ensures LivesOn(a, t, more, id)
  {
  }

  /** The two rows of a merge. */
  lemma MergedPair(start: State, s: State, source: Memory, target: Memory, now: int)
    requires source.id in start.rows && source.id in s.rows && s.rows[source.id] == start.rows[source.id]
    requires target.id in start.rows && target.id in s.rows && s.rows[target.id] == start.rows[target.id]
    requires s.rows[source.id].memory == source && s.rows[target.id].memory == target && target.status == Active
    ensures
      var t := Dream.Merge(s, source, target, now);
      && SameRecord(t.rows[source.id], start.rows[source.id]) && SameRecord(t.rows[target.id], start.rows[target.id])
      && t.rows[target.id].memory.status == Active
        && (source.id != target.id ==> t.rows[source.id].memory.status == Superseded)
      && forall x :: x in source.sourceRefs || x in target.sourceRefs ==> x in t.rows[target.id].memory.sourceRefs
  {
  }

  lemma ChangeCondenses(start: State, p: Dream.Progressed, groups: seq<Dream.Group>, allowed: set<Id>, c: Dream.Change,
                        v: Vector, now: int)
    requires Keyed(start) && Condensed(start, p.state, p.touched) && Planner.ReadFrom(start, groups)
      && RetiresTwin(groups, c)
    requires start.rows.Keys <= p.state.rows.Keys
    requires Dream.ApplyChange(start, p.state, p.touched, Dream.Originals(groups), allowed, c, v, now).Ok?
    ensures
      var r := Dream.ApplyChange(start, p.state, p.touched, Dream.Originals(groups), allowed, c, v, now).value;
      Condensed(start, r.state, r.touched)
  {
    hide Fields.NormalizeMemory, Condensed, Dream.Merge, Reconcile, SaysTheSame;
    var m := Fields.NormalizeMemory(start.registry, c.memory).value;
    Fields.NormalizedKeepsId(start.registry, c.memory);
    assert m.id in start.rows && start.rows[m.id].memory.status == Active;
    Dream.MergesOnlyDuplicates(start, p.state, p.touched, Dream.Originals(groups), allowed, c, v, now);
    var target := start.rows[c.decision.target].memory;
    assert SaysTheSame(m, target) by { Explicitly(m, target); }
    MergeCondenses(start, p.state, p.touched, m, target, now);
  }

  lemma Explicitly(m: Memory, n: Memory)
    requires m.scope == n.scope && m.status == n.status && m.summary == n.summary && m.metadata == n.metadata
    requires m.content == n.content
    ensures SaysTheSame(m, n)
  {
  }

  lemma {:induction false} ChangesCondense(start: State, groups: seq<Dream.Group>, changes: seq<Dream.Change>,
                                           vectors: seq<Vector>, now: int)
    requires Keyed(start) && |changes| == |vectors| && Planner.ReadFrom(start, groups)
    requires forall i :: 0 <= i < |changes| ==> RetiresTwin(groups, changes[i])
    requires Dream.ApplyChanges(start, Dream.Progressed(start, {}), Dream.Originals(groups), Dream.Candidates(groups),
      changes,
               vectors, now).Ok?
    ensures
      var r := Dream.ApplyChanges(start, Dream.Progressed(start, {}), Dream.Originals(groups), Dream.Candidates(groups),
                 changes, vectors, now).value;
      Condensed(start, r.state, r.touched)
    decreases |changes|
  {
    hide Dream.ApplyChange, RetiresTwin, Planner.ReadFrom;
    if changes != [] {
      hide Condensed;
      var n := |changes| - 1;
      ChangesCondense(start, groups, changes[..n], vectors[..n], now);
      var before := Dream.ApplyChanges(start, Dream.Progressed(start, {}), Dream.Originals(groups),
        Dream.Candidates(groups),
                      changes[..n], vectors[..n], now).value;
      ChangeCondenses(start, before, groups, Dream.Candidates(groups), changes[n], vectors[n], now);
    }
  }

  lemma PlanCondenses(start: State, groups: seq<Dream.Group>, changes: seq<Dream.Change>, vectors: seq<Vector>,
                      now: int)
    requires Keyed(start) && |changes| == |vectors| && Planner.ReadFrom(start, groups)
    requires forall i :: 0 <= i < |changes| ==> RetiresTwin(groups, changes[i])
    requires Dream.ApplyPlan(start, groups, changes, vectors, now).Ok?
    ensures OnlyMerges(start, Dream.ApplyPlan(start, groups, changes, vectors, now).value)
  {
    hide Dream.ApplyChanges, RetiresTwin;
    ChangesCondense(start, groups, changes, vectors, now);
    var r := Dream.ApplyChanges(start, Dream.Progressed(start, {}), Dream.Originals(groups), Dream.Candidates(groups),
      changes,
               vectors, now).value;
    CondensedRows(start, r.state, Bump(r.state, "dream_applied", [], false), r.touched);
  }

  lemma CondensedRows(a: State, s: State, t: State, ids: set<Id>)
    requires Condensed(a, s, ids) && t.rows == s.rows && t.archives == s.archives
    ensures Condensed(a, t, ids)
  {
    hide SameRecord, SaysTheSame;
    forall id | id in a.rows && s.rows[id] != a.rows[id] && LivesOn(a, s, ids, id) ensures LivesOn(a, t, ids, id) {
      LivesOnLater(a, s, t, ids, ids, id);
    }
  }

  lemma AdvancedRows(jobs: Table, s: State, id: JobId, cursor: Key, p: Policy, spare: JobId, now: Time)
    requires id in jobs
    ensures
      var t := Advanced(jobs, s, id, cursor, p, spare, now).store;
      t.rows == s.rows && t.archives == s.archives
  {
    hide More, Scheduled;
  }

  lemma ReadFromSame(s: State, t: State, groups: seq<Dream.Group>)
    requires Planner.ReadFrom(s, groups) && SameContents(s, t)
    ensures Planner.ReadFrom(t, groups)
  {
  }

  lemma UnreviewedPlan(p: Policy, plan: Plan)
    requires Automatic(p, plan) && !p.applySemantic
    ensures forall i :: 0 <= i < |plan.changes| ==> RetiresTwin(plan.groups, plan.changes[i])
    ensures plan.changes == [] || p.applyExact
  {
    hide ExactChange, RetiresTwin;
    forall i | 0 <= i < |plan.changes| ensures RetiresTwin(plan.groups, plan.changes[i]) {
      TwinChange(plan.groups, plan.changes[i]);
    }
  }

  lemma EmptyPlanKeepsRows(start: State, groups: seq<Dream.Group>, vectors: seq<Vector>, now: int)
    requires Keyed(start) && vectors == []
    ensures
      var r := Dream.ApplyPlan(start, groups, [], vectors, now);
      r.Ok? && r.value.rows == start.rows
  {
  }

  lemma PlanBasis(p: Policy, a: System, id: PlanId)
    requires Reads(p, a) && id in a.plans && a.store.generation == a.plans[id].generation
    ensures Planner.ReadFrom(a.store, a.plans[id].groups) && Keyed(a.store)
  {
    hide RowsRead, ClaimsRead, HandmadeOk, ScanOk, Inv, Store.Later, Planner.ReadFrom;
    PlanAt(a.plans, a.store, p.batchSize, id);
    Remember.LaterSame(a.plans[id].basis, a.store);
    ReadFromSame(a.plans[id].basis, a.store, a.plans[id].groups);
    InvParts(a.store);
  }

  lemma UnreviewedApply(p: Policy, a: System, step: Step, b: System)
    requires Reads(p, a) && Transition(p, a, step, b) && step.ApplyPlan? && !p.applySemantic
    requires step.token in a.claims
      && !(a.claims[step.token].result.PlanOffered? && a.claims[step.token].result.approved)
    requires Approved(a.claims[step.token].result) ==> a.claims[step.token].result.PlanOffered?
    ensures OnlyMerges(a.store, b.store)
    ensures b.store.rows != a.store.rows ==> p.applyExact
  {
    hide Reads, Keyed, Dream.ApplyPlan, Advanced, Automatic, LogEntry, Condensed, RetiresTwin, Planner.ReadFrom;
    var id :| AppliesThis(p, a, step.token, id, step.vectors, step.spare, step.now, b);
    var plan, job := a.plans[id], JobOf(a, step.token);
    PlanBasis(p, a, id);
    UnreviewedPlan(p, plan);
    PlanCondenses(a.store, plan.groups, plan.changes, step.vectors, step.now);
    var t := Dream.ApplyPlan(a.store, plan.groups, plan.changes, step.vectors, step.now).value;
    if plan.changes == [] { EmptyPlanKeepsRows(a.store, plan.groups, step.vectors, step.now); }
    AdvancedRows(a.jobs[job := Finished(a.jobs[job], Done, Consolidated(id))], t, job, plan.cursor, p, step.spare,
      step.now);
    var ids :| Condensed(a.store, t, ids);
    CondensedRows(a.store, t, b.store, ids);
  }

  /** A worker at a dream job carries no approved suggestion. */
  lemma DreamResult(p: Policy, a: System, step: Step, b: System)
    requires Guarded(p, a) && Transition(p, a, step, b) && step.ApplyPlan?
    ensures step.token in a.claims
    ensures Approved(a.claims[step.token].result) ==> a.claims[step.token].result.PlanOffered?
  {
    hide Fenced, Drafts, Dream.ApplyPlan, Advanced, Automatic;
    var id :| AppliesThis(p, a, step.token, id, step.vectors, step.spare, step.now, b);
  }

  /** In every execution, while semantic changes are not applied: a plan nobody approved only merges exact duplicates,
      and only under the policy for them. */
  lemma UnreviewedPlansOnlyMerge(p: Policy, systems: seq<System>, steps: seq<Step>, k: nat)
    requires Execution(p, systems, steps) && k < |steps| && steps[k].ApplyPlan? && !p.applySemantic
    requires
      var claims, token := systems[k].claims, steps[k].token;
      token in claims && !(claims[token].result.PlanOffered? && claims[token].result.approved)
    ensures OnlyMerges(systems[k].store, systems[k + 1].store)
    ensures systems[k + 1].store.rows != systems[k].store.rows ==> p.applyExact
  {
    hide Start, Transition, Guarded, Reads, Condensed;
    Effects.AlwaysGuarded(p, systems, steps, k);
    AlwaysReads(p, systems, steps, k);
    TransitionAt(p, systems, steps, k);
    DreamResult(p, systems[k], steps[k], systems[k + 1]);
    UnreviewedApply(p, systems[k], steps[k], systems[k + 1]);
  }

  /** A plan is put up for review only if it changes something, semantic changes are not applied, and duplicates are not
      either or some change is not the retirement of one. */
  lemma OnlyTheRestIsOffered(p: Policy, a: System, step: Step, b: System)
    requires Transition(p, a, step, b) && step.OfferPlan?
    ensures step.token in a.claims && a.claims[step.token].stage.Planned? && a.claims[step.token].stage.plan in a.plans
    ensures
      var plan := a.plans[a.claims[step.token].stage.plan];
      && plan.changes != [] && !p.applySemantic
      && (p.applyExact ==> exists i :: 0 <= i < |plan.changes| && !RetiresTwin(plan.groups, plan.changes[i]))
  {
    hide ExactChange, RetiresTwin, Advanced, LogEntry;
    var plan := a.plans[a.claims[step.token].stage.plan];
    if p.applyExact {
      var i :| 0 <= i < |plan.changes| && !ExactChange(plan.groups, plan.changes[i]);
      TwinChange(plan.groups, plan.changes[i]);
    }
  }

  // ---------- what a capture stores ----------

  /** A capture that adds a record adds the report as it was captured: an observation of its summary, made when it was
      captured, in the project of its task or the user's own scope, resting on the evidence reported or, if there was
      none, on the task, with the task's attributes under their registered names. */
  lemma CapturesStoreTheReport(p: Policy, a: System, step: Step, b: System)
    requires Guarded(p, a) && Reads(p, a) && Transition(p, a, step, b) && step.StoreCapture? && !step.decision.Attach?
    ensures step.token in a.claims && JobOf(a, step.token) in a.jobs && JobOf(a, step.token) in b.store.rows
    ensures
      var id, job := JobOf(a, step.token), a.jobs[JobOf(a, step.token)];
      && id !in a.store.rows && job.payload.Evidence? && job.task.Some? && job.task.value in a.tasks
      && var task, report := a.tasks[job.task.value], job.payload.report;
      var m := b.store.rows[id].memory;
      && m.id == id && m.content == Observed(report.summary, report.capturedAt) && m.summary == report.summary
      && m.scope == (if task.project.Some? then ProjectScope(task.project.value) else UserScope)
      && m.sourceRefs == (if report.sources == [] then ["task:" + job.task.value] else report.sources)
      && m.createdAt == report.capturedAt && m.updatedAt == report.capturedAt && m.revision == 1
      && Fields.NormalizeData(a.store.registry, task.attributes, false) == Ok(m.metadata)
      && m.status == (if step.decision.FlagConflict? then Disputed else Active)
      && m.supersedes == (if step.decision.Supersede? then Some(step.decision.target) else None)
      && b.store.rows[id].embedding == Some(step.vector)
  {
    hide Fenced, Drafts, PlansOk, RowsRead, ClaimsRead, HandmadeOk, Inv, Remember.Inspects, Remember.Persist,
         Remember.Decides, Permitted, Scheduled, Fields.NormalizeData;
    var t :| Persists(a, step.token, step.vector, step.inspection, step.decision, step.now, t)
          && StoresThis(p, a, step.token, step.inspection, step.decision, step.spare, step.now, t, b);
    CapturesHold(a, step.token, step.vector, step.inspection, step.decision, step.now, t);
    NewcomerIsStored(a.store, RequestOf(MemoryOf(a, step.token).value, step.vector, a.claims[step.token].result),
      step.inspection, step.decision, step.now);
  }

  lemma NewcomerIsStored(s: State, request: Remember.Request, i: Remember.Inspection, d: Decision, now: Time)
    requires Inv(s) && Remember.Inspects(s, request, i) && Remember.Persist(s, request, i, d, now).Ok? && !d.Attach?
    requires request.memory.id != "" && request.memory.content.Observed?
    requires request.memory.status == Active && request.memory.supersedes == None
    ensures
      var t, m := Remember.Persist(s, request, i, d, now).value, request.memory;
      && m.id !in s.rows && m.id in t.rows
      && var u := t.rows[m.id];
      && u.embedding == Some(request.vector)
      && Fields.NormalizeData(s.registry, m.metadata, false) == Ok(u.memory.metadata)
      && u.memory == m.(metadata := u.memory.metadata, status := if d.FlagConflict? then Disputed else Active,
                        supersedes := if d.Supersede? then Some(d.target) else None)
  {
    hide Inv, Remember.Inspects, Remember.Persist, Fields.NormalizeData;
    Remember.PersistSettles(s, request, i, d, now);
    ObservationIsNormalized(s, request, i);
  }

  lemma ObservationIsNormalized(s: State, request: Remember.Request, i: Remember.Inspection)
    requires Remember.Inspects(s, request, i) && request.memory.content.Observed?
    ensures Fields.NormalizeData(s.registry, request.memory.metadata, false) == Ok(i.memory.metadata)
    ensures i.memory == request.memory.(metadata := i.memory.metadata)
  {
    hide Fields.NormalizeData;
  }

  // ---------- what a review records ----------

  /** An accepted proposal is pending again and says approved, a refused one is rejected and does not; decision,
      generation and plan stay as they were proposed. */
  lemma ReviewsRecord(p: Policy, a: System, step: Step, b: System)
    requires Transition(p, a, step, b) && step.Review?
    ensures step.job in a.jobs && step.job in b.jobs && b.store == a.store
    ensures b == a.(jobs := a.jobs[step.job := b.jobs[step.job]])
    ensures
      var x, y := a.jobs[step.job], b.jobs[step.job];
      && x.status == Proposed && y.status == (if step.accept then Pending else Rejected)
      && y == x.(status := y.status, attempts := 0, available := 0, result := y.result)
      && match x.result
         case Suggested(d, g, _, basis) => y.result == Suggested(d, g, step.accept, basis)
         case PlanOffered(plan, g, _) => y.result == PlanOffered(plan, g, step.accept)
         case _ => y.result == x.result
  {
  }

  /** A proposal can always be refused, and accepted exactly while nothing was stored since it was made. */
  lemma ReviewsArePossible(p: Policy, a: System, id: JobId, accept: bool)
    requires id in a.jobs && a.jobs[id].status == Proposed
      && (a.jobs[id].result.Suggested? || a.jobs[id].result.PlanOffered?)
    ensures (exists b :: Transition(p, a, Step.Review(id, accept), b)) <==>
      !accept || a.jobs[id].result.generation == a.store.generation
  {
    if !accept || a.jobs[id].result.generation == a.store.generation {
      var b := a.(jobs := a.jobs[id := Reviewed(a.jobs[id], accept)]);
      assert Transition(p, a, Step.Review(id, accept), b);
    }
  }

  // ---------- a proposal can be stored ----------

  /** The decision was a whole commit on this state. */
  ghost predicate Proposable(m: Memory, d: Decision, basis: State) {
    && m.id != "" && Keyed(basis)
    && exists i, vector, now ::
         var request := Remember.Request(m, vector, None, None);
         Remember.Inspects(basis, request, i) && Remember.Persist(basis, request, i, d, now).Ok?
  }

  ghost predicate ResultBacked(a: System, id: JobId, o: JobResult) {
    o.Suggested? ==> MemoryFor(a, id).Some? && Proposable(MemoryFor(a, id).value, o.decision, o.basis)
  }

  /** Every suggestion of an unfinished job, recorded or still with its worker, could be stored when it was made. */
  ghost predicate Backed(a: System) {
    && (forall id :: id in a.jobs && a.jobs[id].status != Done ==> ResultBacked(a, id, a.jobs[id].result))
    && (forall t :: t in a.claims && a.claims[t].stage.Drafted? && a.claims[t].job in a.jobs
                    && a.jobs[a.claims[t].job].status != Done ==>
          ResultBacked(a, a.claims[t].job, a.claims[t].stage.proposal))
  }

  ghost predicate TasksGrow(x: map<Task, TaskRow>, y: map<Task, TaskRow>) {
    forall t :: t in x ==> t in y && y[t].attributes == x[t].attributes && y[t].project == x[t].project
  }

  lemma MemoryStays(a: System, b: System, id: JobId)
    requires Grows(a.jobs, b.jobs) && TasksGrow(a.tasks, b.tasks) && MemoryFor(a, id).Some?
    requires id in b.jobs && b.jobs[id].status != Done
    ensures MemoryFor(b, id) == MemoryFor(a, id)
  {
    assert RowGrows(a.jobs[id], b.jobs[id]);
  }

  /** Where the suggestions of a step's outcome come from. */
  ghost predicate SuggestionsStay(a: System, b: System) {
    && (forall id :: id in b.jobs && b.jobs[id].result.Suggested? ==>
          && id in a.jobs
          && (SameSuggestion(b.jobs[id].result, a.jobs[id].result)
              || exists t :: t in a.claims && a.claims[t].job == id && a.claims[t].stage == Drafted(b.jobs[id].result)))
    && (forall t :: t in b.claims && b.claims[t].stage.Drafted? ==> t in a.claims && b.claims[t] == a.claims[t])
  }

  predicate SameSuggestion(x: JobResult, y: JobResult) {
    x.Suggested? && y.Suggested? && x.decision == y.decision && x.basis == y.basis
  }

  lemma AdvancedSuggestsNothing(x: Table, s: State, id: JobId, status: JobStatus, result: JobResult, cursor: Key,
                                p: Policy, spare: JobId, now: Time)
    requires id in x && spare !in x && !result.Suggested?
    ensures
      var y := Advanced(x[id := Finished(x[id], status, result)], s, id, cursor, p, spare, now).jobs;
      forall j :: j in y && y[j].result.Suggested? ==> j in x && y[j].result == x[j].result
  {
    hide More, DreamWaiting;
  }

  lemma AdvanceSuggestsNothing(p: Policy, a: System, step: Step, b: System)
    requires Transition(p, a, step, b) && (step.ApplyPlan? || step.OfferPlan?)
    ensures b.claims == a.claims && b.tasks == a.tasks
    ensures forall id ::
      id in b.jobs && b.jobs[id].result.Suggested? ==> id in a.jobs && b.jobs[id].result == a.jobs[id].result
  {
    hide Advanced, Dream.ApplyPlan, Automatic, Applies;
    var job := JobOf(a, step.token);
    if step.ApplyPlan? {
      var id :| AppliesThis(p, a, step.token, id, step.vectors, step.spare, step.now, b);
      var plan := a.plans[id];
      AdvancedSuggestsNothing(a.jobs, Dream.ApplyPlan(a.store, plan.groups, plan.changes, step.vectors, step.now).value,
        job,
        Done, Consolidated(id), plan.cursor, p, step.spare, step.now);
    } else {
      var id := a.claims[step.token].stage.plan;
      var plan := a.plans[id];
      AdvancedSuggestsNothing(a.jobs, a.store, job, Proposed, PlanOffered(id, plan.generation, false), plan.cursor, p,
        step.spare, step.now);
    }
  }

  lemma StoreSuggestsNothing(p: Policy, a: System, step: Step, b: System)
    requires Transition(p, a, step, b) && (step.StoreCapture? || step.Foreground?)
    ensures b.claims == a.claims && b.tasks == a.tasks
    ensures forall id ::
      id in b.jobs && b.jobs[id].result.Suggested? ==> id in a.jobs && b.jobs[id].result == a.jobs[id].result
  {
    hide Persists, Permitted, Runs.Commit, DreamWaiting;
    if step.StoreCapture? {
      var t :| Persists(a, step.token, step.vector, step.inspection, step.decision, step.now, t)
            && StoresThis(p, a, step.token, step.inspection, step.decision, step.spare, step.now, t, b);
    }
  }

  lemma LeaseSuggestsNothing(p: Policy, a: System, step: Step, b: System)
    requires Transition(p, a, step, b) && (step.Lease? || step.Sweep? || step.PinScan? || step.SavePlan?)
    ensures b.tasks == a.tasks
    ensures forall id :: id in b.jobs ==> id in a.jobs && b.jobs[id].result == a.jobs[id].result
    ensures forall t :: t in b.claims && b.claims[t].stage.Drafted? ==> t in a.claims && b.claims[t] == a.claims[t]
  {
    hide Pin, IsPlan;
  }

  lemma NothingSuggested(a: System, b: System)
    requires b.tasks == a.tasks
    requires forall id ::
      id in b.jobs && b.jobs[id].result.Suggested? ==> id in a.jobs && b.jobs[id].result == a.jobs[id].result
    requires forall t :: t in b.claims && b.claims[t].stage.Drafted? ==> t in a.claims && b.claims[t] == a.claims[t]
    ensures SuggestionsStay(a, b) && TasksGrow(a.tasks, b.tasks)
  {
  }

  lemma RowSuggests(a: System, b: System, id: JobId, j: Job)
    requires b.tasks == a.tasks && b.claims == a.claims && b.jobs == a.jobs[id := j]
    requires j.result.Suggested? ==>
      || (id in a.jobs && SameSuggestion(j.result, a.jobs[id].result))
      || (id in a.jobs && exists t :: t in a.claims && a.claims[t].job == id && a.claims[t].stage == Drafted(j.result))
    ensures SuggestionsStay(a, b) && TasksGrow(a.tasks, b.tasks)
  {
  }

  lemma JobSuggests(p: Policy, a: System, step: Step, b: System)
    requires Transition(p, a, step, b)
    requires step.OfferCapture? || step.GiveUp? || step.Review? || step.Retry? || step.Capture? || step.Compact?
    ensures SuggestionsStay(a, b) && TasksGrow(a.tasks, b.tasks)
  {
    hide SuggestionsStay, TasksGrow, AppliesPlan, OffersPlan, StoresCapture, DraftsCapture, Foregrounds, Leases, Sweeps,
        Pins, Saves, DraftsByHand, AppliesByHand;
    match step
    case OfferCapture(token, _) => RowSuggests(a, b, JobOf(a, token), b.jobs[JobOf(a, token)]);
    case GiveUp(token, _) => RowSuggests(a, b, JobOf(a, token), b.jobs[JobOf(a, token)]);
    case Review(id, _) => RowSuggests(a, b, id, b.jobs[id]);
    case Retry(id) => RowSuggests(a, b, id, b.jobs[id]);
    case Capture(_, _, _, id, _) => RowSuggests(a, b, id, b.jobs[id]);
    case Compact(id) => RowSuggests(a, b, id, b.jobs[id]);
  }

  lemma TaskSuggests(p: Policy, a: System, step: Step, b: System)
    requires Transition(p, a, step, b) && (step.Begin? || step.Complete?)
    ensures SuggestionsStay(a, b) && TasksGrow(a.tasks, b.tasks)
  {
    hide AppliesPlan, OffersPlan, StoresCapture, DraftsCapture, Foregrounds, IsPlan, Leases, Sweeps, Pins, Saves,
         DraftsByHand, AppliesByHand, OffersCapture, GivesUp, Protocol.Reviews, Retries, Captures, Compacts;
  }

  lemma SuggestionsStep(p: Policy, a: System, step: Step, b: System)
    requires Transition(p, a, step, b) && !step.DraftCapture?
    ensures SuggestionsStay(a, b) && TasksGrow(a.tasks, b.tasks)
  {
    hide AppliesPlan, OffersPlan, StoresCapture, DraftsCapture, Foregrounds, IsPlan, Leases, Sweeps, Pins, Saves,
         DraftsByHand, AppliesByHand, OffersCapture, GivesUp, Protocol.Reviews, Retries, Captures, Compacts;
    hide SuggestionsStay, TasksGrow;
    if step.OfferCapture? || step.GiveUp? || step.Review? || step.Retry? || step.Capture? || step.Compact? {
      JobSuggests(p, a, step, b);
    } else if step.Begin? || step.Complete? {
      TaskSuggests(p, a, step, b);
    } else {
      if step.ApplyPlan? || step.OfferPlan? {
        AdvanceSuggestsNothing(p, a, step, b);
      } else if step.StoreCapture? || step.Foreground? {
        StoreSuggestsNothing(p, a, step, b);
      } else if step.Lease? || step.Sweep? || step.PinScan? || step.SavePlan? {
        LeaseSuggestsNothing(p, a, step, b);
      } else if step.DraftByHand? || step.ApplyByHand? {
        ByHandKeepsTables(p, a, step, b);
      }
      NothingSuggested(a, b);
    }
  }

  lemma StayBacked(p: Policy, a: System, b: System)
    requires Guarded(p, a) && Backed(a) && SuggestionsStay(a, b) && TasksGrow(a.tasks, b.tasks) && Grows(a.jobs, b.jobs)
    ensures Backed(b)
  {
    hide Fenced, Drafts, Proposable, MemoryFor, Grows, TasksGrow;
    forall id | id in b.jobs && b.jobs[id].status != Done && b.jobs[id].result.Suggested?
      ensures ResultBacked(b, id, b.jobs[id].result)
    {
      RowAt(p, a.jobs, a.claims, id);
      assert RowGrows(a.jobs[id], b.jobs[id]) by { GrownRow(a.jobs, b.jobs, id); }
      MemoryStays(a, b, id);
    }
    forall t | t in b.claims && b.claims[t].stage.Drafted? && b.claims[t].job in b.jobs
               && b.jobs[b.claims[t].job].status != Done
      ensures ResultBacked(b, b.claims[t].job, b.claims[t].stage.proposal)
    {
      DraftAt(a.claims, a.jobs, t);
      GrownRow(a.jobs, b.jobs, b.claims[t].job);
      MemoryStays(a, b, b.claims[t].job);
    }
  }

  lemma GrownRow(x: Table, y: Table, id: JobId)
    requires Grows(x, y) && id in x
    ensures id in y && RowGrows(x[id], y[id])
  {
  }

  lemma DraftBacked(p: Policy, a: System, step: Step, b: System)
    requires Guarded(p, a) && Reads(p, a) && Backed(a) && Transition(p, a, step, b) && step.DraftCapture?
    ensures Backed(b)
  {
    hide Fenced, Drafts, PlansOk, RowsRead, ClaimsRead, HandmadeOk, Inv, Remember.Inspects, Remember.Persist,
        Remember.Decides, MemoryFor;
    var t :| Persists(a, step.token, step.vector, step.inspection, step.decision, step.now, t)
          && DraftsThis(p, a, step.token, step.inspection, step.decision, t, b);
    var m := MemoryOf(a, step.token).value;
    PersistsSoundly(a, step.token, step.vector, step.inspection, step.decision, step.now, t);
    assert RequestOf(m, step.vector, a.claims[step.token].result) == Remember.Request(m, step.vector, None, None);
    assert Proposable(m, step.decision, a.store);
    forall id ensures MemoryFor(b, id) == MemoryFor(a, id) { SameMemories(a, b, id); }
  }

  lemma SameMemories(a: System, b: System, id: JobId)
    requires a.jobs == b.jobs && a.tasks == b.tasks
    ensures MemoryFor(a, id) == MemoryFor(b, id)
  {
  }

  lemma {:induction false} AlwaysBacked(p: Policy, systems: seq<System>, steps: seq<Step>, k: nat)
    requires Execution(p, systems, steps) && k < |systems|
    ensures Backed(systems[k])
  {
    hide Transition, Runs.Initial, Guarded, Reads, Grows, ResultBacked, SuggestionsStay;
    if k > 0 {
      AlwaysBacked(p, systems, steps, k - 1);
      Effects.AlwaysGuarded(p, systems, steps, k - 1);
      AlwaysReads(p, systems, steps, k - 1);
      if steps[k - 1].DraftCapture? {
        DraftBacked(p, systems[k - 1], steps[k - 1], systems[k]);
      } else {
        SuggestionsStep(p, systems[k - 1], steps[k - 1], systems[k]);
        StepKeeps(p, systems[k - 1], steps[k - 1], systems[k]);
        KeptGrows(p, systems[k - 1], systems[k]);
        StayBacked(p, systems[k - 1], systems[k]);
      }
    }
  }

  // ---------- an accepted capture is stored as reviewed ----------

  lemma ProposableStays(m: Memory, d: Decision, basis: State, s: State, g: nat)
      returns (i: Remember.Inspection, vector: Vector)
    requires Proposable(m, d, basis) && Keyed(s) && SameContents(basis, s) && basis.generation == s.generation == g
    ensures
      var request := Remember.Request(m, vector, Some(d), Some(g));
      && Remember.Inspects(s, request, i) && Remember.Decides(true, request, i, d)
      && forall now :: Remember.Persist(s, request, i, d, now).Ok?
  {
    hide Remember.Inspects, Remember.Persist;
    var now;
    i, vector, now :|
      var request := Remember.Request(m, vector, None, None);
      Remember.Inspects(basis, request, i) && Remember.Persist(basis, request, i, d, now).Ok?;
    var proposed, approved := Remember.Request(m, vector, None, None), Remember.Request(m, vector, Some(d), Some(g));
    Remember.InspectionCarriesOver(basis, s, proposed, i);
    Remember.SameGeneration(s, proposed, i);
    InspectsAlike(s, proposed, approved, i);
    forall later ensures Remember.Persist(s, approved, i, d, later).Ok? {
      PersistsAlike(basis, s, proposed, approved, i, d, now, later);
    }
  }

  lemma InspectsAlike(s: State, x: Remember.Request, y: Remember.Request, i: Remember.Inspection)
    requires Remember.Inspects(s, x, i) && x.memory == y.memory
    ensures Remember.Inspects(s, y, i)
  {
  }

  /** What was shown may also be named explicitly. */
  lemma PersistsAlike(basis: State, s: State, x: Remember.Request, y: Remember.Request, i: Remember.Inspection,
                      d: Decision, now: Time, later: Time)
    requires Keyed(basis) && Keyed(s) && SameContents(basis, s) && basis.generation == s.generation
    requires Remember.Inspects(s, x, i) && x.decision.None? && y.decision.Some?
    requires Remember.Persist(basis, x, i, d, now).Ok?
    ensures Remember.Persist(s, y, i, d, later).Ok?
  {
    hide Runs.Accept, Reconciliation.Objection, Reconciliation.Applied, Keyed;
    forall id | id in Remember.NeighborIds(i) ensures id in Remember.Eligible(s, ProjectOf(i.memory.scope)) {
      var k :| 0 <= k < |i.neighbors| && i.neighbors[k].id == id;
      assert Remember.IsNeighbor(s, i.memory, i.neighbors[k]);
    }
    assert Visible(basis) == Visible(s);
  }

  /** A pending capture whose decision was approved at the owner's present generation: once it is the next job, it can
      be leased, and then the reviewed decision can be stored, whatever the policy applies unreviewed. */
  lemma ApprovedCaptureIsStored(p: Policy, systems: seq<System>, steps: seq<Step>, k: nat, id: JobId, token: Token,
                                spare: JobId, now: Time)
    returns (b: System, c: System, vector: Vector, i: Remember.Inspection)
    requires Execution(p, systems, steps) && k < |systems|
    requires
      var a := systems[k];
      && id in a.jobs && a.jobs[id].status == Pending && a.jobs[id].kind == CaptureJob
      && a.jobs[id].result.Suggested? && a.jobs[id].result.approved
        && a.jobs[id].result.generation == a.store.generation
      && token !in a.claims && spare !in a.jobs && FirstReady(Swept(a.jobs, now, p.maxAttempts), now, p.maxAttempts, id)
    ensures
      var a, d := systems[k], systems[k].jobs[id].result.decision;
      && Transition(p, a, Lease(id, token, now), b)
      && Transition(p, b, StoreCapture(token, vector, i, d, spare, now), c)
      && id in c.jobs && c.jobs[id].status == Done && c.jobs[id].result.Stored?
  {
    hide Start, Reads, Guarded, Remember.Inspects, Remember.Persist, Proposable, MemoryFor, Keyed, FirstReady;
    var a := systems[k];
    Effects.AlwaysGuarded(p, systems, steps, k);
    AlwaysReads(p, systems, steps, k);
    AlwaysBacked(p, systems, steps, k);
    assert ResultBacked(a, id, a.jobs[id].result);
    var m, d, g := MemoryFor(a, id).value, a.jobs[id].result.decision, a.jobs[id].result.generation;
    ApprovedBasis(p, a, id);
    i, vector := ProposableStays(m, d, a.jobs[id].result.basis, a.store, g);
    b := LeaseIt(p, a, id, token, now);
    LeasedMemory(a, b, id);
    var t := Remember.Persist(b.store, Remember.Request(m, vector, Some(d), Some(g)), i, d, now).value;
    ProposableIds(m, d, a.jobs[id].result.basis);
    assert Persists(b, token, vector, i, d, now, t);
    c := TheRestIsStored(p, b, token, vector, i, d, spare, now, t);
  }

  lemma ProposableIds(m: Memory, d: Decision, basis: State)
    requires Proposable(m, d, basis)
    ensures m.id != ""
  {
  }

  /** An approval at the present generation was given for the present contents. */
  lemma ApprovedBasis(p: Policy, a: System, id: JobId)
    requires Reads(p, a) && id in a.jobs && a.jobs[id].result.Suggested?
    requires a.jobs[id].result.generation == a.store.generation
    ensures SameContents(a.jobs[id].result.basis, a.store) && Keyed(a.store)
    ensures a.jobs[id].result.basis.generation == a.store.generation
  {
    hide PlansOk, ClaimsRead, HandmadeOk, ScanOk, Inv, Store.Later;
    RowReading(a.jobs, a.store, a.plans, id);
    Remember.LaterSame(a.jobs[id].result.basis, a.store);
    InvParts(a.store);
  }

  /** Leasing the next job, under a token not used yet. */
  lemma LeaseIt(p: Policy, a: System, id: JobId, token: Token, now: Time) returns (b: System)
    requires ValidPolicy(p) && token !in a.claims
      && FirstReady(Swept(a.jobs, now, p.maxAttempts), now, p.maxAttempts, id)
    requires id in a.jobs && a.jobs[id].status == Pending
    ensures Transition(p, a, Lease(id, token, now), b)
    ensures b.store == a.store && b.tasks == a.tasks && b.plans == a.plans && b.jobs.Keys == a.jobs.Keys
    ensures Holding(b, token, now) && JobOf(b, token) == id && b.claims[token].stage.Started?
    ensures b.claims[token].result == a.jobs[id].result
    ensures
      var x, y := a.jobs[id], b.jobs[id];
      y.payload == x.payload && y.task == x.task && y.kind == x.kind
  {
    hide FirstReady;
    var swept := Swept(a.jobs, now, p.maxAttempts);
    b := a.(jobs := swept[id := Leased(swept[id], token, now, p)],
            claims := a.claims[token := Claim(id, swept[id].attempts + 1, swept[id].result, Started)]);
    assert Leases(p, a, id, token, now, b);
  }

  lemma LeasedMemory(a: System, b: System, id: JobId)
    requires id in a.jobs && id in b.jobs && b.tasks == a.tasks
    requires b.jobs[id].payload == a.jobs[id].payload && b.jobs[id].task == a.jobs[id].task
    ensures MemoryFor(b, id) == MemoryFor(a, id)
  {
  }

  /** From the review itself: an accepted capture can be leased and stored exactly as reviewed, once it is the next
      job. */
  lemma AcceptedCaptureIsStored(p: Policy, systems: seq<System>, steps: seq<Step>, k: nat, token: Token, spare: JobId,
                                now: Time)
    returns (b: System, c: System, vector: Vector, i: Remember.Inspection)
    requires Execution(p, systems, steps) && k < |steps| && steps[k].Review? && steps[k].accept
    requires steps[k].job in systems[k].jobs && systems[k].jobs[steps[k].job].result.Suggested?
    requires systems[k].jobs[steps[k].job].kind == CaptureJob
    requires token !in systems[k + 1].claims && spare !in systems[k + 1].jobs
    requires FirstReady(Swept(systems[k + 1].jobs, now, p.maxAttempts), now, p.maxAttempts, steps[k].job)
    ensures
      var id := steps[k].job;
      && Transition(p, systems[k + 1], Lease(id, token, now), b)
      && Transition(p, b, StoreCapture(token, vector, i, systems[k].jobs[id].result.decision, spare, now), c)
      && id in c.jobs && c.jobs[id].status == Done && c.jobs[id].result.Stored?
  {
    hide Start, FirstReady, Swept;
    TransitionAt(p, systems, steps, k);
    AcceptedState(p, systems[k], steps[k], systems[k + 1]);
    hide Transition;
    b, c, vector, i := ApprovedCaptureIsStored(p, systems, steps, k + 1, steps[k].job, token, spare, now);
  }

  lemma AcceptedState(p: Policy, a: System, step: Step, b: System)
    requires Transition(p, a, step, b) && step.Review? && step.accept
    requires step.job in a.jobs && a.jobs[step.job].result.Suggested?
    ensures step.job in b.jobs && b.jobs[step.job].status == Pending && b.jobs[step.job].kind == a.jobs[step.job].kind
    ensures
      var x, y := a.jobs[step.job].result, b.jobs[step.job].result;
      y.Suggested? && y.approved && y.decision == x.decision && y.generation == b.store.generation
  {
  }

  // ---------- an approved plan is applied ----------

  /** A pending dream whose plan was approved at the owner's present generation: once it is the next job, it can be
      leased, its scan pinned and the plan applied, whatever the policy applies unreviewed. */
  lemma ApprovedPlanIsApplied(p: Policy, systems: seq<System>, steps: seq<Step>, k: nat, id: JobId, token: Token,
                              vectors: seq<Vector>, spare: JobId, now: Time)
    returns (b: System, c: System, d: System)
    requires Execution(p, systems, steps) && k < |systems|
    requires
      var a := systems[k];
      && id in a.jobs && a.jobs[id].status == Pending && a.jobs[id].kind == DreamJob
      && a.jobs[id].result.PlanOffered? && a.jobs[id].result.approved
        && a.jobs[id].result.generation == a.store.generation
      && token !in a.claims && spare !in a.jobs && FirstReady(Swept(a.jobs, now, p.maxAttempts), now, p.maxAttempts, id)
      && a.jobs[id].result.plan in a.plans && Keyed(a.store)
      && var plan := a.plans[a.jobs[id].result.plan];
      && !plan.applied && |vectors| == |plan.changes|
      && Dream.ApplyPlan(a.store, plan.groups, plan.changes, vectors, now).Ok?
    ensures
      var a, plan := systems[k], systems[k].jobs[id].result.plan;
      && Transition(p, a, Lease(id, token, now), b) && Transition(p, b, PinScan(token, now), c)
      && Transition(p, c, ApplyPlan(token, vectors, spare, now), d)
      && plan in d.plans && d.plans[plan].applied && id in d.jobs && d.jobs[id].status == Done
  {
    hide Start, Reads, Guarded, Keyed, FirstReady, Dream.ApplyPlan, Advanced, LogEntry, Pin;
    var a := systems[k];
    Effects.AlwaysGuarded(p, systems, steps, k);
    AlwaysReads(p, systems, steps, k);
    OfferedPlan(p, a, id);
    b := LeaseIt(p, a, id, token, now);
    c := PinIt(p, b, token, now);
    d := ApplyIt(p, c, token, a.jobs[id].result.plan, vectors, spare, now);
  }

  lemma OfferedPlan(p: Policy, a: System, id: JobId)
    requires Guarded(p, a) && Reads(p, a) && id in a.jobs && a.jobs[id].result.PlanOffered?
      && a.jobs[id].status == Pending
    requires a.jobs[id].kind == DreamJob
    ensures a.jobs[id].payload.Consolidation?
    ensures a.jobs[id].result.plan in a.plans
    ensures a.plans[a.jobs[id].result.plan].generation == a.jobs[id].result.generation
  {
    hide PlansOk, ClaimsRead, HandmadeOk, ScanOk, Inv, Store.Later, Fenced, Drafts;
    RowReading(a.jobs, a.store, a.plans, id);
    RowAt(p, a.jobs, a.claims, id);
  }

  lemma PinIt(p: Policy, a: System, token: Token, now: Time) returns (b: System)
    requires Holding(a, token, now) && a.claims[token].stage.Started? && a.jobs[JobOf(a, token)].kind.DreamJob?
    requires a.jobs[JobOf(a, token)].payload.Consolidation?
    ensures Transition(p, a, PinScan(token, now), b)
    ensures b.store == a.store && b.plans == a.plans && b.jobs.Keys == a.jobs.Keys && JobOf(b, token) == JobOf(a, token)
    ensures Holding(b, token, now) && b.claims[token].stage.Pinned? && b.claims[token].result == a.claims[token].result
  {
    hide Pin, Pins, AppliesPlan, OffersPlan, StoresCapture, DraftsCapture, Foregrounds, IsPlan, Leases, Sweeps, Saves,
        DraftsByHand, AppliesByHand, OffersCapture, GivesUp, Protocol.Reviews, Retries, Captures, Compacts, Archives;
    var id := JobOf(a, token);
    var payload := a.jobs[id].payload;
    var scan := if payload.scan.Some? then payload.scan.value else Pin(a.store, id);
    b := a.(jobs := a.jobs[id := a.jobs[id].(payload := payload.(scan := Some(scan)))],
            claims := a.claims[token := a.claims[token].(stage := Pinned(scan))],
            pins := if payload.scan.Some? then a.pins else a.pins[id := scan]);
    PinChecked(p, a, token, now, scan, b);
    PinHeld(p, a, token, now, b);
  }

  lemma PinHeld(p: Policy, a: System, token: Token, now: Time, b: System)
    requires Pins(p, a, token, now, b)
    ensures b.store == a.store && b.plans == a.plans && b.jobs.Keys == a.jobs.Keys && JobOf(b, token) == JobOf(a, token)
    ensures Holding(b, token, now) && b.claims[token].stage.Pinned? && b.claims[token].result == a.claims[token].result
  {
    hide Pin;
  }

  lemma PinChecked(p: Policy, a: System, token: Token, now: Time, scan: Scan, b: System)
    requires Holding(a, token, now) && a.claims[token].stage.Started? && a.jobs[JobOf(a, token)].kind.DreamJob?
    requires a.jobs[JobOf(a, token)].payload.Consolidation?
    requires
      var id, payload := JobOf(a, token), a.jobs[JobOf(a, token)].payload;
      && scan == (if payload.scan.Some? then payload.scan.value else Pin(a.store, id))
      && b == a.(jobs := a.jobs[id := a.jobs[id].(payload := payload.(scan := Some(scan)))],
                 claims := a.claims[token := a.claims[token].(stage := Pinned(scan))],
                 pins := if payload.scan.Some? then a.pins else a.pins[id := scan])
    ensures Pins(p, a, token, now, b)
  {
    hide Pin;
  }

  lemma ApplyIt(p: Policy, a: System, token: Token, id: PlanId, vectors: seq<Vector>, spare: JobId, now: Time)
    returns (b: System)
    requires Holding(a, token, now) && spare !in a.jobs && Keyed(a.store) && a.claims[token].stage.Pinned?
    requires a.claims[token].result.PlanOffered? && a.claims[token].result.approved && a.claims[token].result.plan == id
    requires id in a.plans && !a.plans[id].applied && a.store.generation == a.plans[id].generation
    requires |vectors| == |a.plans[id].changes|
    requires Dream.ApplyPlan(a.store, a.plans[id].groups, a.plans[id].changes, vectors, now).Ok?
    ensures Transition(p, a, ApplyPlan(token, vectors, spare, now), b)
    ensures id in b.plans && b.plans[id].applied && JobOf(a, token) in b.jobs && b.jobs[JobOf(a, token)].status == Done
  {
    hide Keyed, Dream.ApplyPlan, Advanced, LogEntry;
    var plan, job := a.plans[id], JobOf(a, token);
    var t := Dream.ApplyPlan(a.store, plan.groups, plan.changes, vectors, now).value;
    var finished := a.jobs[job := Finished(a.jobs[job], Done, Consolidated(id))];
    var progress := Advanced(finished, t, job, plan.cursor, p, spare, now);
    b := a.(store := progress.store, jobs := progress.jobs, plans := a.plans[id := plan.(applied := true)],
            advances := a.advances + LogEntry(finished, job, plan, progress.store));
    assert AppliesThis(p, a, token, id, vectors, spare, now, b);
    AdvancedIsDone(finished, t, job, plan.cursor, p, spare, now);
  }

  lemma AdvancedIsDone(jobs: Table, s: State, id: JobId, cursor: Key, p: Policy, spare: JobId, now: Time)
    requires id in jobs && spare !in jobs
    ensures
      var y := Advanced(jobs, s, id, cursor, p, spare, now).jobs;
      id in y && y[id].status == jobs[id].status
  {
    hide More, DreamWaiting;
  }
}
