/** The worker's commits (`memory_core/runtime/worker.py`): effect, acknowledgement and scan progress stand or fall
    together. */
module Workers {
  import opened Types
  import opened Ordering
  import opened Fields
  import opened Store
  import opened Jobs
  import opened Queues
  import Database
  import Reconciliation
  import Dream
  import Remember
  import opened Protocol

  /** The commit of `_dream`: apply the plan, acknowledge under the lease, move the scan on. Whatever fails, nothing
      stays. */
  method CommitDream(q: Queue, dreams: Database.DreamTable, id: JobId, token: Token, plan: PlanId, vectors: seq<Vector>,
                     spare: JobId, now: Time)
    returns (ok: bool)
    requires dreams.db == q.db && Keyed(q.db.Snapshot()) && spare !in q.jobs
    requires plan in dreams.plans ==> |vectors| == |dreams.plans[plan].changes|
    modifies q`jobs, q.db, dreams
    ensures
      var s := old(q.db.Snapshot());
      ok <==>
        && plan in old(dreams.plans) && !old(dreams.plans)[plan].applied
          && s.generation == old(dreams.plans)[plan].generation
        && Dream.ApplyPlan(s, old(dreams.plans)[plan].groups, old(dreams.plans)[plan].changes, vectors, now).Ok?
        && HoldsLease(old(q.jobs), id, token, now)
    ensures ok ==>
      && id in old(q.jobs)
      && var saved := old(dreams.plans)[plan];
      && dreams.plans == old(dreams.plans)[plan := saved.(applied := true)]
      && Progress(q.jobs, q.db.Snapshot())
      == Advanced(old(q.jobs)[id := Finished(old(q.jobs)[id], Done, Consolidated(plan))],
                  Dream.ApplyPlan(old(q.db.Snapshot()), saved.groups, saved.changes, vectors, now).value, id,
                    saved.cursor,
                  q.policy, spare, now)
    ensures !ok ==>
      q.jobs == old(q.jobs) && q.db.Snapshot() == old(q.db.Snapshot()) && dreams.plans == old(dreams.plans)
  {
    hide Dream.ApplyPlan, Advanced;
    var saved, plans := q.db.Snapshot(), dreams.plans;
    var applied := dreams.ApplySaved(plan, vectors, now, false);
    if applied.Err? { return false; }
    var finished := q.Finish(id, token, Done, Consolidated(plan), now);
    if !finished {
      q.db.Restore(saved);
      dreams.plans := plans;
      return false;
    }
    q.Advance(id, plans[plan].cursor, spare, now);
    ok := true;
  }

  /** `_finish` of a dream proposal: hand the plan over for review and move the scan on. */
  method OfferDream(q: Queue, id: JobId, token: Token, plan: PlanId, generation: nat, cursor: Key, spare: JobId,
                    now: Time) returns (ok: bool)
    requires spare !in q.jobs
    modifies q`jobs, q.db`cursor, q.db`dreamWrites
    ensures ok <==> HoldsLease(old(q.jobs), id, token, now)
    ensures ok ==>
      && id in old(q.jobs)
      && Progress(q.jobs, q.db.Snapshot())
      == Advanced(old(q.jobs)[id := Finished(old(q.jobs)[id], Proposed, PlanOffered(plan, generation, false))],
        old(q.db.Snapshot()), id, cursor,
                  q.policy, spare, now)
    ensures !ok ==> q.jobs == old(q.jobs) && q.db.Snapshot() == old(q.db.Snapshot())
  {
    hide Advanced;
    ok := q.Finish(id, token, Proposed, PlanOffered(plan, generation, false), now);
    if ok { q.Advance(id, cursor, spare, now); }
  }

  datatype Commit = Stored(memory: Memory) | NeedsReview(generation: nat) | Refused(error: Error)

  /** `permitted` of `_capture`: what may be stored without a review, or was approved. */
  method MayStore(p: Policy, original: Memory, i: Remember.Inspection, decision: Reconciliation.Decision,
                  result: JobResult)
    returns (permitted: bool)
    ensures permitted <==> Permitted(p, original, i, decision, result)
  {
    var exact := false;
    if decision.Attach? {
      var k := 0;
      while k < |i.neighbors| && !exact
        invariant k <= |i.neighbors|
        invariant exact <==>
          exists j :: 0 <= j < k && i.neighbors[j].id == decision.target
                   && Reconciliation.Equivalent(original, i.neighbors[j])
        decreases |i.neighbors| - k, !exact
      {
        exact := i.neighbors[k].id == decision.target && Reconciliation.Equivalent(original, i.neighbors[k]);
        k := k + 1;
      }
    }
    permitted := decision.Create? || (exact && p.applyExact) || p.applySemantic || Approved(result);
  }

  /** The `persist` transaction of a capture: generation check, decision, trigger, lease, permission, acknowledgement. A
      change that needs review is rolled back, and the proposal records the generation after the bump, minus one. */
  method CommitCapture(q: Queue, id: JobId, token: Token, result: JobResult, seen: map<Id, Memory>, original: Memory,
                       i: Remember.Inspection, vector: Vector, decision: Reconciliation.Decision, spare: JobId,
                       now: Time)
    returns (c: Commit)
    requires Keyed(q.db.Snapshot()) && seen == Visible(q.db.Snapshot()) && spare !in q.jobs
      && Reconciliation.Backed(seen, q.db.Snapshot())
    modifies q`jobs, q.db
    ensures
      var s := old(q.db.Snapshot());
      var r := Remember.Persist(s, RequestOf(original, vector, result), i, decision, now);
      var permitted := Permitted(q.policy, original, i, decision, result);
      match c
      case Stored(m) =>
        && r.Ok? && HoldsLease(old(q.jobs), id, token, now) && permitted
        && q.db.Snapshot() == r.value && m.id in r.value.rows && r.value.rows[m.id].memory == m
        && q.jobs == Scheduled(old(q.jobs), r.value, q.policy, spare, now)[id :=
          Finished(old(q.jobs)[id], Done, JobResult.Stored(if decision.Attach? then decision.target else i.memory.id))]
      case NeedsReview(g) =>
        && r.Ok? && s.generation == g && HoldsLease(old(q.jobs), id, token, now) && !permitted
        && q.db.Snapshot() == s && q.jobs == old(q.jobs)
      case Refused(e) =>
        && (if r.Err? then e == r.error else e == Conflict && !HoldsLease(old(q.jobs), id, token, now))
        && q.db.Snapshot() == s && q.jobs == old(q.jobs)
  {
    hide Reconciliation.Reconcile, Permitted;
    var saved, jobs := q.db.Snapshot(), q.jobs;
    if q.db.generation != i.generation { return Refused(Conflict); }
    var allowed := if result.Suggested? && result.approved
      then Remember.Eligible(saved, ProjectOf(i.memory.scope)) else Remember.NeighborIds(i);
    ReconcileBumps(seen, saved, i.memory, vector, decision, allowed, now);
    var stored := q.db.ApplyReconciliation(seen, i.memory, vector, decision, allowed, true, now);
    if stored.Err? { return Refused(stored.error); }
    var generation := q.db.generation;
    q.ScheduleDream(spare, now);
    LeaseUnaffected(jobs, q.db.Snapshot(), q.policy, spare, now, id, token);
    if !HoldsLease(q.jobs, id, token, now) {
      q.db.Restore(saved);
      q.jobs := jobs;
      return Refused(Conflict);
    }
    var permitted := MayStore(q.policy, original, i, decision, result);
    if !permitted {
      q.db.Restore(saved);
      q.jobs := jobs;
      return NeedsReview(generation - 1);
    }
    var _ := q.Finish(id, token, Done, JobResult.Stored(stored.value.id), now);
    c := Commit.Stored(stored.value);
  }

  lemma ReconcileBumps(seen: map<Id, Memory>, s: State, m: Memory, v: Vector, d: Reconciliation.Decision,
                       allowed: set<Id>, now: Time)
    requires Reconciliation.Backed(seen, s)
    ensures
      var r := Reconciliation.Reconcile(seen, s, m, v, d, allowed, true, now);
      r.Ok? ==>
        && r.value.state.generation == s.generation + 1
        && r.value.memory.id == (if d.Attach? then d.target else m.id)
        && r.value.memory.id in r.value.state.rows
        && r.value.state.rows[r.value.memory.id].memory == r.value.memory
  {
    hide Reconciliation.Objection, Reconciliation.MergedRefs;
    var admitted := Reconciliation.Admit(seen, s, m, d, allowed);
    if admitted.Ok? { Reconciliation.AppliedCounts(s, m, v, d, admitted.value, true, now); }
  }

  lemma LeaseUnaffected(jobs: Table, s: State, p: Policy, spare: JobId, now: Time, id: JobId, token: Token)
    requires spare !in jobs
    ensures HoldsLease(Scheduled(jobs, s, p, spare, now), id, token, now) <==> HoldsLease(jobs, id, token, now)
    ensures id in jobs ==> id in Scheduled(jobs, s, p, spare, now) && Scheduled(jobs, s, p, spare, now)[id] == jobs[id]
  {
  }
}
