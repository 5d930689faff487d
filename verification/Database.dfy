/** The statements that write an owner's tables, in their own order, each proved against the state functions. */
module Database {
  import opened Types
  import opened Counting
  import opened Ordering
  import opened Fields
  import opened Store
  import Reconciliation
  import Dream
  import Runs

  class OwnerTables {
    var generation: nat
    var writes: nat
    var cursor: Key
    var dreamWrites: nat
    var rows: map<Id, Row>
    var archives: map<Id, Row>
    var registry: Registry
    var audit: seq<Entry>

    function Snapshot(): State
      reads this
    {
      State.State(generation, writes, cursor, dreamWrites, rows, archives, registry, audit)
    }

    constructor (registry: Registry)
      ensures Snapshot() == State.State(0, 0, Key(0, ""), 0, map[], map[], registry, [])
      ensures Built(registry) ==> Runs.Initial(Snapshot())
    {
      this.generation, this.writes, this.cursor, this.dreamWrites := 0, 0, Key(0, ""), 0;
      this.rows, this.archives, this.registry, this.audit := map[], map[], registry, [];
    }

    method Bump(action: string, subjects: seq<Id>, write: bool) returns (current: nat)
      modifies this
      ensures Snapshot() == Store.Bump(old(Snapshot()), action, subjects, write)
      ensures current == generation
    {
      generation := generation + 1;
      writes := writes + (if write then 1 else 0);
      audit := audit + [Entry(generation, action, subjects)];
      current := generation;
    }

    method Put(memory: Memory, embedding: Option<Vector>, at: nat)
      modifies this`rows
      ensures Snapshot() == Store.Put(old(Snapshot()), memory, embedding, at)
    {
      rows := rows[memory.id := Row(memory, embedding, at)];
    }

    /** `session.rollback()`. */
    method Restore(saved: State)
      modifies this
      ensures Snapshot() == saved
    {
      generation, writes, cursor, dreamWrites := saved.generation, saved.writes, saved.cursor, saved.dreamWrites;
      rows, archives, registry, audit := saved.rows, saved.archives, saved.registry, saved.audit;
    }

    /** `apply_reconciliation`: every refusal comes before the first write. */
    method ApplyReconciliation(seen: map<Id, Memory>, memory: Memory, vector: Vector, decision: Reconciliation.Decision,
                               allowed: set<Id>, write: bool, now: int) returns (r: Result<Memory>)
      requires Reconciliation.Backed(seen, Snapshot())
      modifies this
      ensures
        match Reconciliation.Reconcile(seen, old(Snapshot()), memory, vector, decision, allowed, write, now)
        case Ok(outcome) => r == Ok(outcome.memory) && Snapshot() == outcome.state
        case Err(e) => r == Err(e) && Snapshot() == old(Snapshot())
    {
      var admitted := Reconciliation.Admit(seen, Snapshot(), memory, decision, allowed);
      if admitted.Err? { return Err(admitted.error); }
      var g := Bump(Reconciliation.ActionOf(decision), Reconciliation.SubjectsOf(memory, decision), write);
      if decision.Attach? {
        var target := admitted.value.value;
        var updated := Reconciliation.WithEvidence(target, memory.sourceRefs, now);
        Put(updated, rows[target.id].embedding, g);
        return Ok(updated);
      }
      var stored := memory;
      if decision.Supersede? || decision.FlagConflict? {
        var target := admitted.value.value;
        var status := if decision.Supersede? then Superseded else Disputed;
        Put(Reconciliation.Retired(target, status, now), rows[target.id].embedding, g);
        stored := if decision.Supersede? then memory.(supersedes := Some(target.id)) else memory.(status := Disputed);
      }
      Put(stored, Some(vector), g);
      return Ok(stored);
    }

    /** The exact-duplicate branch of the loop in `dream.apply`. */
    method MergeDuplicate(source: Memory, target: Memory, now: int)
      requires source.id in rows && target.id in rows
      modifies this
      ensures Snapshot() == Dream.Merge(old(Snapshot()), source, target, now)
    {
      var g := Bump("dream_merge", [source.id, target.id], false);
      Put(Reconciliation.Retired(source, Superseded, now), rows[source.id].embedding, g);
      Put(Reconciliation.WithEvidence(target, source.sourceRefs, now), rows[target.id].embedding, g);
    }

    /** One iteration of the loop in `dream.apply`; `seen` is the cache as the transaction found it. */
    method ApplyChange(ghost start: State, seen: map<Id, Memory>, touched: set<Id>, originals: set<Id>,
                       allowed: set<Id>, change: Dream.Change, vector: Vector, now: int) returns (r: Result<set<Id>>)
      requires Keyed(start) && seen == Visible(start) && start.registry == registry && start.rows.Keys <= rows.Keys
      modifies this
      ensures
        match Dream.ApplyChange(start, old(Snapshot()), touched, originals, allowed, change, vector, now)
        case Ok(p) => r == Ok(p.touched) && Snapshot() == p.state && registry == old(registry)
        case Err(e) => r == Err(e)
    {
      var normalized := NormalizeRecord(registry, change.memory);
      if normalized.Err? { return Err(normalized.error); }
      var memory, decision := normalized.value, change.decision;
      if decision.Create? { return Err(Schema); }
      if decision.target in touched || memory.id in touched { return Err(Schema); }
      r := Ok(touched + {decision.target, memory.id});
      if memory.id in seen {
        if !Dream.MergeAllowed(seen, originals, allowed, memory, decision) { return Err(Schema); }
        MergeDuplicate(seen[memory.id], seen[decision.target], now);
      } else {
        if memory.status != Active || memory.revision != 1 || Present(memory.supersedes) { return Err(Schema); }
        var stored := ApplyReconciliation(seen, Dream.Inferred(memory), vector, decision, allowed, false, now);
        if stored.Err? { return Err(stored.error); }
      }
    }

    /** `dream.apply` past its staleness checks: the loop over the changes, the closing bump, and rollback on any
        error. */
    method ApplyPlan(groups: seq<Dream.Group>, changes: seq<Dream.Change>, vectors: seq<Vector>, now: int)
        returns (r: Result<()>)
      requires Keyed(Snapshot()) && |changes| == |vectors|
      modifies this
      ensures
        match Dream.ApplyPlan(old(Snapshot()), groups, changes, vectors, now)
        case Ok(t) => r == Ok(()) && Snapshot() == t
        case Err(e) => r == Err(e) && Snapshot() == old(Snapshot())
    {
      var start := Snapshot();
      var seen := Visible(start);
      var originals, allowed := Dream.Originals(groups), Dream.Candidates(groups);
      ghost var p0 := Dream.Progressed(start, {});
      var touched: set<Id> := {};
      for i := 0 to |changes|
        invariant registry == start.registry && start.rows.Keys <= rows.Keys
        invariant Dream.ApplyChanges(start, p0, originals, allowed, changes[..i], vectors[..i], now)
          == Ok(Dream.Progressed(Snapshot(), touched))
      {
        assert changes[..i + 1][..i] == changes[..i] && vectors[..i + 1][..i] == vectors[..i];
        var step := ApplyChange(start, seen, touched, originals, allowed, changes[i], vectors[i], now);
        if step.Err? {
          Dream.PrefixError(start, p0, originals, allowed, changes, vectors, now, i + 1);
          Restore(start);
          return Err(step.error);
        }
        touched := step.value;
      }
      assert changes[..|changes|] == changes && vectors[..|vectors|] == vectors;
      var _ := Bump("dream_applied", [], false);
      return Ok(());
    }

    /** The archival loop of `maintain` over the page its query selected. */
    method ArchiveSuperseded(ghost cutoff: int, ghost limit: nat, page: seq<Key>)
      requires Keyed(Snapshot()) && page == FirstKeys(Runs.Expired(Snapshot(), cutoff), limit)
      modifies this
      ensures Snapshot() == Runs.ArchivePage(old(Snapshot()), cutoff, limit)
    {
      hide FirstKeys, Runs.Ids, Runs.Moved;
      ghost var start := Snapshot();
      if page == [] { return; }
      var g := Bump("archive_superseded", Runs.KeyIds(page), false);
      ghost var bumped := Snapshot();
      Runs.PageRows(start, cutoff, limit);
      Runs.NothingMoved(bumped, g);
      for i := 0 to |page|
        invariant Runs.Ids(page[..i]) <= bumped.rows.Keys
        invariant Snapshot() == Runs.Moved(bumped, Runs.Ids(page[..i]), g)
      {
        var id := page[i].id;
        Runs.NextOfPage(start, cutoff, limit, i);
        Runs.IdsOfOneMore(page, i);
        Runs.MoveOneMore(bumped, Runs.Ids(page[..i]), id, g);
        archives := archives[id := Row(rows[id].memory, rows[id].embedding, g)];
        rows := rows - {id};
      }
      assert page[..|page|] == page;
    }
  }

  class DreamTable {
    const db: OwnerTables
    var plans: map<string, Dream.SavedPlan>

    constructor (db: OwnerTables)
      ensures this.db == db && plans == map[]
    {
      this.db, plans := db, map[];
    }

    /** `dream.apply`: an unknown, already applied or stale plan is refused; otherwise the changes commit together with
        the mark that the plan was applied and, unless the worker moves its own scan on, the owner's cursor. */
    method ApplySaved(id: string, vectors: seq<Vector>, now: int, advanceCursor: bool) returns (r: Result<()>)
      requires Keyed(db.Snapshot()) && (id in plans ==> |vectors| == |plans[id].changes|)
      modifies this, db
      ensures
        var s := old(db.Snapshot());
        if id !in old(plans) || old(plans)[id].applied || s.generation != old(plans)[id].generation then
          r == Err(Conflict) && plans == old(plans) && db.Snapshot() == s
        else
          var plan := old(plans)[id];
          match Dream.ApplyPlan(s, plan.groups, plan.changes, vectors, now)
          case Err(e) => r == Err(e) && plans == old(plans) && db.Snapshot() == s
          case Ok(t) =>
            && r == Ok(()) && Dream.ApplyByHand(s, plan, vectors, now) == Ok(Dream.Accounted(t, plan))
              && plans == old(plans)[id := plan.(applied := true)]
            && db.Snapshot() == if advanceCursor then Dream.Accounted(t, plan) else t
    {
      hide Dream.ApplyPlan;
      if id !in plans { return Err(Conflict); }
      var plan := plans[id];
      if plan.applied || db.generation != plan.generation { return Err(Conflict); }
      r := db.ApplyPlan(plan.groups, plan.changes, vectors, now);
      if r.Err? { return; }
      plans := plans[id := plan.(applied := true)];
      if advanceCursor {
        db.cursor, db.dreamWrites := plan.cursor, Max(db.dreamWrites, plan.writes);
      }
    }
  }
}
