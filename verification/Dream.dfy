/** `memory_core/memory/dream.py`: the baseline duplicate planner and the validated, atomic application of a plan. */
module Dream {
  import opened Types
  import opened Counting
  import opened Ordering
  import opened Fields
  import opened Store
  import opened Reconciliation

  datatype Change = Change(memory: Memory, decision: Decision)

  /** A scanned record with the neighbours retrieved for it. */
  datatype Group = Group(memory: Memory, neighbors: seq<Memory>)

  function Originals(groups: seq<Group>): set<Id> {
    set i | 0 <= i < |groups| :: groups[i].memory.id
  }

  function Candidates(groups: seq<Group>): set<Id> {
    Originals(groups) + set i, j | 0 <= i < |groups| && 0 <= j < |groups[i].neighbors| :: groups[i].neighbors[j].id
  }

  // ---------- application ----------

  datatype Progressed = Progressed(state: State, touched: set<Id>)

  predicate MergeAllowed(seen: map<Id, Memory>, originals: set<Id>, allowed: set<Id>, m: Memory, d: Decision)
    requires m.id in seen && !d.Create?
  {
    && m.id in originals && d.Attach?
    && d.target in seen && d.target in allowed
    && seen[m.id] == m
    && seen[d.target].revision == d.expected && seen[d.target].status == Active
    && Equivalent(seen[m.id], seen[d.target])
  }

  function MergeRows(s: State, source: Memory, target: Memory, now: int): State
    requires source.id in s.rows && target.id in s.rows
  {
    Put(Put(s, Retired(source, Superseded, now), s.rows[source.id].embedding, s.generation),
        WithEvidence(target, source.sourceRefs, now), s.rows[target.id].embedding, s.generation)
  }

  /** Retire an exact duplicate into its target; the target is written last. */
  function Merge(s: State, source: Memory, target: Memory, now: int): State
    requires source.id in s.rows && target.id in s.rows
  {
    MergeRows(Bump(s, "dream_merge", [source.id, target.id], false), source, target, now)
  }

  /** Planner output is never user-stated, so it cannot carry explicit provenance. */
  function Inferred(m: Memory): Memory {
    if m.content.Preference? && m.content.explicit then m.(content := m.content.(explicit := false)) else m
  }

  /** One iteration of the loop in `apply`; `start` is what the cache saw when the transaction began. */
  ghost function ApplyChange(start: State, s: State, touched: set<Id>, originals: set<Id>, allowed: set<Id>,
                             change: Change, v: Vector, now: int): (r: Result<Progressed>)
    requires Keyed(start) && start.rows.Keys <= s.rows.Keys
    ensures r.Ok? ==> start.rows.Keys <= r.value.state.rows.Keys
  {
    var normalized := NormalizeMemory(start.registry, change.memory);
    var d := change.decision;
    if normalized.Err? then Err(normalized.error)
    else if d.Create? then Err(Schema)
    else
      var m := normalized.value;
      var seen := Visible(start);
      var now_touched := touched + {d.target, m.id};
      if d.target in touched || m.id in touched then Err(Schema)
      else if m.id in seen then
        if !MergeAllowed(seen, originals, allowed, m, d) then Err(Schema)
        else Ok(Progressed(Merge(s, seen[m.id], seen[d.target], now), now_touched))
      else if m.status != Active || m.revision != 1 || Present(m.supersedes) then Err(Schema)
      else
        var outcome := Reconcile(seen, s, Inferred(m), v, d, allowed, false, now);
        if outcome.Err? then Err(outcome.error) else Ok(Progressed(outcome.value.state, now_touched))
  }

  /** The whole loop over the plan's changes. */
  ghost function ApplyChanges(start: State, p: Progressed, originals: set<Id>, allowed: set<Id>, changes: seq<Change>,
                              vectors: seq<Vector>, now: int): (r: Result<Progressed>)
    requires Keyed(start) && start.rows.Keys <= p.state.rows.Keys && |changes| == |vectors|
    ensures r.Ok? ==> start.rows.Keys <= r.value.state.rows.Keys
    decreases |changes|
  {
    if changes == [] then Ok(p)
    else
      var n := |changes| - 1;
      var before := ApplyChanges(start, p, originals, allowed, changes[..n], vectors[..n], now);
      if before.Err? then before
      else ApplyChange(start, before.value.state, before.value.touched, originals, allowed, changes[n], vectors[n], now)
  }

  /** `apply` after its staleness checks: all changes, then the closing bump; any error rolls everything back. */
  ghost function ApplyPlan(start: State, groups: seq<Group>, changes: seq<Change>, vectors: seq<Vector>,
                           now: int): Result<State>
    requires Keyed(start) && |changes| == |vectors|
  {
    var r := ApplyChanges(start, Progressed(start, {}), Originals(groups), Candidates(groups), changes, vectors, now);
    if r.Err? then Err(r.error) else Ok(Bump(r.value.state, "dream_applied", [], false))
  }

  /** A row of the table of dream plans; `writes` is the write count the plan accounts for. */
  datatype SavedPlan = SavedPlan(
    generation: nat, cursor: Key, writes: nat, groups: seq<Group>, changes: seq<Change>, applied: bool)

  /** Where a plan applied by hand leaves the owner's counters. */
  function Accounted(s: State, plan: SavedPlan): State {
    s.(cursor := plan.cursor, dreamWrites := Max(s.dreamWrites, plan.writes))
  }

  /** `apply` of a saved plan by hand: refused if it was applied before or the owner has moved on since. */
  ghost function ApplyByHand(s: State, plan: SavedPlan, vectors: seq<Vector>, now: int): Result<State>
    requires Keyed(s) && |plan.changes| == |vectors|
  {
    if plan.applied || s.generation != plan.generation then Err(Conflict)
    else
      match ApplyPlan(s, plan.groups, plan.changes, vectors, now)
      case Err(e) => Err(e)
      case Ok(t) => Ok(Accounted(t, plan))
  }

  /** The first error decides the outcome of the whole loop. */
  lemma {:induction false} PrefixError(start: State, p: Progressed, originals: set<Id>, allowed: set<Id>,
                                       changes: seq<Change>, vectors: seq<Vector>, now: int, n: nat)
    requires Keyed(start) && start.rows.Keys <= p.state.rows.Keys && |changes| == |vectors| && n <= |changes|
    requires ApplyChanges(start, p, originals, allowed, changes[..n], vectors[..n], now).Err?
    ensures ApplyChanges(start, p, originals, allowed, changes, vectors, now)
         == ApplyChanges(start, p, originals, allowed, changes[..n], vectors[..n], now)
    decreases |changes|
  {
    hide ApplyChange;
    if n == |changes| {
      assert changes[..n] == changes && vectors[..n] == vectors;
    } else {
      var last := |changes| - 1;
      assert changes[..last][..n] == changes[..n] && vectors[..last][..n] == vectors[..n];
      PrefixError(start, p, originals, allowed, changes[..last], vectors[..last], now, n);
    }
  }

  // ---------- what application keeps ----------

  /** Mid-transaction: records outside `touched` are as the transaction found them, and none has moved two versions. */
  ghost predicate Through(start: State, p: Progressed) {
    var s := p.state;
    && Kept(start, start, s)
    && start.rows.Keys <= s.rows.Keys
    && s.archives == start.archives && s.registry == start.registry
    && s.writes == start.writes && s.cursor == start.cursor && s.dreamWrites == start.dreamWrites
    && (forall id :: id in s.rows && id !in p.touched ==> id in start.rows && s.rows[id] == start.rows[id])
    && (forall id :: id in start.rows ==> OneStep(start.rows[id].memory, s.rows[id].memory))
  }

  /** Reading through the transaction or through the cache is the same for untouched records. */
  lemma UntouchedReadsAgree(start: State, p: Progressed, id: Id)
    requires Through(start, p) && id !in p.touched && id in Visible(start)
    ensures id in p.state.rows && p.state.rows[id].memory == Visible(start)[id]
  {
  }

  lemma SelfMergeKeeps(s0: State, s: State, t: Memory, now: int)
    requires Inv(s) && Later(s0, s) && s0.generation < s.generation
    requires t.id in s.rows && s.rows[t.id].memory == t && t.status == Active
    ensures Kept(s0, s, MergeRows(s, t, t, now))
  {
    hide Inv, Later, Evolves;
    var e := s.rows[t.id].embedding;
    assert MergeRows(s, t, t, now) == Put(s, WithEvidence(t, t.sourceRefs, now), e, s.generation);
    AttachCase(s0, s, t, t.sourceRefs, now, e);
  }

  lemma DistinctMergeKeeps(s0: State, s: State, source: Memory, target: Memory, now: int)
    requires Inv(s) && Later(s0, s) && s0.generation < s.generation && source.id != target.id
    requires source.id in s.rows && s.rows[source.id].memory == source && source.status == Active
    requires target.id in s.rows && s.rows[target.id].memory == target && target.status == Active
    ensures Kept(s0, s, MergeRows(s, source, target, now))
  {
    var mid := Put(s, Retired(source, Superseded, now), s.rows[source.id].embedding, s.generation);
    ReviseCase(s0, s, Retired(source, Superseded, now), s.rows[source.id].embedding);
    AttachCase(s0, mid, target, source.sourceRefs, now, s.rows[target.id].embedding);
    EvolvesTransitive(s, mid, MergeRows(s, source, target, now));
  }

  lemma MergeKeeps(s0: State, s: State, source: Memory, target: Memory, now: int)
    requires Inv(s) && Later(s0, s)
    requires source.id in s.rows && s.rows[source.id].memory == source && source.status == Active
    requires target.id in s.rows && s.rows[target.id].memory == target && target.status == Active
    ensures Kept(s0, s, Merge(s, source, target, now))
  {
    var bumped := Bump(s, "dream_merge", [source.id, target.id], false);
    BumpKeeps(s, "dream_merge", [source.id, target.id], false);
    LaterTransitive(s0, s, bumped);
    if source.id == target.id {
      SelfMergeKeeps(s0, bumped, target, now);
    } else {
      DistinctMergeKeeps(s0, bumped, source, target, now);
    }
    CarriedThroughBump(s, bumped, Merge(s, source, target, now));
  }

  lemma CarriedThroughBump(s: State, bumped: State, t: State)
    requires All(s) == All(bumped) && Evolves(bumped, t)
    ensures Evolves(s, t)
  {
  }

  /** The checks do not stop a plan from merging a scanned record into itself: the change is applied, and because the
      target is written last the record ends active, one revision on, with the sources it had. */
  lemma SelfMergeApplies(start: State, p: Progressed, groups: seq<Group>, t: Memory, v: Vector, now: int)
    requires Keyed(start) && start.rows.Keys <= p.state.rows.Keys
    requires t.id in start.rows && start.rows[t.id].memory == t && t.status == Active && t.id in Originals(groups)
    requires t.id !in p.touched && NormalizeMemory(start.registry, t) == Ok(t)
    ensures
      var change := Change(t, Attach(t.id, t.revision));
      var r := ApplyChange(start, p.state, p.touched, Originals(groups), Candidates(groups), change, v, now);
      && r.Ok? && t.id in r.value.state.rows
      && r.value.state.rows[t.id].memory == WithEvidence(t, t.sourceRefs, now)
      && r.value.state.rows[t.id].memory.status == Active && r.value.state.rows[t.id].memory.revision == t.revision + 1
  {
    hide NormalizeMemory, MergedRefs;
  }

  lemma MergeTouches(s: State, source: Memory, target: Memory, now: int)
    requires source.id in s.rows && s.rows[source.id].memory == source && source.status == Active
    requires target.id in s.rows && s.rows[target.id].memory == target && target.status == Active
    ensures
      var t := Merge(s, source, target, now);
      && t.rows.Keys == s.rows.Keys && t.archives == s.archives && t.registry == s.registry
      && t.writes == s.writes && t.cursor == s.cursor && t.dreamWrites == s.dreamWrites
      && (forall id :: id in s.rows && id != source.id && id != target.id ==> t.rows[id] == s.rows[id])
      && OneStep(source, t.rows[source.id].memory) && OneStep(target, t.rows[target.id].memory)
      && t.rows[target.id].memory == WithEvidence(target, source.sourceRefs, now)
  {
  }

  /** What a merge of two records leaves of each: the source superseded, the target with the sources of both, each one
      revision on and with the embedding it had. */
  lemma MergeSettles(s: State, source: Memory, target: Memory, now: int)
    requires source.id in s.rows && s.rows[source.id].memory == source
    requires target.id in s.rows && s.rows[target.id].memory == target && source.id != target.id
    ensures
      var t := Merge(s, source, target, now);
      var u := t.rows[target.id].memory.sourceRefs;
      && t.generation == s.generation + 1
      && t.rows[source.id]
         == Row(source.(status := Superseded, revision := source.revision + 1, updatedAt := now),
                s.rows[source.id].embedding, t.generation)
      && t.rows[target.id]
         == Row(target.(sourceRefs := u, revision := target.revision + 1, updatedAt := now),
                s.rows[target.id].embedding, t.generation)
      && forall x :: x in u <==> x in source.sourceRefs || x in target.sourceRefs
  {
  }

  /** An existing record may only be retired, and only into an exact duplicate: the proposal is the record as the store
      has it, the target one of the plan's candidates, active, at the revision proposed, with the same scope, status,
      summary, metadata and content. */
  lemma MergesOnlyDuplicates(start: State, s: State, touched: set<Id>, originals: set<Id>, allowed: set<Id>,
                             change: Change, v: Vector, now: int)
    requires Keyed(start) && start.rows.Keys <= s.rows.Keys && NormalizeMemory(start.registry, change.memory).Ok?
    requires
      var m := NormalizeMemory(start.registry, change.memory).value;
      m.id in start.rows && start.rows[m.id].memory.status != Superseded
    ensures
      var m, d := NormalizeMemory(start.registry, change.memory).value, change.decision;
      ApplyChange(start, s, touched, originals, allowed, change, v, now).Ok? <==>
        && d.Attach? && d.target !in touched && m.id !in touched && m.id in originals && d.target in allowed
        && m == start.rows[m.id].memory && d.target in start.rows
        && var t := start.rows[d.target].memory;
        && t.status == Active && t.revision == d.expected
        && t.scope == m.scope && m.status == Active && t.summary == m.summary && t.metadata == m.metadata
        && t.content == m.content
  {
    hide NormalizeMemory, Merge;
  }

  // ---------- one change, then all of them ----------

  /** The frame of one change: `ids` were untouched, and nothing else differs. */
  ghost predicate Framed(start: State, s: State, t: State, ids: set<Id>) {
    && s.rows.Keys <= t.rows.Keys <= s.rows.Keys + ids
    && t.archives == s.archives && t.registry == s.registry
    && t.writes == s.writes && t.cursor == s.cursor && t.dreamWrites == s.dreamWrites
    && (forall id :: id in s.rows && id !in ids ==> t.rows[id] == s.rows[id])
    && (forall id :: id in s.rows && id in ids ==> OneStep(s.rows[id].memory, t.rows[id].memory))
  }

  lemma ThroughOneMore(start: State, p: Progressed, t: State, ids: set<Id>)
    requires Through(start, p) && Kept(start, p.state, t) && ids !! p.touched && Framed(start, p.state, t, ids)
    ensures Through(start, Progressed(t, p.touched + ids))
  {
    hide Inv, Later, Evolves;
    EvolvesTransitive(start, p.state, t);
    forall id | id in start.rows ensures OneStep(start.rows[id].memory, t.rows[id].memory) {
      assert id in p.state.rows;
      if id in ids { assert p.state.rows[id] == start.rows[id]; }
    }
  }

  lemma MergeChange(start: State, p: Progressed, source: Memory, target: Memory, now: int)
    requires Keyed(start) && Through(start, p) && source.id !in p.touched && target.id !in p.touched
    requires source.id in Visible(start) && Visible(start)[source.id] == source && source.status == Active
    requires target.id in Visible(start) && Visible(start)[target.id] == target && target.status == Active
    ensures Through(start, Progressed(Merge(p.state, source, target, now), p.touched + {target.id, source.id}))
  {
    hide Inv, Later, Evolves, Merge;
    UntouchedReadsAgree(start, p, source.id);
    UntouchedReadsAgree(start, p, target.id);
    MergeKeeps(start, p.state, source, target, now);
    MergeTouches(p.state, source, target, now);
    ThroughOneMore(start, p, Merge(p.state, source, target, now), {target.id, source.id});
  }

  lemma AppliedIsFramed(start: State, seen: map<Id, Memory>, s: State, m: Memory, v: Vector, d: Decision,
                        allowed: set<Id>, now: int)
    requires Keyed(s) && Backed(seen, s) && Current(seen, s, d) && !d.Create?
    requires Admit(seen, s, m, d, allowed).Ok?
    ensures Framed(start, s, Applied(s, m, v, d, Admit(seen, s, m, d, allowed).value, false, now).state,
      {d.target, m.id})
  {
    AppliedTouches(seen, s, m, v, d, allowed, false, now);
    AppliedCounts(s, m, v, d, Admit(seen, s, m, d, allowed).value, false, now);
  }

  lemma ReplacementChange(start: State, p: Progressed, m: Memory, v: Vector, d: Decision, allowed: set<Id>, now: int)
    requires Keyed(start) && Through(start, p) && !d.Create? && d.target !in p.touched && m.id !in p.touched
    requires Incoming(p.state, m) && Reconcile(Visible(start), p.state, m, v, d, allowed, false, now).Ok?
    ensures Through(start,
      Progressed(Reconcile(Visible(start), p.state, m, v, d, allowed, false, now).value.state,
      p.touched + {d.target, m.id}))
  {
    hide Inv, Later, Evolves, Applied, Objection, Framed, Keyed, Incoming, Through, Current;
    var seen := Visible(start);
    var s := p.state;
    ReadsThrough(start, p, d);
    AppliedKeeps(start, seen, s, m, v, d, allowed, false, now);
    AppliedIsFramed(start, seen, s, m, v, d, allowed, now);
    ThroughOneMore(start, p, Applied(s, m, v, d, Admit(seen, s, m, d, allowed).value, false, now).state,
      {d.target, m.id});
  }

  lemma ReadsThrough(start: State, p: Progressed, d: Decision)
    requires Keyed(start) && Through(start, p) && (d.Create? || d.target !in p.touched)
    ensures Backed(Visible(start), p.state) && Current(Visible(start), p.state, d) && Inv(p.state) && Keyed(p.state)
      && Later(start, p.state)
  {
    hide Later, Evolves;
    if !d.Create? && d.target in Visible(start) { UntouchedReadsAgree(start, p, d.target); }
  }

  lemma InferredIsIncoming(s: State, m: Memory)
    requires m.id != "" && Normal(s.registry.fields, m) && m.status == Active && m.revision == 1
      && !Present(m.supersedes)
    ensures Incoming(s, Inferred(m)) && Inferred(m).id == m.id
  {
  }

  lemma ChangeKeeps(start: State, p: Progressed, originals: set<Id>, allowed: set<Id>, change: Change, v: Vector,
                    now: int)
    requires Inv(start) && Through(start, p) && change.memory.id != ""
    requires ApplyChange(start, p.state, p.touched, originals, allowed, change, v, now).Ok?
    ensures Through(start, ApplyChange(start, p.state, p.touched, originals, allowed, change, v, now).value)
  {
    hide Inv, Later, Evolves, Normal, NormalizeMemory, Merge, Reconcile, Incoming, Inferred;
    InvParts(start);
    InvParts(p.state);
    var m := NormalizeMemory(start.registry, change.memory).value;
    NormalizedKeepsId(start.registry, change.memory);
    var d := change.decision;
    NormalizedIsNormal(start.registry, change.memory);
    if m.id in Visible(start) {
      MergeChange(start, p, m, Visible(start)[d.target], now);
    } else {
      InferredIsIncoming(p.state, m);
      ReplacementChange(start, p, Inferred(m), v, d, allowed, now);
    }
  }

  lemma {:induction false} ChangesKeep(start: State, p: Progressed, originals: set<Id>, allowed: set<Id>,
                                       changes: seq<Change>, vectors: seq<Vector>, now: int)
    requires Inv(start) && Through(start, p) && |changes| == |vectors|
    requires forall i :: 0 <= i < |changes| ==> changes[i].memory.id != ""
    requires ApplyChanges(start, p, originals, allowed, changes, vectors, now).Ok?
    ensures Through(start, ApplyChanges(start, p, originals, allowed, changes, vectors, now).value)
    decreases |changes|
  {
    if changes != [] {
      var n := |changes| - 1;
      ChangesKeep(start, p, originals, allowed, changes[..n], vectors[..n], now);
      var before := ApplyChanges(start, p, originals, allowed, changes[..n], vectors[..n], now).value;
      ChangeKeeps(start, before, originals, allowed, changes[n], vectors[n], now);
    }
  }

  // ---------- explicit rules survive consolidation ----------

  lemma EquivalentStatesSameRule(a: Memory, b: Memory, rule: Rule)
    requires Equivalent(a, b) && States(a, rule)
    ensures States(b, rule)
  {
  }

  /** Retiring a duplicate keeps the rule in force through the duplicate it is merged into. */
  lemma MergeKeepsRule(s: State, source: Memory, target: Memory, now: int, rule: Rule)
    requires source.id in s.rows && s.rows[source.id].memory == source && source.status == Active
    requires target.id in s.rows && s.rows[target.id].memory == target && target.status == Active
    requires Equivalent(source, target) && InForce(s, rule)
    ensures InForce(Merge(s, source, target, now), rule)
  {
    hide Merge;
    MergeTouches(s, source, target, now);
    var t := Merge(s, source, target, now);
    var id :| id in s.rows && States(s.rows[id].memory, rule);
    if id == source.id || id == target.id {
      EquivalentStatesSameRule(source, target, rule);
      assert States(t.rows[target.id].memory, rule);
    } else {
      assert States(t.rows[id].memory, rule);
    }
  }

  lemma ChangeKeepsRule(start: State, p: Progressed, originals: set<Id>, allowed: set<Id>, change: Change, v: Vector,
                        now: int, rule: Rule)
    requires Inv(start) && Through(start, p) && change.memory.id != ""
    requires ApplyChange(start, p.state, p.touched, originals, allowed, change, v, now).Ok?
    requires InForce(p.state, rule)
    ensures InForce(ApplyChange(start, p.state, p.touched, originals, allowed, change, v, now).value.state, rule)
  {
    hide Inv, Later, Evolves, Normal, NormalizeMemory, Merge, Applied, Through, InForce, Objection;
    var m := NormalizeMemory(start.registry, change.memory).value;
    var d := change.decision;
    InvParts(start);
    ReadsThrough(start, p, d);
    var seen := Visible(start);
    if m.id in seen {
      ReadsThrough(start, p, Attach(m.id, 0));
      MergeKeepsRule(p.state, seen[m.id], seen[d.target], now, rule);
    } else {
      AppliedKeepsRule(seen, p.state, Inferred(m), v, d, allowed, false, now, rule);
    }
  }

  lemma {:induction false} ChangesKeepRule(start: State, p: Progressed, originals: set<Id>, allowed: set<Id>,
                                           changes: seq<Change>, vectors: seq<Vector>, now: int, rule: Rule)
    requires Inv(start) && Through(start, p) && |changes| == |vectors|
    requires forall i :: 0 <= i < |changes| ==> changes[i].memory.id != ""
    requires ApplyChanges(start, p, originals, allowed, changes, vectors, now).Ok?
    requires InForce(p.state, rule)
    ensures InForce(ApplyChanges(start, p, originals, allowed, changes, vectors, now).value.state, rule)
    decreases |changes|
  {
    hide Inv, Kept, ApplyChange, InForce;
    InvParts(start);
    if changes != [] {
      var n := |changes| - 1;
      ChangesKeepRule(start, p, originals, allowed, changes[..n], vectors[..n], now, rule);
      ChangesKeep(start, p, originals, allowed, changes[..n], vectors[..n], now);
      var before := ApplyChanges(start, p, originals, allowed, changes[..n], vectors[..n], now).value;
      ChangeKeepsRule(start, before, originals, allowed, changes[n], vectors[n], now, rule);
    }
  }

  // ---------- dreaming states nothing ----------

  predicate IsStatement(m: Memory) {
    m.content.Preference? && m.content.explicit
  }

  /** Rows the transaction added are not explicit statements. */
  ghost predicate AddsNoStatement(start: State, s: State) {
    forall id :: id in s.rows && id !in start.rows ==> !IsStatement(s.rows[id].memory)
  }

  lemma ReplacementIsNoStatement(start: State, s: State, m: Memory, v: Vector, d: Decision, target: Option<Memory>,
                                 now: int)
    requires AddsNoStatement(start, s) && (d.Create? <==> target.None?) && (target.Some? ==> target.value.id in s.rows)
    requires target.Some? && target.value.id !in start.rows ==> !IsStatement(target.value)
    ensures AddsNoStatement(start, Applied(s, Inferred(m), v, d, target, false, now).state)
  {
    hide MergedRefs;
  }

  lemma ChangeStatesNothing(start: State, p: Progressed, originals: set<Id>, allowed: set<Id>, change: Change,
                            v: Vector, now: int)
    requires Keyed(start) && start.rows.Keys <= p.state.rows.Keys && AddsNoStatement(start, p.state)
    requires ApplyChange(start, p.state, p.touched, originals, allowed, change, v, now).Ok?
    ensures AddsNoStatement(start,
      ApplyChange(start, p.state, p.touched, originals, allowed, change, v, now).value.state)
  {
    hide NormalizeMemory, Applied, Objection, Equivalent, Inferred;
    var m := NormalizeMemory(start.registry, change.memory).value;
    if m.id !in Visible(start) {
      ReplacementIsNoStatement(start, p.state, m, v, change.decision,
        Admit(Visible(start), p.state, Inferred(m), change.decision, allowed).value, now);
    }
  }

  /** Consolidation never states a rule for the user: whatever a plan contains, no record it adds is explicit. */
  lemma {:induction false} ChangesStateNothing(start: State, p: Progressed, originals: set<Id>, allowed: set<Id>,
                                               changes: seq<Change>, vectors: seq<Vector>, now: int)
    requires Keyed(start) && start.rows.Keys <= p.state.rows.Keys && |changes| == |vectors|
      && AddsNoStatement(start, p.state)
    requires ApplyChanges(start, p, originals, allowed, changes, vectors, now).Ok?
    ensures AddsNoStatement(start, ApplyChanges(start, p, originals, allowed, changes, vectors, now).value.state)
    decreases |changes|
  {
    hide ApplyChange, AddsNoStatement;
    if changes != [] {
      var n := |changes| - 1;
      ChangesStateNothing(start, p, originals, allowed, changes[..n], vectors[..n], now);
      var before := ApplyChanges(start, p, originals, allowed, changes[..n], vectors[..n], now).value;
      ChangeStatesNothing(start, before, originals, allowed, changes[n], vectors[n], now);
    }
  }

  lemma PlanStatesNothing(start: State, groups: seq<Group>, changes: seq<Change>, vectors: seq<Vector>, now: int)
    requires Keyed(start) && |changes| == |vectors| && ApplyPlan(start, groups, changes, vectors, now).Ok?
    ensures AddsNoStatement(start, ApplyPlan(start, groups, changes, vectors, now).value)
  {
    hide ApplyChanges;
    ChangesStateNothing(start, Progressed(start, {}), Originals(groups), Candidates(groups), changes, vectors, now);
  }

  // ---------- what a plan adds is what it proposes ----------

  /** The row is the change's record, normalised, with its vector; only provenance, status and link may differ: a
      planner states nothing for the user, and the decision retires or links. */
  ghost predicate ProposedBy(start: State, change: Change, v: Vector, u: Row) {
    var n := NormalizeMemory(start.registry, change.memory);
    && n.Ok? && u.embedding == Some(v)
    && u.memory == n.value.(status := u.memory.status, supersedes := u.memory.supersedes, content := u.memory.content)
    && (u.memory.content == n.value.content
        || (n.value.content.Preference? && u.memory.content == n.value.content.(explicit := false)))
  }

  ghost predicate AllProposed(start: State, changes: seq<Change>, vectors: seq<Vector>, s: State)
    requires |changes| == |vectors|
  {
    forall id :: id in s.rows && id !in start.rows ==>
      exists i :: 0 <= i < |changes| && ProposedBy(start, changes[i], vectors[i], s.rows[id])
  }

  lemma ReplacementIsProposed(start: State, s: State, change: Change, v: Vector, allowed: set<Id>, now: int)
    requires Keyed(start) && start.rows.Keys <= s.rows.Keys && NormalizeMemory(start.registry, change.memory).Ok?
    requires
      var m := Inferred(NormalizeMemory(start.registry, change.memory).value);
      Reconcile(Visible(start), s, m, v, change.decision, allowed, false, now).Ok?
    ensures
      var m := Inferred(NormalizeMemory(start.registry, change.memory).value);
      var t := Reconcile(Visible(start), s, m, v, change.decision, allowed, false, now).value.state;
      && (forall id :: id in t.rows && id !in s.rows ==> ProposedBy(start, change, v, t.rows[id]))
      && forall id ::
        id in s.rows && (change.decision.Create? || id != change.decision.target) ==> t.rows[id] == s.rows[id]
  {
    hide NormalizeMemory, Inferred, Reconcile, ProposedBy;
    var m := Inferred(NormalizeMemory(start.registry, change.memory).value);
    var t := Reconcile(Visible(start), s, m, v, change.decision, allowed, false, now).value.state;
    ReplacementRows(Visible(start), s, m, v, change.decision, allowed, now);
    forall id | id in t.rows && id !in s.rows ensures ProposedBy(start, change, v, t.rows[id]) {
      InferredIsProposed(start, change, v, t.rows[id]);
    }
  }

  lemma ReplacementRows(seen: map<Id, Memory>, s: State, m: Memory, v: Vector, d: Decision, allowed: set<Id>, now: int)
    requires Backed(seen, s) && Reconcile(seen, s, m, v, d, allowed, false, now).Ok?
    ensures
      var t := Reconcile(seen, s, m, v, d, allowed, false, now).value.state;
      && (forall id :: id in t.rows && id !in s.rows ==>
            && t.rows[id].embedding == Some(v)
            && t.rows[id].memory == m.(status := t.rows[id].memory.status, supersedes := t.rows[id].memory.supersedes))
      && forall id :: id in s.rows && (d.Create? || id != d.target) ==> t.rows[id] == s.rows[id]
  {
    hide MergedRefs, Objection;
  }

  lemma InferredIsProposed(start: State, change: Change, v: Vector, u: Row)
    requires NormalizeMemory(start.registry, change.memory).Ok? && u.embedding == Some(v)
    requires
      var m := Inferred(NormalizeMemory(start.registry, change.memory).value);
      u.memory == m.(status := u.memory.status, supersedes := u.memory.supersedes)
    ensures ProposedBy(start, change, v, u)
  {
    hide NormalizeMemory;
  }

  lemma ChangeIsProposed(start: State, p: Progressed, originals: set<Id>, allowed: set<Id>, change: Change, v: Vector,
                         now: int)
    requires Keyed(start) && Through(start, p)
    requires ApplyChange(start, p.state, p.touched, originals, allowed, change, v, now).Ok?
    ensures
      var t := ApplyChange(start, p.state, p.touched, originals, allowed, change, v, now).value.state;
      forall id :: id in t.rows && id !in start.rows ==>
        if id in p.state.rows then t.rows[id] == p.state.rows[id] else ProposedBy(start, change, v, t.rows[id])
  {
    hide NormalizeMemory, Reconcile, Inferred, Equivalent, MergedRefs, Kept, ProposedBy;
    var m := NormalizeMemory(start.registry, change.memory).value;
    if m.id !in Visible(start) { ReplacementIsProposed(start, p.state, change, v, allowed, now); }
  }

  lemma {:induction false} ChangesAreProposed(start: State, p: Progressed, originals: set<Id>, allowed: set<Id>,
                                              changes: seq<Change>, vectors: seq<Vector>, now: int)
    requires Inv(start) && Keyed(start) && p == Progressed(start, {}) && |changes| == |vectors|
    requires forall i :: 0 <= i < |changes| ==> changes[i].memory.id != ""
    requires ApplyChanges(start, p, originals, allowed, changes, vectors, now).Ok?
    ensures Through(start, ApplyChanges(start, p, originals, allowed, changes, vectors, now).value)
    ensures AllProposed(start, changes, vectors,
      ApplyChanges(start, p, originals, allowed, changes, vectors, now).value.state)
    decreases |changes|
  {
    hide ApplyChange, Through, ProposedBy, Inv;
    if changes == [] {
      StartIsThrough(start);
    } else {
      var n := |changes| - 1;
      ChangesAreProposed(start, p, originals, allowed, changes[..n], vectors[..n], now);
      var before := ApplyChanges(start, p, originals, allowed, changes[..n], vectors[..n], now).value;
      ChangeKeeps(start, before, originals, allowed, changes[n], vectors[n], now);
      ChangeIsProposed(start, before, originals, allowed, changes[n], vectors[n], now);
      var t := ApplyChanges(start, p, originals, allowed, changes, vectors, now).value.state;
      forall id | id in t.rows && id !in start.rows
        ensures exists i :: 0 <= i < |changes| && ProposedBy(start, changes[i], vectors[i], t.rows[id])
      {
        if id in before.state.rows {
          var i :| 0 <= i < n && ProposedBy(start, changes[..n][i], vectors[..n][i], before.state.rows[id]);
          assert changes[i] == changes[..n][i] && vectors[i] == vectors[..n][i];
        } else {
          assert ProposedBy(start, changes[n], vectors[n], t.rows[id]);
        }
      }
    }
  }

  /** Every record a plan adds is one it proposes. */
  lemma PlanAddsWhatItProposes(start: State, groups: seq<Group>, changes: seq<Change>, vectors: seq<Vector>, now: int)
    requires Inv(start) && Keyed(start) && |changes| == |vectors|
    requires forall i :: 0 <= i < |changes| ==> changes[i].memory.id != ""
    requires ApplyPlan(start, groups, changes, vectors, now).Ok?
    ensures AllProposed(start, changes, vectors, ApplyPlan(start, groups, changes, vectors, now).value)
  {
    hide ApplyChanges, ProposedBy, Inv;
    ChangesAreProposed(start, Progressed(start, {}), Originals(groups), Candidates(groups), changes, vectors, now);
  }

  lemma StartIsThrough(start: State)
    requires Inv(start)
    ensures Through(start, Progressed(start, {}))
  {
    hide Inv;
    LaterReflexive(start);
  }

  /** Applying a plan: a well-formed later state that counts no write, moves no scan cursor, raises every revision by
      at most one, and keeps every explicit rule in force. */
  lemma PlanKeeps(start: State, groups: seq<Group>, changes: seq<Change>, vectors: seq<Vector>, now: int)
    requires Inv(start) && |changes| == |vectors| && forall i :: 0 <= i < |changes| ==> changes[i].memory.id != ""
    requires Keyed(start) && ApplyPlan(start, groups, changes, vectors, now).Ok?
    ensures
      var t := ApplyPlan(start, groups, changes, vectors, now).value;
      && Kept(start, start, t) && t.generation > start.generation
      && t.writes == start.writes && t.cursor == start.cursor && t.dreamWrites == start.dreamWrites
      && t.archives == start.archives && t.registry == start.registry
      && (forall id :: id in start.rows ==> id in t.rows && OneStep(start.rows[id].memory, t.rows[id].memory))
  {
    hide Inv, ApplyChanges, Evolves, Later;
    StartIsThrough(start);
    var p0 := Progressed(start, {});
    ChangesKeep(start, p0, Originals(groups), Candidates(groups), changes, vectors, now);
    var s := ApplyChanges(start, p0, Originals(groups), Candidates(groups), changes, vectors, now).value.state;
    BumpKeeps(s, "dream_applied", [], false);
    LaterTransitive(start, s, Bump(s, "dream_applied", [], false));
    LaterGenerations(start, s);
    CarriedToBump(start, s, Bump(s, "dream_applied", [], false));
  }

  lemma LaterGenerations(s: State, t: State)
    requires Later(s, t)
    ensures s.generation <= t.generation
  {
  }

  lemma CarriedToBump(start: State, s: State, bumped: State)
    requires All(s) == All(bumped) && Evolves(start, s)
    ensures Evolves(start, bumped)
  {
  }

  lemma PlanKeepsRule(start: State, groups: seq<Group>, changes: seq<Change>, vectors: seq<Vector>, now: int,
                      rule: Rule)
    requires Inv(start) && |changes| == |vectors| && forall i :: 0 <= i < |changes| ==> changes[i].memory.id != ""
    requires Keyed(start) && ApplyPlan(start, groups, changes, vectors, now).Ok? && InForce(start, rule)
    ensures InForce(ApplyPlan(start, groups, changes, vectors, now).value, rule)
  {
    hide Inv, ApplyChanges, Through;
    StartIsThrough(start);
    ChangesKeepRule(start, Progressed(start, {}), Originals(groups), Candidates(groups), changes, vectors, now, rule);
  }
}
