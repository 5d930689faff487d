/** `remember_reconciled` of `memory_core/memory/service.py`: inspect, decide outside any transaction, persist only if
    the generation has not moved. Interleaved clients commit exactly what one-at-a-time clients would. */
module Remember {
  import opened Types
  import opened Ordering
  import opened Fields
  import opened Store
  import opened Reconciliation
  import opened Runs

  datatype Request = Request(memory: Memory, vector: Vector, decision: Option<Decision>, expected: Option<nat>)

  /** What `inspect` returns: the normalised record, the retrieved neighbours, the generation read. */
  datatype Inspection = Inspection(memory: Memory, neighbors: seq<Memory>, generation: nat)

  /** `OwnerCache.eligible`: active records of the user scope and of the given project. */
  function Eligible(s: State, project: Option<string>): set<Id> {
    set id | id in s.rows && s.rows[id].memory.status == Active
          && (ProjectOf(s.rows[id].memory.scope) == None || ProjectOf(s.rows[id].memory.scope) == project)
  }

  /** Eligible records with exactly the incoming structured content. */
  function Exact(s: State, m: Memory): set<Id> {
    set id | id in Eligible(s, ProjectOf(m.scope)) && Equivalent(s.rows[id].memory, m)
  }

  ghost predicate IsMin(id: Id, ids: set<Id>) {
    id in ids && forall x :: x in ids && x != id ==> Below(id, x)
  }

  predicate IsNeighbor(s: State, m: Memory, n: Memory) {
    n.id in Eligible(s, ProjectOf(m.scope)) && s.rows[n.id].memory == n
  }

  /** The search is an oracle: any eligible records, but the smallest exact match is always among them. */
  ghost predicate Inspects(s: State, request: Request, i: Inspection) {
    && Accept(s, request.memory) == Ok(i.memory)
    && i.generation == s.generation
    && (forall k :: 0 <= k < |i.neighbors| ==> IsNeighbor(s, i.memory, i.neighbors[k]))
    && (Exact(s, i.memory) != {} ==> exists k :: 0 <= k < |i.neighbors| && IsMin(i.neighbors[k].id, Exact(s, i.memory)))
  }

  /** What a client is shown: its own new record, and neighbours that are active records of the user or of the record's
      project as stored; whenever one of those has the record's own content, one such is shown. */
  lemma InspectionMeaning(s: State, request: Request, i: Inspection)
    requires Inspects(s, request, i) && Keyed(s)
    ensures i.generation == s.generation && i.memory.id !in s.rows && i.memory.id !in s.archives
    ensures i.memory.status == Active && i.memory.revision == 1 && !Present(i.memory.supersedes)
    ensures forall k :: 0 <= k < |i.neighbors| ==>
      && var n := i.neighbors[k];
      && n.id in s.rows && s.rows[n.id].memory == n && n.status == Active
      && (n.scope == UserScope || n.scope == i.memory.scope)
    ensures (exists id :: id in s.rows && SaysTheSame(s.rows[id].memory, i.memory)) ==>
      exists k :: 0 <= k < |i.neighbors| && SaysTheSame(i.neighbors[k], i.memory)
  {
    hide NormalizeMemory, IsMin;
    NormalizedKeepsId(s.registry, request.memory);
    if id :| id in s.rows && SaysTheSame(s.rows[id].memory, i.memory) {
      assert id in Exact(s, i.memory);
      var k :| 0 <= k < |i.neighbors| && IsMin(i.neighbors[k].id, Exact(s, i.memory));
      assert i.neighbors[k].id in Exact(s, i.memory) by { Least(i.neighbors[k].id, Exact(s, i.memory)); }
      assert SaysTheSame(i.neighbors[k], i.memory);
    }
  }

  lemma Least(id: Id, ids: set<Id>)
    requires IsMin(id, ids)
    ensures id in ids
  {
  }

  /** Without a reconciler and an explicit decision, only exact structured equivalence is merged: the first such
      neighbour. */
  function Default(m: Memory, neighbors: seq<Memory>): (d: Decision)
    ensures d.Create? <==> forall k :: 0 <= k < |neighbors| ==> !Equivalent(m, neighbors[k])
    ensures !d.Create? ==>
      exists k :: 0 <= k < |neighbors| && Equivalent(m, neighbors[k]) &&
                  d == Attach(neighbors[k].id, neighbors[k].revision)
  {
    if neighbors == [] then Create
    else if Equivalent(m, neighbors[0]) then Attach(neighbors[0].id, neighbors[0].revision)
    else
      var d := Default(m, neighbors[1..]);
      assert neighbors == [neighbors[0]] + neighbors[1..];
      assert forall k :: 0 < k < |neighbors| ==> neighbors[k] == neighbors[1..][k - 1];
      d
  }

  /** An explicit decision must name the generation inspected; a reconciler may answer anything. */
  ghost predicate Decides(reconciler: bool, request: Request, i: Inspection, d: Decision) {
    if request.decision.Some? then request.expected == Some(i.generation) && d == request.decision.value
    else reconciler || d == Default(i.memory, i.neighbors)
  }

  function NeighborIds(i: Inspection): set<Id> {
    set k | 0 <= k < |i.neighbors| :: i.neighbors[k].id
  }

  /** The `persist` transaction. */
  ghost function Persist(s: State, request: Request, i: Inspection, d: Decision, now: int): Result<State>
    requires Keyed(s)
  {
    if s.generation != i.generation then Err(Conflict)
    else
      VisibleIsBacked(s);
      var allowed := if request.decision.Some? then Eligible(s, ProjectOf(i.memory.scope)) else NeighborIds(i);
      var r := Reconcile(Visible(s), s, i.memory, request.vector, d, allowed, true, now);
      if r.Err? then Err(r.error) else Ok(r.value.state)
  }

  /** The whole operation in one go at one state: this inspection of it, this decision on the inspection, this
      commit. */
  ghost predicate Performs(reconciler: bool, s: State, request: Request, i: Inspection, d: Decision, now: int,
                           t: State) {
    Keyed(s) && Inspects(s, request, i) && Decides(reconciler, request, i, d) && Persist(s, request, i, d, now) == Ok(t)
  }

  /** Some run of the operation on this request. */
  ghost predicate Atomic(reconciler: bool, s: State, request: Request, t: State) {
    exists i, d, now :: Performs(reconciler, s, request, i, d, now, t)
  }

  // ---------- interleaved clients ----------

  /** `origin` records the state a client inspected; no transition reads it. */
  datatype Client = Idle | Waiting(request: Request, inspection: Inspection, origin: State)

  datatype System = System(store: State, clients: map<nat, Client>)

  datatype Step =
    | Inspect(client: nat, request: Request, inspection: Inspection)
    | Finish(client: nat, decision: Decision, now: int)
    | Other(event: Event)

  ghost predicate Transition(reconciler: bool, a: System, step: Step, b: System) {
    Keyed(a.store) &&
    match step
    case Inspect(c, request, i) =>
      && Inspects(a.store, request, i)
      && b == System(a.store, a.clients[c := Waiting(request, i, a.store)])
    case Finish(c, d, now) =>
      && c in a.clients && a.clients[c].Waiting?
      && var w := a.clients[c];
      && Decides(reconciler, w.request, w.inspection, d)
      && var r := Persist(a.store, w.request, w.inspection, d, now);
      b == System(if r.Ok? then r.value else a.store, a.clients[c := Idle])
    case Other(e) =>
      && Admissible(e) && Commit(a.store, e).Ok?
      && b == System(Commit(a.store, e).value, a.clients)
  }

  ghost predicate ClientOk(c: Client, store: State) {
    c.Waiting? ==> Inspects(c.origin, c.request, c.inspection) && Later(c.origin, store)
  }

  /** Every waiting client inspected some earlier state of the owner. */
  ghost predicate Consistent(sys: System) {
    && Inv(sys.store)
    && forall c :: c in sys.clients ==> ClientOk(sys.clients[c], sys.store)
  }

  lemma InspectionCarriesOver(s: State, t: State, request: Request, i: Inspection)
    requires Inspects(s, request, i) && s.generation == t.generation && SameContents(s, t)
    ensures Inspects(t, request, i)
  {
    assert Eligible(s, ProjectOf(i.memory.scope)) == Eligible(t, ProjectOf(i.memory.scope));
    assert Exact(s, i.memory) == Exact(t, i.memory);
  }

  /** A commit that survives the generation check is the whole operation at the state it commits to, on what the client
      inspected there earlier. */
  lemma FinishIsAtomic(reconciler: bool, origin: State, s: State, request: Request, i: Inspection, d: Decision,
                       now: int)
    requires Keyed(s) && Later(origin, s) && Inspects(origin, request, i) && Decides(reconciler, request, i, d)
    requires Persist(s, request, i, d, now).Ok?
    ensures Performs(reconciler, s, request, i, d, now, Persist(s, request, i, d, now).value)
  {
    hide Inspects, Decides, Reconcile, Eligible;
    SameGeneration(origin, request, i);
    InspectionCarriesOver(origin, s, request, i);
  }

  lemma SameGeneration(s: State, request: Request, i: Inspection)
    requires Inspects(s, request, i)
    ensures i.generation == s.generation
  {
  }

  lemma PersistIsACommit(s: State, request: Request, i: Inspection, d: Decision, now: int)
    requires Inv(s) && Inspects(s, request, i) && Persist(s, request, i, d, now).Ok?
    ensures exists allowed ::
      Commit(s, Event.Remember(request.memory, request.vector, d, allowed, now)) == Persist(s, request, i, d, now)
  {
    hide Inv, Reconcile, Accept, Eligible;
    InvParts(s);
    var allowed := if request.decision.Some? then Eligible(s, ProjectOf(i.memory.scope)) else NeighborIds(i);
    assert Commit(s, Event.Remember(request.memory, request.vector, d, allowed, now)) == Persist(s, request, i, d, now);
  }

  /** What a commit leaves of the decision's target and of the newcomer. */
  lemma PersistSettles(s: State, request: Request, i: Inspection, d: Decision, now: int)
    requires Inv(s) && Inspects(s, request, i) && Persist(s, request, i, d, now).Ok? && request.memory.id != ""
    ensures
      var t := Persist(s, request, i, d, now).value;
      && Settles(s, i.memory, request.vector, d, now, t) && i.memory.id == request.memory.id
      && i.memory.id !in s.rows && t.archives == s.archives && s.rows.Keys <= t.rows.Keys <= s.rows.Keys + {i.memory.id}
      && forall id :: id in s.rows && (d.Create? || id != d.target) ==> t.rows[id] == s.rows[id]
  {
    hide Settles, Later, Reconcile, Normal, NormalizeMemory, Eligible, NeighborIds, Linked, Acyclic, Audited, Bounded;
    InvParts(s);
    NormalizedIsNormal(s.registry, request.memory);
    NormalizedKeepsId(s.registry, request.memory);
    VisibleIsBacked(s);
    var allowed := if request.decision.Some? then Eligible(s, ProjectOf(i.memory.scope)) else NeighborIds(i);
    DecisionsSettle(Visible(s), s, i.memory, request.vector, d, allowed, true, now);
    ReconcileKeepsArchives(Visible(s), s, i.memory, request.vector, d, allowed, true, now);
  }

  lemma ReconcileKeepsArchives(seen: map<Id, Memory>, s: State, m: Memory, v: Vector, d: Decision, allowed: set<Id>,
                               write: bool, now: int)
    requires Backed(seen, s) && Reconcile(seen, s, m, v, d, allowed, write, now).Ok?
    ensures Reconcile(seen, s, m, v, d, allowed, write, now).value.state.archives == s.archives
  {
    hide Objection, Written, MergedRefs;
    var target := Admit(seen, s, m, d, allowed).value;
    if !d.Create? { AdmittedIsActive(seen, s, m, d, allowed); }
    AppliedCounts(s, m, v, d, target, write, now);
  }

  /** What a commit acts on: a reconciler's decision, a neighbour it was shown; an explicit one, any active record of
      the user or of the record's own project. A neighbour is such a record too. */
  lemma TargetsAreInReach(s: State, request: Request, i: Inspection, d: Decision, now: int)
    requires Keyed(s) && Inspects(s, request, i) && Persist(s, request, i, d, now).Ok? && !d.Create?
    ensures request.decision.None? ==> exists k :: 0 <= k < |i.neighbors| && i.neighbors[k].id == d.target
    ensures d.target in s.rows
    ensures
      var t := s.rows[d.target].memory;
      && t.status == Active && t.revision == d.expected
      && (t.scope == UserScope || (t.scope.ProjectScope? && t.scope == i.memory.scope))
  {
    hide Reconcile, Accept;
    VisibleIsBacked(s);
    ReconciledTarget(Visible(s), s, i.memory, request.vector, d,
      if request.decision.Some? then Eligible(s, ProjectOf(i.memory.scope)) else NeighborIds(i), true, now);
  }

  lemma ReconciledTarget(seen: map<Id, Memory>, s: State, m: Memory, v: Vector, d: Decision, allowed: set<Id>,
                         write: bool, now: int)
    requires Backed(seen, s) && Reconcile(seen, s, m, v, d, allowed, write, now).Ok? && !d.Create?
    ensures d.target in seen && d.target in allowed && seen[d.target].status == Active
    ensures seen[d.target].revision == d.expected
  {
    hide Applied;
  }

  /** Serialisability, one step: an inspection changes nothing, another transaction is itself, and a finish either
      changes nothing or is the finishing client's own request, inspected, decided and committed on the state before
      it. */
  lemma StepIsSerial(reconciler: bool, a: System, step: Step, b: System)
    requires Consistent(a) && Transition(reconciler, a, step, b)
    ensures step.Inspect? ==> b.store == a.store
    ensures step.Other? ==> Keyed(a.store) && Commit(a.store, step.event) == Ok(b.store)
    ensures step.Finish? ==> step.client in a.clients && a.clients[step.client].Waiting?
    ensures step.Finish? ==>
      var w := a.clients[step.client];
      b.store == a.store || Performs(reconciler, a.store, w.request, w.inspection, step.decision, step.now, b.store)
  {
    hide Inv, Inspects, Decides, Persist, Commit, Performs, Later;
    if step.Finish? {
      var w := a.clients[step.client];
      if Persist(a.store, w.request, w.inspection, step.decision, step.now).Ok? {
        FinishIsAtomic(reconciler, w.origin, a.store, w.request, w.inspection, step.decision, step.now);
      }
    }
  }

  ghost predicate Requested(sys: System) {
    forall c :: c in sys.clients && sys.clients[c].Waiting? ==> sys.clients[c].request.memory.id != ""
  }

  lemma StoreMovesSoundly(reconciler: bool, a: System, step: Step, b: System)
    requires Consistent(a) && Requested(a) && Transition(reconciler, a, step, b)
    ensures Inv(b.store) && Later(a.store, b.store)
  {
    hide Inv, Inspects, Decides, Commit, Later, Reconcile;
    LaterReflexive(a.store);
    match step
    case Inspect(_, _, _) =>
    case Other(e) =>
      CommitIsSound(a.store, e);
      SoundParts(a.store, b.store);
    case Finish(c, d, now) =>
      var w := a.clients[c];
      if Persist(a.store, w.request, w.inspection, d, now).Ok? {
        SameGeneration(w.origin, w.request, w.inspection);
        LaterSame(w.origin, a.store);
        InspectionCarriesOver(w.origin, a.store, w.request, w.inspection);
        PersistIsACommit(a.store, w.request, w.inspection, d, now);
        var allowed :| Commit(a.store, Event.Remember(w.request.memory, w.request.vector, d, allowed, now))
                    == Persist(a.store, w.request, w.inspection, d, now);
        CommitIsSound(a.store, Event.Remember(w.request.memory, w.request.vector, d, allowed, now));
        SoundParts(a.store, b.store);
      }
  }

  lemma LaterSame(s: State, t: State)
    requires Later(s, t) && s.generation == t.generation
    ensures SameContents(s, t)
  {
  }

  lemma ClientCarries(c: Client, s: State, t: State)
    requires ClientOk(c, s) && Later(s, t)
    ensures ClientOk(c, t)
  {
    hide Inspects, Later;
    if c.Waiting? { LaterTransitive(c.origin, s, t); }
  }

  lemma FreshClient(s: State, request: Request, i: Inspection)
    requires Inspects(s, request, i)
    ensures ClientOk(Waiting(request, i, s), s)
  {
    hide Inspects;
    LaterReflexive(s);
  }

  lemma IdleClient(s: State)
    ensures ClientOk(Idle, s)
  {
  }

  lemma StepKeepsConsistent(reconciler: bool, a: System, step: Step, b: System)
    requires Consistent(a) && Requested(a) && Transition(reconciler, a, step, b)
    requires step.Inspect? ==> step.request.memory.id != ""
    ensures Consistent(b) && Requested(b)
  {
    hide Inv, Inspects, Decides, Persist, Commit, Later, ClientOk;
    StoreMovesSoundly(reconciler, a, step, b);
    forall c | c in b.clients ensures ClientOk(b.clients[c], b.store) {
      if c in a.clients && b.clients[c] == a.clients[c] {
        ClientCarries(a.clients[c], a.store, b.store);
      } else if step.Inspect? && c == step.client {
        FreshClient(a.store, step.request, step.inspection);
      } else {
        IdleClient(b.store);
      }
    }
  }

  // ---------- whole interleavings ----------

  ghost predicate Execution(reconciler: bool, systems: seq<System>, steps: seq<Step>) {
    && |systems| == |steps| + 1
    && Inv(systems[0].store) && systems[0].clients == map[]
    && (forall i :: 0 <= i < |steps| ==> Transition(reconciler, systems[i], steps[i], systems[i + 1]))
    && (forall i :: 0 <= i < |steps| && steps[i].Inspect? ==> steps[i].request.memory.id != "")
  }

  lemma {:induction false} ExecutionConsistent(reconciler: bool, systems: seq<System>, steps: seq<Step>, k: nat)
    requires Execution(reconciler, systems, steps) && k < |systems|
    ensures Consistent(systems[k]) && Requested(systems[k])
  {
    hide Inv, Transition;
    if k > 0 {
      ExecutionConsistent(reconciler, systems, steps, k - 1);
      StepKeepsConsistent(reconciler, systems[k - 1], steps[k - 1], systems[k]);
    }
  }

  /** One item of a serial history. */
  datatype Commitment =
    | Operation(request: Request, inspection: Inspection, decision: Decision, now: int)
    | Transaction(event: Event)

  /** The item runs on `s` alone and leads to `t`. */
  ghost predicate Serves(reconciler: bool, s: State, c: Commitment, t: State) {
    match c
    case Operation(request, i, d, now) => request.memory.id != "" && Performs(reconciler, s, request, i, d, now, t)
    case Transaction(e) => Keyed(s) && Admissible(e) && Commit(s, e) == Ok(t)
  }

  /** Running the items one after another, each to its end before the next begins, leads from `s` to `t`. */
  ghost predicate RunsInOrder(reconciler: bool, s: State, history: seq<Commitment>, t: State)
    decreases |history|
  {
    if history == [] then s == t
    else
      var n := |history| - 1;
      exists m :: RunsInOrder(reconciler, s, history[..n], m) && Serves(reconciler, m, history[n], t)
  }

  /** What one step commits, if it commits: the finishing client's own request, or the other transaction. */
  ghost function Committed(a: System, step: Step): seq<Commitment> {
    match step
    case Inspect(_, _, _) => []
    case Other(e) => [Transaction(e)]
    case Finish(c, d, now) =>
      if c in a.clients && a.clients[c].Waiting? && Keyed(a.store)
         && Persist(a.store, a.clients[c].request, a.clients[c].inspection, d, now).Ok?
      then [Operation(a.clients[c].request, a.clients[c].inspection, d, now)]
      else []
  }

  /** Everything committed by the first k steps, in commit order. */
  ghost function History(systems: seq<System>, steps: seq<Step>, k: nat): seq<Commitment>
    requires k <= |steps| <= |systems|
  {
    if k == 0 then [] else History(systems, steps, k - 1) + Committed(systems[k - 1], steps[k - 1])
  }

  lemma StepServes(reconciler: bool, a: System, step: Step, b: System)
    requires Consistent(a) && Requested(a) && Transition(reconciler, a, step, b)
    ensures Committed(a, step) == [] ==> b.store == a.store
    ensures Committed(a, step) != [] ==>
      |Committed(a, step)| == 1 && Serves(reconciler, a.store, Committed(a, step)[0], b.store)
  {
    hide Inv, Inspects, Decides, Persist, Commit, Performs, Later;
    StepIsSerial(reconciler, a, step, b);
    if step.Finish? {
      var w := a.clients[step.client];
      if Persist(a.store, w.request, w.inspection, step.decision, step.now).Ok? {
        FinishIsAtomic(reconciler, w.origin, a.store, w.request, w.inspection, step.decision, step.now);
      }
    }
  }

  lemma RunsOneMore(reconciler: bool, s: State, history: seq<Commitment>, m: State, c: Commitment, t: State)
    requires RunsInOrder(reconciler, s, history, m) && Serves(reconciler, m, c, t)
    ensures RunsInOrder(reconciler, s, history + [c], t)
  {
    assert (history + [c])[..|history|] == history;
  }

  /** Optimistic remember is serialisable: whatever any number of clients and other transactions interleave, the store
      at any point is the one reached by running, one after another and each on its own, exactly the operations that
      committed, in commit order. */
  lemma {:induction false} InterleavingsAreSerial(reconciler: bool, systems: seq<System>, steps: seq<Step>, k: nat)
    requires Execution(reconciler, systems, steps) && k <= |steps|
    ensures RunsInOrder(reconciler, systems[0].store, History(systems, steps, k), systems[k].store)
  {
    hide Inv, Transition, Serves, Committed, Consistent, Requested, RunsInOrder;
    if k == 0 {
      NothingRuns(reconciler, systems[0].store);
    } else {
      InterleavingsAreSerial(reconciler, systems, steps, k - 1);
      ExecutionConsistent(reconciler, systems, steps, k - 1);
      StepServes(reconciler, systems[k - 1], steps[k - 1], systems[k]);
      var before, added := History(systems, steps, k - 1), Committed(systems[k - 1], steps[k - 1]);
      if added == [] {
        assert before + added == before;
      } else {
        assert added == [added[0]];
        RunsOneMore(reconciler, systems[0].store, before, systems[k - 1].store, added[0], systems[k].store);
      }
    }
  }

  lemma NothingRuns(reconciler: bool, s: State)
    ensures RunsInOrder(reconciler, s, [], s)
  {
  }

  // ---------- automatic merging ----------

  /** No two active records carry the same structured content. */
  ghost predicate NoDuplicates(s: State) {
    forall a, b ::
      a in s.rows && b in s.rows && a != b && s.rows[a].memory.status == s.rows[b].memory.status == Active ==>
      !Equivalent(s.rows[a].memory, s.rows[b].memory)
  }

  lemma ExactMatchIsAttached(s: State, request: Request, i: Inspection)
    requires Inspects(s, request, i)
    ensures Default(i.memory, i.neighbors).Create? ==> Exact(s, i.memory) == {}
  {
  }

  lemma InsertIsNew(s: State, t: State, m: Memory, g: nat, e: Option<Vector>)
    requires NoDuplicates(s) && m.id !in s.rows && t.rows == s.rows[m.id := Row(m, e, g)]
    requires Exact(s, m) == {}
    ensures NoDuplicates(t)
  {
    forall a | a in s.rows && s.rows[a].memory.status == Active ensures !Equivalent(s.rows[a].memory, m) {
      assert a !in Exact(s, m);
    }
  }

  lemma EvidenceIsNoDuplicate(s: State, t: State, b: Memory, refs: seq<string>, now: int, g: nat, e: Option<Vector>)
    requires NoDuplicates(s) && b.id in s.rows && s.rows[b.id].memory == b
    requires t.rows == s.rows[b.id := Row(WithEvidence(b, refs, now), e, g)]
    ensures NoDuplicates(t)
  {
  }

  lemma PersistedRows(s: State, request: Request, i: Inspection, d: Decision, now: int, t: State)
    requires Keyed(s) && Persist(s, request, i, d, now) == Ok(t) && (d.Create? || d.Attach?)
    ensures d.Create? ==>
      i.memory.id !in s.rows && t.rows == s.rows[i.memory.id := Row(i.memory, Some(request.vector), t.generation)]
    ensures d.Attach? ==>
      && d.target in s.rows
      && var row := s.rows[d.target];
      t.rows == s.rows[d.target :=
                         Row(WithEvidence(row.memory, i.memory.sourceRefs, now), row.embedding, t.generation)]
  {
    hide MergedRefs, Objection, Eligible, NeighborIds;
  }

  /** Left to itself, remembering never stores a second active record with content already held. */
  lemma DefaultNeverDuplicates(s: State, request: Request, t: State)
    requires Inv(s) && NoDuplicates(s) && request.decision == None && Atomic(false, s, request, t)
    ensures NoDuplicates(t)
  {
    hide Inv, NoDuplicates, Exact, WithEvidence, Persist, Inspects, Default;
    InvParts(s);
    var i, d, now :| Performs(false, s, request, i, d, now, t);
    ExactMatchIsAttached(s, request, i);
    DefaultActs(i.memory, i.neighbors);
    PersistedRows(s, request, i, d, now, t);
    if d.Create? {
      InsertIsNew(s, t, i.memory, t.generation, Some(request.vector));
    } else {
      EvidenceIsNoDuplicate(s, t, s.rows[d.target].memory, i.memory.sourceRefs, now, t.generation,
        s.rows[d.target].embedding);
    }
  }

  lemma DefaultActs(m: Memory, neighbors: seq<Memory>)
    ensures Default(m, neighbors).Create? || Default(m, neighbors).Attach?
  {
  }
}
