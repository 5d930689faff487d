/** Committed transactions of one owner, and what holds over every run of them. */
module Runs {
  import opened Types
  import opened Counting
  import opened Ordering
  import opened Fields
  import opened Store
  import opened Reconciliation
  import opened Dream

  /** A transaction that changes the owner's state, with everything its caller and its oracles supplied. */
  datatype Event =
    | Remember(memory: Memory, vector: Vector, decision: Decision, allowed: set<Id>, now: int)
    | Consolidate(groups: seq<Group>, changes: seq<Change>, vectors: seq<Vector>, now: int)
    | Archive(cutoff: int, limit: nat)
    | RegisterField(field: Field)
    | ImportLegacy(memory: Memory, vector: Vector)
    | Account(cursor: Key, dreamWrites: nat)

  // ---------- remembering ----------

  /** The checks of `inspect`: normalised, new, active, at revision 1, succeeding nothing. */
  ghost function Accept(s: State, request: Memory): Result<Memory> {
    var normalized := NormalizeMemory(s.registry, request);
    if normalized.Err? then normalized
    else if normalized.value.status != Active || normalized.value.revision != 1 || Present(normalized.value.supersedes)
      then Err(Schema)
    else if Contains(s, normalized.value.id) then Err(Conflict)
    else normalized
  }

  /** A request is accepted exactly when it can be normalised and its record is new, active, at its first revision and
      succeeds nothing. */
  lemma AcceptsExactlyTheNew(s: State, request: Memory)
    ensures Accept(s, request).Ok? <==>
      && NormalizeMemory(s.registry, request).Ok? && request.id !in s.rows && request.id !in s.archives
      && request.status == Active && request.revision == 1
        && (request.supersedes == None || request.supersedes == Some(""))
    ensures Accept(s, request).Ok? ==> Accept(s, request) == NormalizeMemory(s.registry, request)
  {
    hide NormalizeMemory;
    if NormalizeMemory(s.registry, request).Ok? { NormalizedKeepsId(s.registry, request); }
  }

  lemma VisibleIsBacked(s: State)
    requires Keyed(s)
    ensures Backed(Visible(s), s)
  {
  }

  // ---------- retention ----------

  /** `maintain`: superseded rows last updated before the cutoff, in (generation, id) order. */
  ghost function Expired(s: State, cutoff: int): set<Key> {
    set id | id in s.rows && s.rows[id].memory.status == Superseded && s.rows[id].memory.updatedAt < cutoff ::
      Key(s.rows[id].generation, id)
  }

  ghost function Ids(page: seq<Key>): set<Id> {
    set i | 0 <= i < |page| :: page[i].id
  }

  function KeyIds(page: seq<Key>): (ids: seq<Id>)
    ensures |ids| == |page| && forall i :: 0 <= i < |page| ==> ids[i] == page[i].id
  {
    seq(|page|, i requires 0 <= i < |page| => page[i].id)
  }

  /** Move rows to the archive under one new generation; payload and embedding are kept as they are. */
  function Moved(s: State, ids: set<Id>, g: nat): State
    requires ids <= s.rows.Keys
  {
    s.(rows := s.rows - ids,
       archives := s.archives + map id | id in ids :: Row(s.rows[id].memory, s.rows[id].embedding, g))
  }

  lemma MoveOneMore(s: State, ids: set<Id>, id: Id, g: nat)
    requires ids <= s.rows.Keys && id in s.rows && id !in ids
    ensures
      var before := Moved(s, ids, g);
      && id in before.rows
      && Moved(s, ids + {id}, g) == before.(
           archives := before.archives[id := Row(before.rows[id].memory, before.rows[id].embedding, g)],
           rows := before.rows - {id})
  {
    var before := Moved(s, ids, g);
    assert Moved(s, ids + {id}, g).rows == before.rows - {id};
    assert Moved(s, ids + {id}, g).archives
      == before.archives[id := Row(before.rows[id].memory, before.rows[id].embedding, g)];
  }

  lemma NothingMoved(s: State, g: nat)
    ensures Ids([]) == {} && Moved(s, {}, g) == s
  {
    assert Moved(s, {}, g).rows == s.rows && Moved(s, {}, g).archives == s.archives;
  }

  lemma IdsOfOneMore(page: seq<Key>, i: nat)
    requires i < |page|
    ensures Ids(page[..i + 1]) == Ids(page[..i]) + {page[i].id}
  {
    assert page[..i + 1] == page[..i] + [page[i]];
    forall x | x in Ids(page[..i]) ensures x in Ids(page[..i + 1]) {
      var k :| 0 <= k < i && page[..i][k].id == x;
      assert page[..i + 1][k].id == x;
    }
    assert page[..i + 1][i].id == page[i].id;
  }

  ghost function ArchivePage(s: State, cutoff: int, limit: nat): State {
    var page := FirstKeys(Expired(s, cutoff), limit);
    if page == [] then s
    else
      var bumped := Bump(s, "archive_superseded", KeyIds(page), false);
      PageRows(s, cutoff, limit);
      Moved(bumped, Ids(page), bumped.generation)
  }

  lemma PageRows(s: State, cutoff: int, limit: nat)
    ensures Ids(FirstKeys(Expired(s, cutoff), limit)) <= s.rows.Keys
    ensures forall id :: id in Ids(FirstKeys(Expired(s, cutoff), limit)) ==> s.rows[id].memory.status == Superseded
  {
    var page := FirstKeys(Expired(s, cutoff), limit);
    forall id | id in Ids(page) ensures id in s.rows && s.rows[id].memory.status == Superseded {
      var i :| 0 <= i < |page| && page[i].id == id;
      assert page[i] in Expired(s, cutoff);
    }
  }

  /** A page names each row once. */
  lemma NextOfPage(s: State, cutoff: int, limit: nat, i: nat)
    requires i < |FirstKeys(Expired(s, cutoff), limit)|
    ensures
      var page := FirstKeys(Expired(s, cutoff), limit);
      page[i].id in s.rows && page[i].id !in Ids(page[..i])
  {
    var page := FirstKeys(Expired(s, cutoff), limit);
    FirstKeysIsSegment(Expired(s, cutoff), limit);
    assert page[i] in Expired(s, cutoff);
    forall j | 0 <= j < i ensures page[j].id != page[i].id {
      assert page[j] in Expired(s, cutoff);
      KeyTrichotomy(page[j], page[i]);
    }
  }

  // ---------- commits ----------

  ghost function Commit(s: State, e: Event): Result<State>
    requires Keyed(s)
  {
    match e
    case Remember(request, vector, decision, allowed, now) =>
      var m := Accept(s, request);
      if m.Err? then Err(m.error)
      else
        VisibleIsBacked(s);
        var r := Reconcile(Visible(s), s, m.value, vector, decision, allowed, true, now);
        if r.Err? then Err(r.error) else Ok(r.value.state)
    case Consolidate(groups, changes, vectors, now) =>
      if |changes| != |vectors| then Err(Schema) else ApplyPlan(s, groups, changes, vectors, now)
    case Archive(cutoff, limit) => Ok(ArchivePage(s, cutoff, limit))
    case RegisterField(field) =>
      var r := Register(s.registry, field);
      if r.Err? then Err(r.error)
      else if r.value == s.registry then Ok(s)
      else Ok(Bump(s, "register_field", [field.name], false).(registry := r.value))
    case ImportLegacy(memory, vector) =>
      if Contains(s, memory.id) then Err(Conflict)
      else
        var m := NormalizeMemory(s.registry, memory);
        if m.Err? then Err(m.error)
        else
          var bumped := Bump(s, "legacy_import", [memory.id], true);
          Ok(Put(bumped, m.value, Some(vector), bumped.generation))
    case Account(cursor, dreamWrites) =>
      if dreamWrites > s.writes then Err(Conflict) else Ok(s.(cursor := cursor, dreamWrites := dreamWrites))
  }

  /** What the boundary validation guarantees of a request: ids are nonempty, imports are fresh observations. */
  predicate Admissible(e: Event) {
    match e
    case Remember(m, _, _, _, _) => m.id != ""
    case Consolidate(_, changes, _, _) => forall i :: 0 <= i < |changes| ==> changes[i].memory.id != ""
    case ImportLegacy(m, _) =>
      m.id != "" && m.content.Observed? && m.status == Active && m.revision == 1 && m.supersedes == None
    case _ => true
  }

  /** What every transaction keeps. */
  ghost predicate Sound(s: State, t: State) {
    && Inv(t) && Later(s, t) && Evolves(s, t)
    && forall id :: id in All(s) ==> OneStep(All(s)[id], All(t)[id])
  }

  // ---------- each event is sound ----------

  lemma RememberSound(s: State, request: Memory, v: Vector, d: Decision, allowed: set<Id>, now: int)
    requires Inv(s) && request.id != "" && Commit(s, Remember(request, v, d, allowed, now)).Ok?
    ensures Sound(s, Commit(s, Remember(request, v, d, allowed, now)).value)
  {
    hide Later, Evolves, Normal, NormalizeMemory, Applied, Objection, Linked, Acyclic, Audited, Bounded;
    var m := Accept(s, request).value;
    NormalizedIsNormal(s.registry, request);
    NormalizedKeepsId(s.registry, request);
    LaterReflexive(s);
    var seen := Visible(s);
    AppliedKeeps(s, seen, s, m, v, d, allowed, true, now);
    AppliedTouches(seen, s, m, v, d, allowed, true, now);
    AppliedCounts(s, m, v, d, Admit(seen, s, m, d, allowed).value, true, now);
  }

  lemma ConsolidateSound(s: State, groups: seq<Group>, changes: seq<Change>, vectors: seq<Vector>, now: int)
    requires Inv(s) && |changes| == |vectors| && forall i :: 0 <= i < |changes| ==> changes[i].memory.id != ""
    requires Commit(s, Consolidate(groups, changes, vectors, now)).Ok?
    ensures Sound(s, Commit(s, Consolidate(groups, changes, vectors, now)).value)
  {
    hide Later, Evolves, ApplyPlan, Inv, Keyed, OneStep;
    InvParts(s);
    PlanKeeps(s, groups, changes, vectors, now);
    InvParts(ApplyPlan(s, groups, changes, vectors, now).value);
    RowsStepAll(s, ApplyPlan(s, groups, changes, vectors, now).value);
  }

  lemma RowsStepAll(s: State, t: State)
    requires t.archives == s.archives
    requires forall id :: id in s.rows ==> id in t.rows && OneStep(s.rows[id].memory, t.rows[id].memory)
    requires Keyed(s) && Keyed(t)
    ensures forall id :: id in All(s) ==> id in All(t) && OneStep(All(s)[id], All(t)[id])
  {
  }

  lemma AllAfterMove(s: State, ids: set<Id>, g: nat)
    requires Keyed(s) && ids <= s.rows.Keys
    ensures All(Moved(s, ids, g)) == All(s)
  {
    var t := Moved(s, ids, g);
    forall id | id in All(s) ensures id in All(t) && All(t)[id] == All(s)[id] {
    }
    assert All(t).Keys == All(s).Keys;
  }

  lemma MoveSound(s: State, ids: set<Id>)
    requires Inv(s) && 0 < s.generation && ids <= s.rows.Keys
    requires forall id :: id in ids ==> s.rows[id].memory.status == Superseded
    ensures Inv(Moved(s, ids, s.generation))
  {
    hide Linked, Acyclic, All, Normal, Built;
    AllAfterMove(s, ids, s.generation);
    MovedIsTyped(s, ids, s.generation);
    MovedIsKeyed(s, ids, s.generation);
  }

  lemma MovedIsTyped(s: State, ids: set<Id>, g: nat)
    requires Typed(s) && ids <= s.rows.Keys && forall id :: id in ids ==> s.rows[id].memory.status == Superseded
    ensures Typed(Moved(s, ids, g))
  {
    hide Normal, Built;
  }

  lemma MovedIsKeyed(s: State, ids: set<Id>, g: nat)
    requires Keyed(s) && Bounded(s) && ids <= s.rows.Keys && 0 < g <= s.generation
    ensures Keyed(Moved(s, ids, g)) && Bounded(Moved(s, ids, g))
  {
  }

  lemma MoveLater(s0: State, s: State, ids: set<Id>)
    requires Keyed(s) && Later(s0, s) && s0.generation < s.generation && ids <= s.rows.Keys && s0.archives == s.archives
    ensures Later(s0, Moved(s, ids, s.generation))
  {
  }

  lemma ArchiveSound(s: State, cutoff: int, limit: nat)
    requires Inv(s)
    ensures Sound(s, ArchivePage(s, cutoff, limit))
    ensures All(ArchivePage(s, cutoff, limit)) == All(s)
  {
    hide Later, Evolves, Inv, FirstKeys;
    InvParts(s);
    LaterReflexive(s);
    var page := FirstKeys(Expired(s, cutoff), limit);
    if page != [] {
      var bumped := Bump(s, "archive_superseded", KeyIds(page), false);
      BumpKeeps(s, "archive_superseded", KeyIds(page), false);
      PageRows(s, cutoff, limit);
      MoveSound(bumped, Ids(page));
      AllAfterMove(bumped, Ids(page), bumped.generation);
      MoveLater(s, bumped, Ids(page));
    }
    SameRecordsEvolve(s, ArchivePage(s, cutoff, limit));
  }

  lemma SameRecordsEvolve(s: State, t: State)
    requires All(s) == All(t)
    ensures Evolves(s, t)
    ensures forall id :: id in All(s) ==> OneStep(All(s)[id], All(t)[id])
  {
  }

  lemma RegisterSound(s: State, field: Field)
    requires Inv(s) && Commit(s, RegisterField(field)).Ok?
    ensures Sound(s, Commit(s, RegisterField(field)).value)
  {
    hide Evolves, Linked, Acyclic, Normal, Built, Register;
    var r := Register(s.registry, field);
    RegisterExtends(s.registry, field);
    var t := Commit(s, RegisterField(field)).value;
    assert All(t) == All(s);
    forall id | id in s.rows ensures Normal(t.registry.fields, s.rows[id].memory) {
      NormalUnderExtension(s.registry.fields, t.registry.fields, s.rows[id].memory);
    }
    forall id | id in s.archives ensures Normal(t.registry.fields, s.archives[id].memory) {
      NormalUnderExtension(s.registry.fields, t.registry.fields, s.archives[id].memory);
    }
    SameRecordsEvolve(s, t);
  }

  lemma ImportSound(s: State, memory: Memory, v: Vector)
    requires Inv(s) && Admissible(ImportLegacy(memory, v)) && Commit(s, ImportLegacy(memory, v)).Ok?
    ensures Sound(s, Commit(s, ImportLegacy(memory, v)).value)
  {
    hide Evolves, Later, Normal, NormalizeMemory;
    var m := NormalizeMemory(s.registry, memory).value;
    NormalizedIsNormal(s.registry, memory);
    NormalizedKeepsId(s.registry, memory);
    var bumped := Bump(s, "legacy_import", [memory.id], true);
    BumpKeeps(s, "legacy_import", [memory.id], true);
    InsertCase(s, bumped, m, v);
    CarriedThroughBump(s, bumped, Put(bumped, m, Some(v), bumped.generation));
  }

  lemma AccountSound(s: State, cursor: Key, dreamWrites: nat)
    requires Inv(s) && dreamWrites <= s.writes
    ensures Sound(s, s.(cursor := cursor, dreamWrites := dreamWrites))
  {
    hide Linked, Acyclic, Built, Normal;
    var t := s.(cursor := cursor, dreamWrites := dreamWrites);
    assert All(t) == All(s);
    SameRecordsEvolve(s, t);
  }

  /** Every committed transaction leads to a well-formed later state, and raises each revision by at most one. */
  lemma CommitIsSound(s: State, e: Event)
    requires Inv(s) && Admissible(e) && Commit(s, e).Ok?
    ensures Sound(s, Commit(s, e).value)
  {
    hide Sound, Reconcile, ApplyPlan, ArchivePage, Register, NormalizeMemory, Inv, Accept;
    InvParts(s);
    match e
    case Remember(request, v, d, allowed, now) => RememberSound(s, request, v, d, allowed, now);
    case Consolidate(groups, changes, vectors, now) => ConsolidateSound(s, groups, changes, vectors, now);
    case Archive(cutoff, limit) => ArchiveSound(s, cutoff, limit);
    case RegisterField(field) => RegisterSound(s, field);
    case ImportLegacy(m, v) => ImportSound(s, m, v);
    case Account(cursor, dreamWrites) => AccountSound(s, cursor, dreamWrites);
  }

  // ---------- explicit rules ----------

  lemma RememberKeepsRule(s: State, request: Memory, v: Vector, d: Decision, allowed: set<Id>, now: int, rule: Rule)
    requires Inv(s) && Commit(s, Remember(request, v, d, allowed, now)).Ok? && InForce(s, rule)
    ensures InForce(Commit(s, Remember(request, v, d, allowed, now)).value, rule)
  {
    hide Inv, NormalizeMemory, Applied, Objection, InForce, Admit, Accept, Visible, Keyed;
    InvParts(s);
    var m := Accept(s, request).value;
    AcceptedIsActive(s, request);
    VisibleIsBacked(s);
    VisibleIsCurrent(s, d);
    AppliedKeepsRule(Visible(s), s, m, v, d, allowed, true, now, rule);
  }

  lemma AcceptedIsActive(s: State, request: Memory)
    requires Accept(s, request).Ok?
    ensures Accept(s, request).value.status == Active
  {
    hide NormalizeMemory;
  }

  lemma VisibleIsCurrent(s: State, d: Decision)
    ensures Current(Visible(s), s, d)
  {
  }

  lemma ArchiveKeepsRule(s: State, cutoff: int, limit: nat, rule: Rule)
    requires Keyed(s) && InForce(s, rule)
    ensures InForce(ArchivePage(s, cutoff, limit), rule)
  {
    PageRows(s, cutoff, limit);
    var id :| id in s.rows && States(s.rows[id].memory, rule);
    assert id in ArchivePage(s, cutoff, limit).rows;
  }

  lemma ImportKeepsRule(s: State, memory: Memory, v: Vector, rule: Rule)
    requires Keyed(s) && Commit(s, ImportLegacy(memory, v)).Ok? && InForce(s, rule)
    ensures InForce(Commit(s, ImportLegacy(memory, v)).value, rule)
  {
    hide NormalizeMemory, States;
    NormalizedKeepsId(s.registry, memory);
    var id :| id in s.rows && States(s.rows[id].memory, rule);
    assert id != memory.id;
    assert Commit(s, ImportLegacy(memory, v)).value.rows[id] == s.rows[id];
  }

  lemma SameRowsSameRules(s: State, t: State, rule: Rule)
    requires s.rows == t.rows && InForce(s, rule)
    ensures InForce(t, rule)
  {
  }

  /** No transaction takes an explicit rule out of force. */
  lemma CommitKeepsRule(s: State, e: Event, rule: Rule)
    requires Inv(s) && Admissible(e) && Commit(s, e).Ok? && InForce(s, rule)
    ensures InForce(Commit(s, e).value, rule)
  {
    hide InForce, Reconcile, ApplyPlan, ArchivePage, Register, NormalizeMemory, Inv, Accept;
    InvParts(s);
    match e
    case Remember(request, v, d, allowed, now) => RememberKeepsRule(s, request, v, d, allowed, now, rule);
    case Consolidate(groups, changes, vectors, now) => PlanKeepsRule(s, groups, changes, vectors, now, rule);
    case Archive(cutoff, limit) => ArchiveKeepsRule(s, cutoff, limit, rule);
    case RegisterField(field) => SameRowsSameRules(s, Commit(s, e).value, rule);
    case ImportLegacy(m, v) => ImportKeepsRule(s, m, v, rule);
    case Account(cursor, dreamWrites) => SameRowsSameRules(s, Commit(s, e).value, rule);
  }

  // ---------- runs ----------

  ghost predicate Initial(s: State) {
    && s.generation == 0 && s.writes == 0 && s.dreamWrites == 0
    && s.rows == map[] && s.archives == map[] && s.audit == [] && Built(s.registry)
  }

  ghost predicate Next(s: State, t: State) {
    Keyed(s) && exists e :: Admissible(e) && Commit(s, e) == Ok(t)
  }

  /** Committed states in order, from an owner's first transaction. */
  ghost predicate Run(states: seq<State>) {
    && states != [] && Initial(states[0])
    && forall i :: 0 <= i < |states| - 1 ==> Next(states[i], states[i + 1])
  }

  /** A state some run of transactions leads to. */
  ghost predicate Reached(s: State) {
    exists states :: Run(states) && states[|states| - 1] == s
  }

  /** Remembering a record that is spelled in the registry's own names simply stores it. */
  lemma CreatingStores(s: State, m: Memory, v: Vector, now: int)
    requires Keyed(s) && Built(s.registry) && Normal(s.registry.fields, m) && !Contains(s, m.id)
    requires m.status == Active && m.revision == 1 && m.supersedes == None
    ensures Commit(s, Event.Remember(m, v, Create, {}, now))
         == Ok(Put(Bump(s, "create", [m.id], true), m, Some(v), s.generation + 1))
  {
    hide Built, Normal, NormalizeMemory, Keyed;
    NormalizeIsIdentityOnStored(s.registry.fields, s.registry, m);
    VisibleIsBacked(s);
  }

  lemma InitialInv(s: State)
    requires Initial(s)
    ensures Inv(s)
  {
    assert All(s) == map[];
    var none: map<Id, nat> := map[];
    assert Ranked(All(s), none);
  }

  lemma NextIsSound(s: State, t: State)
    requires Inv(s) && Next(s, t)
    ensures Sound(s, t)
  {
    hide Sound, Commit, Inv;
    var e :| Admissible(e) && Commit(s, e) == Ok(t);
    CommitIsSound(s, e);
  }

  lemma {:induction false} RunInv(states: seq<State>, i: nat)
    requires Run(states) && i < |states|
    ensures Inv(states[i])
  {
    hide Inv, Initial, Next, Sound;
    if i == 0 {
      InitialInv(states[0]);
    } else {
      RunInv(states, i - 1);
      assert Next(states[i - 1], states[i]);
      NextIsSound(states[i - 1], states[i]);
      SoundParts(states[i - 1], states[i]);
    }
  }

  lemma SoundParts(s: State, t: State)
    requires Sound(s, t)
    ensures Inv(t) && Later(s, t) && Evolves(s, t)
  {
  }

  /** Any earlier state relates to any later one as one transaction does. */
  lemma {:induction false} RunAdvances(states: seq<State>, i: nat, j: nat)
    requires Run(states) && i <= j < |states|
    ensures Later(states[i], states[j]) && Evolves(states[i], states[j])
    decreases j
  {
    hide Inv, Initial, Next, Sound, Later, Evolves;
    if i == j {
      LaterReflexive(states[i]);
      SameRecordsEvolve(states[i], states[i]);
    } else {
      RunAdvances(states, i, j - 1);
      RunInv(states, j - 1);
      assert Next(states[j - 1], states[j]);
      NextIsSound(states[j - 1], states[j]);
      SoundParts(states[j - 1], states[j]);
      LaterTransitive(states[i], states[j - 1], states[j]);
      EvolvesTransitive(states[i], states[j - 1], states[j]);
    }
  }

  /** Explicit rules never vanish: once stated, a rule is stated by some live, non-superseded explicit preference in
      every later state, through supersession, conflict, dream replacement, dream merge and archival. */
  lemma {:induction false} ExplicitRulesNeverVanish(states: seq<State>, i: nat, j: nat, rule: Rule)
    requires Run(states) && i <= j < |states| && InForce(states[i], rule)
    ensures InForce(states[j], rule)
    decreases j
  {
    hide Inv, Initial, Commit, InForce;
    if i < j {
      ExplicitRulesNeverVanish(states, i, j - 1, rule);
      RunInv(states, j - 1);
      assert Next(states[j - 1], states[j]);
      var e :| Admissible(e) && Commit(states[j - 1], e) == Ok(states[j]);
      CommitKeepsRule(states[j - 1], e, rule);
    }
  }

  /** The generation is a version of the whole contents: two states of a run with the same one are the same. */
  lemma GenerationDeterminesContents(states: seq<State>, i: nat, j: nat)
    requires Run(states) && i < |states| && j < |states|
    requires states[i].generation == states[j].generation
    ensures SameContents(states[i], states[j])
  {
    hide Run;
    if i <= j { RunAdvances(states, i, j); } else { RunAdvances(states, j, i); }
  }

  /** Each (id, revision) has one payload for all time. */
  lemma RevisionNamesOnePayload(states: seq<State>, i: nat, j: nat, id: Id)
    requires Run(states) && i < |states| && j < |states| && id in All(states[i]) && id in All(states[j])
    requires All(states[i])[id].revision == All(states[j])[id].revision
    ensures All(states[i])[id] == All(states[j])[id]
  {
    hide Run, Later;
    if i <= j { RunAdvances(states, i, j); } else { RunAdvances(states, j, i); }
  }

  /** Superseded and disputed are terminal: such a record keeps every field for good. */
  lemma RetiredRecordsNeverChange(states: seq<State>, i: nat, j: nat, id: Id)
    requires Run(states) && i <= j < |states| && id in All(states[i]) && All(states[i])[id].status != Active
    ensures id in All(states[j]) && All(states[j])[id] == All(states[i])[id]
  {
    hide Run, Later;
    RunAdvances(states, i, j);
  }

  /** An id, once taken, is never accepted for another record, archived or not. */
  lemma IdsAreNeverReused(states: seq<State>, i: nat, j: nat, request: Memory)
    requires Run(states) && i <= j < |states| && request.id in All(states[i])
    ensures Accept(states[j], request).Err?
  {
    hide Run, Later;
    RunAdvances(states, i, j);
    if NormalizeMemory(states[j].registry, request).Ok? { NormalizedKeepsId(states[j].registry, request); }
  }

  // ---------- retention ----------

  /** What historical recall reads: payload and embedding of every live and archived record. */
  function Retained(s: State): map<Id, Record> {
    map id | id in s.rows.Keys + s.archives.Keys ::
      if id in s.rows then Record(s.rows[id].memory, s.rows[id].embedding)
      else Record(s.archives[id].memory, s.archives[id].embedding)
  }

  /** Archiving is invisible to historical recall, and takes nothing a cache may serve. */
  lemma RetentionIsTransparent(s: State, cutoff: int, limit: nat)
    requires Keyed(s)
    ensures Retained(ArchivePage(s, cutoff, limit)) == Retained(s)
    ensures Visible(ArchivePage(s, cutoff, limit)) == Visible(s)
  {
    hide FirstKeys, Expired, Keyed, Retained, Visible, Ids;
    PageRows(s, cutoff, limit);
    var page := FirstKeys(Expired(s, cutoff), limit);
    if page != [] {
      var bumped := Bump(s, "archive_superseded", KeyIds(page), false);
      MovedReadsSame(s, bumped, Ids(page), bumped.generation);
    }
  }

  lemma MovedReadsSame(s: State, bumped: State, ids: set<Id>, g: nat)
    requires Keyed(s) && s.rows == bumped.rows && s.archives == bumped.archives && ids <= s.rows.Keys
    requires forall id :: id in ids ==> s.rows[id].memory.status == Superseded
    ensures Retained(Moved(bumped, ids, g)) == Retained(s) && Visible(Moved(bumped, ids, g)) == Visible(s)
  {
    var t := Moved(bumped, ids, g);
    forall id | id in Retained(s) ensures id in Retained(t) && Retained(t)[id] == Retained(s)[id] { }
    assert Retained(t).Keys == Retained(s).Keys;
  }

  /** What one page archives: at most `limit` superseded records last updated before the cutoff, as they were, the
      oldest first, and all of them if there are fewer. */
  lemma ArchivesOnlyTheExpired(s: State, cutoff: int, limit: nat)
    requires Keyed(s)
    ensures
      var t := Commit(s, Archive(cutoff, limit)).value;
      var moved := t.archives.Keys - s.archives.Keys;
      && |moved| <= limit && t.rows == s.rows - moved
      && (forall id :: id in moved ==>
            && id in s.rows && s.rows[id].memory.status == Superseded && s.rows[id].memory.updatedAt < cutoff
            && t.archives[id] == Row(s.rows[id].memory, s.rows[id].embedding, s.generation + 1))
      && (forall x :: x in t.rows && t.rows[x].memory.status == Superseded && t.rows[x].memory.updatedAt < cutoff ==>
            |moved| == limit && forall id :: id in moved ==> s.rows[id].generation <= t.rows[x].generation)
  {
    hide FirstKeys, Expired, Ids, Keyed, ArchivePage, Commit;
    ArchiveCommits(s, cutoff, limit);
    var page := FirstKeys(Expired(s, cutoff), limit);
    var t := ArchivePage(s, cutoff, limit);
    PageMoves(s, cutoff, limit);
    PageIds(s, cutoff, limit);
    forall x | x in t.rows && t.rows[x].memory.status == Superseded && t.rows[x].memory.updatedAt < cutoff
      ensures |page| == limit && forall id :: id in Ids(page) ==> s.rows[id].generation <= t.rows[x].generation
    {
      StaysForLater(s, cutoff, limit, x);
    }
  }

  /** An import adds the record in the registry's own terms, as one write; an id that is taken is refused. */
  lemma ImportAddsOneRecord(s: State, memory: Memory, v: Vector)
    requires Keyed(s)
    ensures
      var r := Commit(s, ImportLegacy(memory, v));
      && (r.Ok? <==> memory.id !in s.rows && memory.id !in s.archives && NormalizeMemory(s.registry, memory).Ok?)
      && (r.Ok? ==>
            && r.value.generation == s.generation + 1 && r.value.writes == s.writes + 1
            && r.value.rows == s.rows[memory.id :=
                 Row(NormalizeMemory(s.registry, memory).value, Some(v), s.generation + 1)]
            && r.value.archives == s.archives && r.value.registry == s.registry && r.value.cursor == s.cursor)
  {
    hide NormalizeMemory;
    if NormalizeMemory(s.registry, memory).Ok? { NormalizedKeepsId(s.registry, memory); }
  }

  /** Registering a field touches no record and counts no write; registering it again does nothing at all. */
  lemma RegistrationTouchesNoRecord(s: State, field: Field)
    requires Keyed(s) && Commit(s, RegisterField(field)).Ok?
    ensures
      var t := Commit(s, RegisterField(field)).value;
      && t.rows == s.rows && t.archives == s.archives && t.writes == s.writes && t.cursor == s.cursor
      && field.name in t.registry.fields && t.registry.fields[field.name] == field
      && (field.name in s.registry.fields ==> t == s)
      && (forall n :: n in s.registry.fields ==> n in t.registry.fields && t.registry.fields[n] == s.registry.fields[n])
      && (field.name !in s.registry.fields ==> t.generation == s.generation + 1 && !field.readOnly)
  {
  }

  lemma ArchiveCommits(s: State, cutoff: int, limit: nat)
    requires Keyed(s)
    ensures Commit(s, Archive(cutoff, limit)) == Ok(ArchivePage(s, cutoff, limit))
  {
  }

  lemma PageMoves(s: State, cutoff: int, limit: nat)
    requires Keyed(s)
    ensures
      var page, t := FirstKeys(Expired(s, cutoff), limit), ArchivePage(s, cutoff, limit);
      && t.archives.Keys - s.archives.Keys == Ids(page) && t.rows == s.rows - Ids(page)
      && forall id :: id in Ids(page) ==>
           && id in s.rows && s.rows[id].memory.status == Superseded
           && t.archives[id] == Row(s.rows[id].memory, s.rows[id].embedding, s.generation + 1)
  {
    hide FirstKeys, Expired;
    PageRows(s, cutoff, limit);
    LiveIsNotInArchives(s);
  }

  lemma StaysForLater(s: State, cutoff: int, limit: nat, x: Id)
    requires x in s.rows && s.rows[x].memory.status == Superseded && s.rows[x].memory.updatedAt < cutoff
    requires x !in Ids(FirstKeys(Expired(s, cutoff), limit))
    ensures
      var page := FirstKeys(Expired(s, cutoff), limit);
      && |page| == limit
      && forall id :: id in Ids(page) ==> id in s.rows && s.rows[id].generation <= s.rows[x].generation
  {
    hide FirstKeys;
    var page := FirstKeys(Expired(s, cutoff), limit);
    var key := Key(s.rows[x].generation, x);
    assert key in Expired(s, cutoff);
    FirstKeysIsSegment(Expired(s, cutoff), limit);
    PageIds(s, cutoff, limit);
  }

  lemma LiveIsNotInArchives(s: State)
    requires Keyed(s)
    ensures s.rows.Keys !! s.archives.Keys
  {
  }

  /** The page and its ids are as many. */
  lemma PageIds(s: State, cutoff: int, limit: nat)
    ensures
      var page := FirstKeys(Expired(s, cutoff), limit);
      && |Ids(page)| == |page|
      && forall id :: id in Ids(page) ==> id in s.rows && Key(s.rows[id].generation, id) in page
                                          && s.rows[id].memory.updatedAt < cutoff
  {
    hide FirstKeys;
    var page := FirstKeys(Expired(s, cutoff), limit);
    FirstKeysIsSegment(Expired(s, cutoff), limit);
    forall id | id in Ids(page)
      ensures id in s.rows && Key(s.rows[id].generation, id) in page && s.rows[id].memory.updatedAt < cutoff
    {
      var i :| 0 <= i < |page| && page[i].id == id;
      assert page[i] in Expired(s, cutoff);
    }
    PageIdCount(s, cutoff, limit, |page|);
    assert page[..|page|] == page;
  }

  lemma {:induction false} PageIdCount(s: State, cutoff: int, limit: nat, n: nat)
    requires n <= |FirstKeys(Expired(s, cutoff), limit)|
    ensures |Ids(FirstKeys(Expired(s, cutoff), limit)[..n])| == n
  {
    hide FirstKeys, Expired;
    var page := FirstKeys(Expired(s, cutoff), limit);
    if n > 0 {
      PageIdCount(s, cutoff, limit, n - 1);
      NextOfPage(s, cutoff, limit, n - 1);
      IdsOfOneMore(page, n - 1);
    } else {
      assert Ids(page[..0]) == {};
    }
  }

  // ---------- every record has an embedding ----------

  ghost predicate Embedded(s: State) {
    && (forall id :: id in s.rows ==> s.rows[id].embedding.Some?)
    && (forall id :: id in s.archives ==> s.archives[id].embedding.Some?)
  }

  lemma ReconcileEmbeds(seen: map<Id, Memory>, s: State, m: Memory, v: Vector, d: Decision, allowed: set<Id>,
                        write: bool, now: int)
    requires Backed(seen, s) && Embedded(s) && Reconcile(seen, s, m, v, d, allowed, write, now).Ok?
    ensures Embedded(Reconcile(seen, s, m, v, d, allowed, write, now).value.state)
  {
    hide Objection, MergedRefs;
  }

  lemma MergeEmbeds(s: State, source: Memory, target: Memory, now: int)
    requires source.id in s.rows && target.id in s.rows && Embedded(s)
    ensures Embedded(Merge(s, source, target, now))
  {
    hide MergedRefs;
  }

  lemma ChangeEmbeds(start: State, s: State, touched: set<Id>, originals: set<Id>, allowed: set<Id>, change: Change,
                     v: Vector, now: int)
    requires Keyed(start) && start.rows.Keys <= s.rows.Keys && Embedded(s)
    requires ApplyChange(start, s, touched, originals, allowed, change, v, now).Ok?
    ensures Embedded(ApplyChange(start, s, touched, originals, allowed, change, v, now).value.state)
  {
    hide NormalizeMemory, Reconcile, Merge, Inferred, Embedded, Equivalent;
    var m := NormalizeMemory(start.registry, change.memory).value;
    if m.id in Visible(start) {
      MergeEmbeds(s, Visible(start)[m.id], Visible(start)[change.decision.target], now);
    } else {
      ReconcileEmbeds(Visible(start), s, Inferred(m), v, change.decision, allowed, false, now);
    }
  }

  lemma {:induction false} ChangesEmbed(start: State, p: Progressed, originals: set<Id>, allowed: set<Id>,
                                        changes: seq<Change>, vectors: seq<Vector>, now: int)
    requires Keyed(start) && start.rows.Keys <= p.state.rows.Keys && |changes| == |vectors| && Embedded(p.state)
    requires ApplyChanges(start, p, originals, allowed, changes, vectors, now).Ok?
    ensures Embedded(ApplyChanges(start, p, originals, allowed, changes, vectors, now).value.state)
    decreases |changes|
  {
    hide ApplyChange, Embedded;
    if changes != [] {
      var n := |changes| - 1;
      ChangesEmbed(start, p, originals, allowed, changes[..n], vectors[..n], now);
      var before := ApplyChanges(start, p, originals, allowed, changes[..n], vectors[..n], now).value;
      ChangeEmbeds(start, before.state, before.touched, originals, allowed, changes[n], vectors[n], now);
    }
  }

  lemma PlanEmbeds(s: State, groups: seq<Group>, changes: seq<Change>, vectors: seq<Vector>, now: int)
    requires Keyed(s) && |changes| == |vectors| && Embedded(s) && ApplyPlan(s, groups, changes, vectors, now).Ok?
    ensures Embedded(ApplyPlan(s, groups, changes, vectors, now).value)
  {
    hide ApplyChanges;
    ChangesEmbed(s, Progressed(s, {}), Originals(groups), Candidates(groups), changes, vectors, now);
  }

  lemma PageEmbeds(s: State, cutoff: int, limit: nat)
    requires Embedded(s)
    ensures Embedded(ArchivePage(s, cutoff, limit))
  {
    hide FirstKeys, Expired, Ids;
    PageRows(s, cutoff, limit);
  }

  lemma CommitEmbeds(s: State, e: Event)
    requires Keyed(s) && Embedded(s) && Commit(s, e).Ok?
    ensures Embedded(Commit(s, e).value)
  {
    hide Reconcile, ApplyPlan, ArchivePage, Register, NormalizeMemory, Accept;
    match e
    case Remember(request, v, d, allowed, now) =>
      VisibleIsBacked(s);
      ReconcileEmbeds(Visible(s), s, Accept(s, request).value, v, d, allowed, true, now);
    case Consolidate(groups, changes, vectors, now) => PlanEmbeds(s, groups, changes, vectors, now);
    case Archive(cutoff, limit) => PageEmbeds(s, cutoff, limit);
    case _ =>
  }

  /** Every record of every state of a run has an embedding, live or archived. */
  lemma {:induction false} RecordsHaveEmbeddings(states: seq<State>, i: nat)
    requires Run(states) && i < |states|
    ensures Embedded(states[i])
  {
    hide Commit, Keyed;
    if i > 0 {
      RecordsHaveEmbeddings(states, i - 1);
      assert Next(states[i - 1], states[i]);
      var e :| Admissible(e) && Commit(states[i - 1], e) == Ok(states[i]);
      CommitEmbeds(states[i - 1], e);
    }
  }

  // ---------- and keeps it ----------

  /** Every record still has the embedding it had, live or archived. */
  ghost predicate KeepsEmbeddings(s: State, t: State) {
    && (forall id :: id in s.rows ==>
          || (id in t.rows && t.rows[id].embedding == s.rows[id].embedding)
          || (id in t.archives && t.archives[id].embedding == s.rows[id].embedding))
    && (forall id :: id in s.archives ==> id in t.archives && t.archives[id].embedding == s.archives[id].embedding)
  }

  /** Within a transaction that archives nothing. */
  ghost predicate RowsKeepEmbeddings(s: State, t: State) {
    && t.archives == s.archives
    && forall id :: id in s.rows ==> id in t.rows && t.rows[id].embedding == s.rows[id].embedding
  }

  lemma ReconcileKeepsEmbeddings(seen: map<Id, Memory>, s: State, m: Memory, v: Vector, d: Decision, allowed: set<Id>,
                                 write: bool, now: int)
    requires Backed(seen, s) && Reconcile(seen, s, m, v, d, allowed, write, now).Ok?
    ensures RowsKeepEmbeddings(s, Reconcile(seen, s, m, v, d, allowed, write, now).value.state)
  {
    hide Objection, MergedRefs;
  }

  lemma MergeKeepsEmbeddings(s: State, source: Memory, target: Memory, now: int)
    requires source.id in s.rows && target.id in s.rows
    ensures RowsKeepEmbeddings(s, Merge(s, source, target, now))
  {
    hide MergedRefs;
  }

  lemma ChangeKeepsEmbeddings(start: State, s: State, touched: set<Id>, originals: set<Id>, allowed: set<Id>,
                              change: Change, v: Vector, now: int)
    requires Keyed(start) && start.rows.Keys <= s.rows.Keys
    requires ApplyChange(start, s, touched, originals, allowed, change, v, now).Ok?
    ensures RowsKeepEmbeddings(s, ApplyChange(start, s, touched, originals, allowed, change, v, now).value.state)
  {
    hide NormalizeMemory, Reconcile, Merge, Inferred, RowsKeepEmbeddings, Equivalent;
    var m := NormalizeMemory(start.registry, change.memory).value;
    if m.id in Visible(start) {
      MergeKeepsEmbeddings(s, Visible(start)[m.id], Visible(start)[change.decision.target], now);
    } else {
      ReconcileKeepsEmbeddings(Visible(start), s, Inferred(m), v, change.decision, allowed, false, now);
    }
  }

  lemma {:induction false} ChangesKeepEmbeddings(start: State, p: Progressed, originals: set<Id>, allowed: set<Id>,
                                                 changes: seq<Change>, vectors: seq<Vector>, now: int)
    requires Keyed(start) && start.rows.Keys <= p.state.rows.Keys && |changes| == |vectors|
    requires ApplyChanges(start, p, originals, allowed, changes, vectors, now).Ok?
    ensures RowsKeepEmbeddings(p.state, ApplyChanges(start, p, originals, allowed, changes, vectors, now).value.state)
    decreases |changes|
  {
    hide ApplyChange;
    if changes != [] {
      var n := |changes| - 1;
      ChangesKeepEmbeddings(start, p, originals, allowed, changes[..n], vectors[..n], now);
      var before := ApplyChanges(start, p, originals, allowed, changes[..n], vectors[..n], now).value;
      ChangeKeepsEmbeddings(start, before.state, before.touched, originals, allowed, changes[n], vectors[n], now);
    }
  }

  lemma PageKeepsEmbeddings(s: State, cutoff: int, limit: nat)
    requires Keyed(s)
    ensures KeepsEmbeddings(s, ArchivePage(s, cutoff, limit))
  {
    hide FirstKeys, Expired, Ids;
    PageRows(s, cutoff, limit);
  }

  /** No transaction changes the embedding of a record it finds stored. */
  lemma CommitKeepsEmbeddings(s: State, e: Event)
    requires Keyed(s) && Commit(s, e).Ok?
    ensures KeepsEmbeddings(s, Commit(s, e).value)
  {
    hide Reconcile, ApplyChanges, ArchivePage, Register, NormalizeMemory, Accept;
    match e
    case Remember(request, v, d, allowed, now) =>
      VisibleIsBacked(s);
      ReconcileKeepsEmbeddings(Visible(s), s, Accept(s, request).value, v, d, allowed, true, now);
    case Consolidate(groups, changes, vectors, now) =>
      ChangesKeepEmbeddings(s, Progressed(s, {}), Originals(groups), Candidates(groups), changes, vectors, now);
    case Archive(cutoff, limit) => PageKeepsEmbeddings(s, cutoff, limit);
    case ImportLegacy(m, v) => if NormalizeMemory(s.registry, m).Ok? { NormalizedKeepsId(s.registry, m); }
    case _ =>
  }

  lemma EmbeddingsChain(s: State, m: State, t: State)
    requires KeepsEmbeddings(s, m) && KeepsEmbeddings(m, t) && Keyed(m)
    ensures KeepsEmbeddings(s, t)
  {
  }

  /** Once stored, a record's embedding never changes, whether the record is revised, retired, merged or archived. */
  lemma {:induction false} EmbeddingsNeverChange(states: seq<State>, i: nat, j: nat)
    requires Run(states) && i <= j < |states|
    ensures KeepsEmbeddings(states[i], states[j])
    decreases j
  {
    hide Commit, Initial, Keyed;
    if i < j {
      EmbeddingsNeverChange(states, i, j - 1);
      RunInv(states, j - 1);
      InvParts(states[j - 1]);
      assert Next(states[j - 1], states[j]);
      var e :| Admissible(e) && Commit(states[j - 1], e) == Ok(states[j]);
      CommitKeepsEmbeddings(states[j - 1], e);
      EmbeddingsChain(states[i], states[j - 1], states[j]);
    }
  }

  lemma ReachedIsSound(s: State)
    requires Reached(s)
    ensures Inv(s) && Embedded(s)
  {
    hide Initial, Next, Inv, Embedded;
    var states :| Run(states) && states[|states| - 1] == s;
    RunInv(states, |states| - 1);
    RecordsHaveEmbeddings(states, |states| - 1);
  }

  // ---------- supersession chains ----------

  /** Each record supersedes the next. */
  ghost predicate IsChain(records: map<Id, Memory>, chain: seq<Id>) {
    && (forall i :: 0 <= i < |chain| ==> chain[i] in records)
    && (forall i :: 0 <= i < |chain| - 1 ==> PointsTo(records[chain[i]], chain[i + 1]))
  }

  lemma {:induction false} RankFalls(records: map<Id, Memory>, rank: map<Id, nat>, chain: seq<Id>, i: nat, j: nat)
    requires Ranked(records, rank) && IsChain(records, chain) && i < j < |chain|
    ensures rank[chain[j]] < rank[chain[i]]
    decreases j
  {
    assert PointsTo(records[chain[j - 1]], chain[j]);
    if i < j - 1 { RankFalls(records, rank, chain, i, j - 1); }
  }

  function Elements(chain: seq<Id>): set<Id> {
    set i | 0 <= i < |chain| :: chain[i]
  }

  lemma {:induction false} DistinctCount(chain: seq<Id>)
    requires Distinct(chain)
    ensures |Elements(chain)| == |chain|
  {
    if chain != [] {
      var n := |chain| - 1;
      DistinctCount(chain[..n]);
      assert Elements(chain) == Elements(chain[..n]) + {chain[n]} by {
        forall x | x in Elements(chain) ensures x in Elements(chain[..n]) + {chain[n]} {
          var i :| 0 <= i < |chain| && chain[i] == x;
          if i < n { assert chain[..n][i] == x; }
        }
        forall x | x in Elements(chain[..n]) ensures x in Elements(chain) {
          var i :| 0 <= i < n && chain[..n][i] == x;
          assert chain[i] == x;
        }
      }
      assert chain[n] !in Elements(chain[..n]);
    }
  }

  /** Supersession has no cycle, and no chain is longer than the number of records. */
  lemma ChainsAreFinite(states: seq<State>, k: nat, chain: seq<Id>)
    requires Run(states) && k < |states| && IsChain(All(states[k]), chain)
    ensures Distinct(chain)
    ensures |chain| <= |All(states[k])|
  {
    hide Run;
    RunInv(states, k);
    var records := All(states[k]);
    var rank :| Ranked(records, rank);
    forall i, j | 0 <= i < j < |chain| ensures chain[i] != chain[j] {
      RankFalls(records, rank, chain, i, j);
    }
    DistinctCount(chain);
    SubsetSize(Elements(chain), records.Keys);
  }

  /** Chains are disjoint or nested: two chains that end in the same record coincide from the end as far as both
      reach. */
  lemma {:induction false} ChainsNeverMerge(states: seq<State>, k: nat, a: seq<Id>, b: seq<Id>)
    requires Run(states) && k < |states| && IsChain(All(states[k]), a) && IsChain(All(states[k]), b)
    requires 0 < |a| <= |b| && a[|a| - 1] == b[|b| - 1]
    ensures a == b[|b| - |a|..]
    decreases |a|
  {
    hide Run, All;
    var records := All(states[k]);
    var n, m := |a| - 1, |b| - 1;
    if n == 0 {
      assert b[m..] == [b[m]];
    } else {
      RunInv(states, k);
      InvParts(states[k]);
      SamePredecessor(records, a[n - 1], b[m - 1], a[n]);
      ChainsNeverMerge(states, k, a[..n], b[..m]);
      assert a == a[..n] + [a[n]] && b[m - n..] == b[..m][m - n..] + [b[m]];
    }
  }

  /** A record is superseded by at most one other. */
  lemma SamePredecessor(records: map<Id, Memory>, x: Id, y: Id, target: Id)
    requires Linked(records) && x in records && y in records && PointsTo(records[x], target)
      && PointsTo(records[y], target)
    ensures x == y
  {
    assert SameLink(records[x], records[y]);
  }
}
