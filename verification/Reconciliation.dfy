/** `memory_core/memory/reconciliation.py`: the five decisions, applied atomically. */
module Reconciliation {
  import opened Types
  import Ordering
  import opened Fields
  import opened Store

  datatype Decision =
    | Create
    | Attach(target: Id, expected: int)
    | Supersede(target: Id, expected: int)
    | Exception(target: Id, expected: int)
    | FlagConflict(target: Id, expected: int)

  // ---------- identity of content ----------

  /** The canonical structured content that `equivalence_key` serialises: everything but lifecycle and evidence. */
  datatype Fingerprint = Fingerprint(scope: Scope, status: Status, summary: string, metadata: map<string, Value>,
    content: Content)

  function FingerprintOf(m: Memory): Fingerprint {
    Fingerprint(m.scope, m.status, m.summary, m.metadata, m.content)
  }

  predicate Equivalent(a: Memory, b: Memory) {
    FingerprintOf(a) == FingerprintOf(b)
  }

  /** The same field by field. */
  predicate SaysTheSame(m: Memory, n: Memory) {
    m.scope == n.scope && m.status == n.status && m.summary == n.summary && m.metadata == n.metadata
      && m.content == n.content
  }

  lemma EquivalentMeaning(m: Memory, n: Memory)
    ensures Equivalent(m, n) <==> SaysTheSame(m, n)
  {
  }

  // ---------- admission ----------

  /** Why a decision about this target is refused, if it is (the nested checks of `apply_reconciliation`). */
  function Objection(t: Memory, m: Memory, d: Decision): Option<Error>
    requires !d.Create?
  {
    if t.revision != d.expected || t.status != Active then Some(Conflict)
    else if d.Exception? then
      if m.scope.UserScope? || t.scope.ProjectScope? then Some(Schema)
      else if !m.content.Preference? || !t.content.Preference? || m.content.key != t.content.key then Some(Schema)
      else None
    else if KindOf(t.content) != KindOf(m.content) || t.scope != m.scope then Some(Schema)
    else if d.Supersede? && m.content.Preference? && t.content.explicit && !m.content.explicit then Some(Schema)
    else if m.content.Preference?
      && (t.content.key != m.content.key || t.content.applicability != m.content.applicability) then Some(Schema)
    else if d.Attach? && m.content.Preference? && t.content.value != m.content.value then Some(Schema)
    else None
  }

  /** The target the decision may act on, looked up among the records the cache serves. */
  function Admit(seen: map<Id, Memory>, s: State, m: Memory, d: Decision, allowed: set<Id>): Result<Option<Memory>> {
    if Contains(s, m.id) then Err(Conflict)
    else if d.Create? then Ok(None)
    else if d.target !in seen || d.target !in allowed then Err(Conflict)
    else
      var objection := Objection(seen[d.target], m, d);
      if objection.Some? then Err(objection.value) else Ok(Some(seen[d.target]))
  }

  /** Two records are about the same thing. */
  predicate SameSubject(t: Memory, m: Memory) {
    && KindOf(t.content) == KindOf(m.content) && t.scope == m.scope
    && (m.content.Preference? ==> t.content.key == m.content.key && t.content.applicability == m.content.applicability)
  }

  /** When a decision fits its target: the version the caller saw, still active, and a relation the decision may
      express. */
  predicate Suits(t: Memory, m: Memory, d: Decision) {
    match d
    case Create => false
    case Attach(_, n) =>
      t.revision == n && t.status == Active && SameSubject(t, m)
      && (m.content.Preference? ==> t.content.value == m.content.value)
    case Supersede(_, n) =>
      t.revision == n && t.status == Active && SameSubject(t, m)
        && (m.content.Preference? && t.content.explicit ==> m.content.explicit)
    case FlagConflict(_, n) => t.revision == n && t.status == Active && SameSubject(t, m)
    case Exception(_, n) =>
      && t.revision == n && t.status == Active && t.scope.UserScope? && m.scope.ProjectScope?
      && t.content.Preference? && m.content.Preference? && t.content.key == m.content.key
  }

  /** The nested checks admit exactly the suitable decisions about a served, allowed target. */
  lemma AdmitsExactlyTheSuitable(seen: map<Id, Memory>, s: State, m: Memory, d: Decision, allowed: set<Id>)
    ensures Admit(seen, s, m, d, allowed).Ok? <==>
      !Contains(s, m.id) && (d.Create? || (d.target in seen && d.target in allowed && Suits(seen[d.target], m, d)))
  {
    if !d.Create? && d.target in seen {
      var t := seen[d.target];
      assert KindOf(t.content) == KindOf(m.content) ==> (t.content.Preference? <==> m.content.Preference?);
    }
  }

  // ---------- application ----------

  function ActionOf(d: Decision): string {
    match d
    case Create => "create"
    case Attach(_, _) => "attach_evidence"
    case Supersede(_, _) => "supersede"
    case Exception(_, _) => "preserve_exception"
    case FlagConflict(_, _) => "flag_conflict"
  }

  function MergedRefs(a: seq<string>, b: seq<string>): (r: seq<string>)
    ensures forall x :: x in r <==> x in a || x in b
  {
    Ordering.Canonical(a + b)
  }

  function WithEvidence(t: Memory, refs: seq<string>, now: int): Memory {
    t.(sourceRefs := MergedRefs(t.sourceRefs, refs), revision := t.revision + 1, updatedAt := now)
  }

  function Retired(t: Memory, status: Status, now: int): Memory {
    t.(status := status, revision := t.revision + 1, updatedAt := now)
  }

  datatype Outcome = Outcome(state: State, memory: Memory)

  function SubjectsOf(m: Memory, d: Decision): seq<Id> {
    if d.Create? then [m.id] else [m.id, d.target]
  }

  /** The rows written after the bump: the target's new version, then the new record. */
  function Written(s: State, m: Memory, vector: Vector, d: Decision, target: Option<Memory>, now: int): Outcome
    requires d.Create? <==> target.None?
    requires target.Some? ==> target.value.id in s.rows
  {
    var g := s.generation;
    match d
    case Create => Outcome(Put(s, m, Some(vector), g), m)
    case Exception(_, _) => Outcome(Put(s, m, Some(vector), g), m)
    case Attach(_, _) =>
      var t := target.value;
      var updated := WithEvidence(t, m.sourceRefs, now);
      Outcome(Put(s, updated, s.rows[t.id].embedding, g), updated)
    case Supersede(_, _) =>
      var t := target.value;
      var stored := m.(supersedes := Some(t.id));
      Outcome(Put(Put(s, Retired(t, Superseded, now), s.rows[t.id].embedding, g), stored, Some(vector), g), stored)
    case FlagConflict(_, _) =>
      var t := target.value;
      var stored := m.(status := Disputed);
      Outcome(Put(Put(s, Retired(t, Disputed, now), s.rows[t.id].embedding, g), stored, Some(vector), g), stored)
  }

  /** The transaction after admission: one bump, then the rows. */
  function Applied(s: State, m: Memory, vector: Vector, d: Decision, target: Option<Memory>, write: bool,
                   now: int): Outcome
    requires d.Create? <==> target.None?
    requires target.Some? ==> target.value.id in s.rows
  {
    Written(Bump(s, ActionOf(d), SubjectsOf(m, d), write), m, vector, d, target, now)
  }

  /** The cache's records are rows of the store the transaction writes to. */
  ghost predicate Backed(seen: map<Id, Memory>, s: State) {
    forall id :: id in seen ==> id in s.rows && seen[id].id == id
  }

  ghost function Reconcile(seen: map<Id, Memory>, s: State, m: Memory, vector: Vector, d: Decision, allowed: set<Id>,
                           write: bool, now: int): (r: Result<Outcome>)
    requires Backed(seen, s)
    ensures r.Ok? ==> s.rows.Keys <= r.value.state.rows.Keys
  {
    var admitted := Admit(seen, s, m, d, allowed);
    if admitted.Err? then Err(admitted.error) else Ok(Applied(s, m, vector, d, admitted.value, write, now))
  }

  // ---------- what one decision keeps ----------

  /** A record as the operations accept it for storage: normalised, active, at revision 1, not a successor yet. */
  ghost predicate Incoming(s: State, m: Memory) {
    && m.id != "" && Normal(s.registry.fields, m)
    && m.status == Active && m.revision == 1 && !Present(m.supersedes)
  }

  /** The admitted target is still the row the cache served. */
  ghost predicate Current(seen: map<Id, Memory>, s: State, d: Decision) {
    !d.Create? && d.target in seen ==> d.target in s.rows && s.rows[d.target].memory == seen[d.target]
  }

  /** Retiring an active target and storing its successor or counterpart. */
  lemma RetireThenInsertKeeps(s: State, g: nat, t: Memory, status: Status, now: int, e: Option<Vector>, m: Memory,
                              v: Vector)
    requires Inv(s) && 0 < g <= s.generation && t.id in s.rows && s.rows[t.id].memory == t && t.status == Active
    requires !Contains(s, m.id) && m.id != "" && Normal(s.registry.fields, m)
    requires status != Active && (m.supersedes == Some(t.id) ==> status == Superseded)
    requires Present(m.supersedes) ==> m.supersedes == Some(t.id)
    ensures
      var mid := Put(s, Retired(t, status, now), e, g);
      Inv(mid) && Inv(Put(mid, m, Some(v), g)) && Evolves(s, Put(mid, m, Some(v), g))
  {
    var b := Retired(t, status, now);
    var mid := Put(s, b, e, g);
    ReviseKeeps(s, b, e, g);
    AllAfterPut(s, b, e, g);
    ActiveIsUnlinked(All(s), t.id);
    forall a | a in All(mid) && Present(m.supersedes) ensures !SameLink(All(mid)[a], m) {
      assert All(mid)[a].supersedes == All(s)[a].supersedes;
      assert !PointsTo(All(s)[a], t.id);
    }
    assert Linkable(All(mid), m);
    InsertKeeps(mid, m, Some(v), g);
    EvolvesTransitive(s, mid, Put(mid, m, Some(v), g));
  }

  /** A later state of the same transaction: well formed, newer, every record carried forward. */
  ghost predicate Kept(s0: State, s: State, t: State) {
    Inv(t) && Later(s0, t) && Evolves(s, t)
  }

  lemma InsertCase(s0: State, s: State, m: Memory, v: Vector)
    requires Inv(s) && Later(s0, s) && s0.generation < s.generation
    requires !Contains(s, m.id) && m.id != "" && Normal(s.registry.fields, m) && !Present(m.supersedes)
    ensures Kept(s0, s, Put(s, m, Some(v), s.generation))
  {
    assert Linkable(All(s), m);
    InsertKeeps(s, m, Some(v), s.generation);
    LaterAfterPut(s0, s, m, Some(v), s.generation);
  }

  lemma ReviseCase(s0: State, s: State, b: Memory, e: Option<Vector>)
    requires Inv(s) && Later(s0, s) && s0.generation < s.generation
    requires b.id in s.rows && Revises(s.rows[b.id].memory, b)
    ensures Kept(s0, s, Put(s, b, e, s.generation))
  {
    ReviseKeeps(s, b, e, s.generation);
    LaterAfterPut(s0, s, b, e, s.generation);
  }

  lemma AttachCase(s0: State, s: State, t: Memory, refs: seq<string>, now: int, e: Option<Vector>)
    requires Inv(s) && Later(s0, s) && s0.generation < s.generation
    requires t.id in s.rows && s.rows[t.id].memory == t && t.status == Active
    ensures Kept(s0, s, Put(s, WithEvidence(t, refs, now), e, s.generation))
  {
    ReviseKeeps(s, WithEvidence(t, refs, now), e, s.generation);
    LaterAfterPut(s0, s, WithEvidence(t, refs, now), e, s.generation);
  }

  lemma RetireCase(s0: State, s: State, t: Memory, status: Status, now: int, e: Option<Vector>, m: Memory, v: Vector)
    requires Inv(s) && Later(s0, s) && s0.generation < s.generation
    requires t.id in s.rows && s.rows[t.id].memory == t && t.status == Active
    requires !Contains(s, m.id) && m.id != "" && Normal(s.registry.fields, m)
    requires status != Active && (m.supersedes == Some(t.id) ==> status == Superseded)
    requires Present(m.supersedes) ==> m.supersedes == Some(t.id)
    ensures Kept(s0, s, Put(Put(s, Retired(t, status, now), e, s.generation), m, Some(v), s.generation))
  {
    RetireThenInsertKeeps(s, s.generation, t, status, now, e, m, v);
    LaterAfterPut(s0, s, Retired(t, status, now), e, s.generation);
    LaterAfterPut(s0, Put(s, Retired(t, status, now), e, s.generation), m, Some(v), s.generation);
  }

  lemma WrittenKeeps(s0: State, s: State, m: Memory, v: Vector, d: Decision, target: Option<Memory>, now: int)
    requires Inv(s) && Later(s0, s) && s0.generation < s.generation && Incoming(s, m) && !Contains(s, m.id)
    requires d.Create? <==> target.None?
    requires target.Some? ==>
      target.value.id in s.rows && s.rows[target.value.id].memory == target.value && target.value.status == Active
    ensures Kept(s0, s, Written(s, m, v, d, target, now).state)
  {
    match d
    case Create =>
      InsertCase(s0, s, m, v);
    case Exception(_, _) =>
      InsertCase(s0, s, m, v);
    case Attach(_, _) =>
      AttachCase(s0, s, target.value, m.sourceRefs, now, s.rows[target.value.id].embedding);
    case Supersede(_, _) =>
      var stored := m.(supersedes := Some(target.value.id));
      RetireCase(s0, s, target.value, Superseded, now, s.rows[target.value.id].embedding, stored, v);
    case FlagConflict(_, _) =>
      RetireCase(s0, s, target.value, Disputed, now, s.rows[target.value.id].embedding, m.(status := Disputed), v);
  }

  /** Every applied decision yields a well-formed later state of the owner. */
  lemma AppliedKeeps(s0: State, seen: map<Id, Memory>, s: State, m: Memory, v: Vector, d: Decision, allowed: set<Id>,
                     write: bool, now: int)
    requires Inv(s) && Later(s0, s) && Backed(seen, s) && Current(seen, s, d) && Incoming(s, m)
    requires Admit(seen, s, m, d, allowed).Ok?
    ensures Kept(s0, s, Applied(s, m, v, d, Admit(seen, s, m, d, allowed).value, write, now).state)
  {
    var target := Admit(seen, s, m, d, allowed).value;
    var bumped := Bump(s, ActionOf(d), SubjectsOf(m, d), write);
    BumpKeeps(s, ActionOf(d), SubjectsOf(m, d), write);
    LaterTransitive(s0, s, bumped);
    WrittenKeeps(s0, bumped, m, v, d, target, now);
    var t := Written(bumped, m, v, d, target, now).state;
    forall id | id in All(s) ensures id in All(t) && Progress(All(s)[id], All(t)[id]) {
      assert id in All(bumped);
    }
  }

  lemma AppliedCounts(s: State, m: Memory, v: Vector, d: Decision, target: Option<Memory>, write: bool, now: int)
    requires d.Create? <==> target.None?
    requires target.Some? ==> target.value.id in s.rows
    ensures
      var t := Applied(s, m, v, d, target, write, now).state;
      && t.generation == s.generation + 1 && t.archives == s.archives && t.registry == s.registry
      && t.cursor == s.cursor && t.dreamWrites == s.dreamWrites
      && t.writes == s.writes + (if write then 1 else 0)
      && t.audit == s.audit + [Entry(s.generation + 1, ActionOf(d), if d.Create? then [m.id] else [m.id, d.target])]
  {
  }

  lemma AdmittedIsActive(seen: map<Id, Memory>, s: State, m: Memory, d: Decision, allowed: set<Id>)
    requires Backed(seen, s) && Admit(seen, s, m, d, allowed).Ok? && !d.Create?
    ensures
      var t := Admit(seen, s, m, d, allowed).value;
      && t == Some(seen[d.target]) && t.value.status == Active && t.value.id == d.target && d.target in s.rows
      && d.target in seen && !Contains(s, m.id)
  {
  }

  /** Only the target and the new record's row can differ, and the target is revised once. */
  lemma AppliedTouches(seen: map<Id, Memory>, s: State, m: Memory, v: Vector, d: Decision, allowed: set<Id>,
                       write: bool, now: int)
    requires Keyed(s) && Backed(seen, s) && Current(seen, s, d)
    requires Admit(seen, s, m, d, allowed).Ok?
    ensures
      var t := Applied(s, m, v, d, Admit(seen, s, m, d, allowed).value, write, now).state;
      && s.rows.Keys <= t.rows.Keys <= s.rows.Keys + {m.id}
      && (forall id :: id in s.rows && (d.Create? || id != d.target) ==> t.rows[id] == s.rows[id])
      && (!d.Create? ==> d.target in s.rows && OneStep(s.rows[d.target].memory, t.rows[d.target].memory))
  {
    if d.Attach? {
      RevisesIsOneStep(seen[d.target], WithEvidence(seen[d.target], m.sourceRefs, now));
    }
  }

  /** What a caller finds afterwards, decision by decision. */
  ghost predicate Settles(before: State, m: Memory, v: Vector, d: Decision, now: int, after: State) {
    if d.Create? then m.id in after.rows && after.rows[m.id] == Row(m, Some(v), after.generation)
    else
      && d.target in before.rows && d.target in after.rows
      && var t, u := before.rows[d.target], after.rows[d.target];
      var next := t.memory.(revision := t.memory.revision + 1, updatedAt := now);
      match d
      case Exception(_, _) => u == t && m.id in after.rows && after.rows[m.id] == Row(m, Some(v), after.generation)
      case Attach(_, _) =>
        && m.id !in after.rows && t.memory.status == Active
        && u == Row(next.(sourceRefs := u.memory.sourceRefs), t.embedding, after.generation)
        && Ordering.StrictlySorted(u.memory.sourceRefs)
        && (forall x :: x in u.memory.sourceRefs <==> x in t.memory.sourceRefs || x in m.sourceRefs)
      case Supersede(_, _) =>
        && u == Row(next.(status := Superseded), t.embedding, after.generation) && m.id in after.rows
        && after.rows[m.id] == Row(m.(supersedes := Some(d.target)), Some(v), after.generation)
      case FlagConflict(_, _) =>
        && u == Row(next.(status := Disputed), t.embedding, after.generation) && m.id in after.rows
        && after.rows[m.id] == Row(m.(status := Disputed), Some(v), after.generation)
  }

  /** Each decision has its own name in the audit trail. */
  lemma AuditNames(d: Decision, e: Decision)
    ensures ActionOf(d) == ActionOf(e) <==>
      (d.Create? <==> e.Create?) && (d.Attach? <==> e.Attach?) && (d.Supersede? <==> e.Supersede?)
      && (d.Exception? <==> e.Exception?) && (d.FlagConflict? <==> e.FlagConflict?)
    ensures ActionOf(d) == (if d.Create? then "create" else if d.Supersede? then "supersede" else if d.Attach? then
      "attach_evidence" else if d.FlagConflict? then "flag_conflict" else "preserve_exception")
  {
    assert |"create"| == 6 && |"attach_evidence"| == 15 && |"supersede"| == 9 && |"preserve_exception"| == 18
      && |"flag_conflict"| == 13;
  }

  lemma MergedSorted(a: seq<string>, b: seq<string>)
    ensures Ordering.StrictlySorted(MergedRefs(a, b))
  {
    Ordering.CanonicalSorted(a + b);
  }

  /** Each decision leaves target and newcomer as it says, in one new generation with one audit entry naming those
      concerned; no other row changes. */
  lemma DecisionsSettle(seen: map<Id, Memory>, s: State, m: Memory, v: Vector, d: Decision, allowed: set<Id>,
                        write: bool, now: int)
    requires Keyed(s) && Backed(seen, s) && Current(seen, s, d) && Incoming(s, m)
    requires Reconcile(seen, s, m, v, d, allowed, write, now).Ok?
    ensures
      var after := Reconcile(seen, s, m, v, d, allowed, write, now).value.state;
      && Settles(s, m, v, d, now, after)
      && after.generation == s.generation + 1 && after.writes == s.writes + (if write then 1 else 0)
      && after.audit == s.audit + [Entry(s.generation + 1, ActionOf(d), if d.Create? then [m.id] else [m.id, d.target])]
      && after.rows.Keys <= s.rows.Keys + {m.id}
      && forall id :: id in s.rows && (d.Create? || id != d.target) ==> after.rows[id] == s.rows[id]
  {
    hide MergedRefs, Objection, Settles, Written;
    AppliedTouches(seen, s, m, v, d, allowed, write, now);
    var target := Admit(seen, s, m, d, allowed).value;
    if !d.Create? { AdmittedIsActive(seen, s, m, d, allowed); }
    WrittenSettles(Bump(s, ActionOf(d), SubjectsOf(m, d), write), m, v, d, target, now);
    AppliedCounts(s, m, v, d, target, write, now);
    BumpSettles(s, Bump(s, ActionOf(d), SubjectsOf(m, d), write), m, v, d, now,
      Applied(s, m, v, d, target, write, now).state);
  }

  lemma WrittenSettles(s: State, m: Memory, v: Vector, d: Decision, target: Option<Memory>, now: int)
    requires Keyed(s) && !Contains(s, m.id) && (d.Create? <==> target.None?)
    requires target.Some? ==>
      target.value.id == d.target && d.target in s.rows && s.rows[d.target].memory == target.value
    requires d.Attach? ==> target.value.status == Active
    ensures Settles(s, m, v, d, now, Written(s, m, v, d, target, now).state)
    ensures Written(s, m, v, d, target, now).state.rows.Keys <= s.rows.Keys + {m.id}
  {
    hide MergedRefs;
    if d.Attach? { MergedSorted(target.value.sourceRefs, m.sourceRefs); }
  }

  lemma BumpSettles(s: State, bumped: State, m: Memory, v: Vector, d: Decision, now: int, after: State)
    requires s.rows == bumped.rows && Settles(bumped, m, v, d, now, after)
    ensures Settles(s, m, v, d, now, after)
  {
  }

  /** No decision takes an explicit rule out of force: superseding one takes another explicit statement of it. */
  lemma AppliedKeepsRule(seen: map<Id, Memory>, s: State, m: Memory, v: Vector, d: Decision, allowed: set<Id>,
                         write: bool, now: int, rule: Rule)
    requires Keyed(s) && Backed(seen, s) && Current(seen, s, d) && m.status == Active
    requires Admit(seen, s, m, d, allowed).Ok? && InForce(s, rule)
    ensures InForce(Applied(s, m, v, d, Admit(seen, s, m, d, allowed).value, write, now).state, rule)
  {
    var t := Applied(s, m, v, d, Admit(seen, s, m, d, allowed).value, write, now).state;
    var id :| id in s.rows && States(s.rows[id].memory, rule);
    if d.Create? || id != d.target {
      assert t.rows[id] == s.rows[id];
    } else if d.Supersede? {
      assert States(t.rows[m.id].memory, rule);
    } else {
      assert States(t.rows[id].memory, rule);
    }
  }
}
