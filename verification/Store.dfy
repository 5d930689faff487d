/** One owner's durable state (`memory_core/memory/store.py`) and what every committed state satisfies.
    A write runs under BEGIN IMMEDIATE, so a transaction is one atomic step on a `State`. */
module Store {
  import opened Types
  import opened Ordering
  import opened Fields

  /** A row of `memories_v1`, or of `memory_archives` (then the generation is the one that archived it). */
  datatype Row = Row(memory: Memory, embedding: Option<Vector>, generation: nat)

  /** Payload and embedding, as historical recall reads them from either table. */
  datatype Record = Record(memory: Memory, embedding: Option<Vector>)

  datatype Entry = Entry(generation: nat, action: string, subjects: seq<Id>)

  /** The owner's counters, live rows, archives, registry and audit trail. */
  datatype State = State(
    generation: nat,
    writes: nat,
    cursor: Key,       // dream_cursor, dream_cursor_id
    dreamWrites: nat,
    rows: map<Id, Row>,
    archives: map<Id, Row>,
    registry: Registry,
    audit: seq<Entry>)

  // ---------- primitive updates ----------

  function Bump(s: State, action: string, subjects: seq<Id>, write: bool): State {
    s.(generation := s.generation + 1,
       writes := s.writes + (if write then 1 else 0),
       audit := s.audit + [Entry(s.generation + 1, action, subjects)])
  }

  function Put(s: State, m: Memory, embedding: Option<Vector>, generation: nat): State {
    s.(rows := s.rows[m.id := Row(m, embedding, generation)])
  }

  predicate Contains(s: State, id: Id) {
    id in s.rows || id in s.archives
  }

  /** The rows the owner's cache serves: everything not superseded. */
  function Visible(s: State): map<Id, Memory> {
    map id | id in s.rows && s.rows[id].memory.status != Superseded :: s.rows[id].memory
  }

  /** Every retained record, live or archived. */
  function All(s: State): map<Id, Memory> {
    map id | id in s.rows.Keys + s.archives.Keys ::
      if id in s.rows then s.rows[id].memory else s.archives[id].memory
  }

  // ---------- what committed states satisfy ----------

  ghost predicate Keyed(s: State) {
    && s.rows.Keys !! s.archives.Keys
    && (forall id :: id in s.rows ==> s.rows[id].memory.id == id)
    && (forall id :: id in s.archives ==> s.archives[id].memory.id == id)
    && "" !in s.rows && "" !in s.archives
  }

  ghost predicate Bounded(s: State) {
    && (forall id :: id in s.rows ==> 0 < s.rows[id].generation <= s.generation)
    && (forall id :: id in s.archives ==> 0 < s.archives[id].generation <= s.generation)
    && s.dreamWrites <= s.writes
  }

  /** Every generation left exactly one audit entry. */
  ghost predicate Audited(s: State) {
    |s.audit| == s.generation && forall i :: 0 <= i < |s.audit| ==> s.audit[i].generation == i + 1
  }

  ghost predicate Typed(s: State) {
    && Built(s.registry)
    && (forall id :: id in s.rows ==> Normal(s.registry.fields, s.rows[id].memory))
    && (forall id :: id in s.archives ==> Normal(s.registry.fields, s.archives[id].memory))
    && (forall id :: id in s.archives ==> s.archives[id].memory.status == Superseded)
  }

  predicate PointsTo(m: Memory, id: Id) {
    Present(m.supersedes) && m.supersedes.value == id
  }

  predicate SameLink(a: Memory, b: Memory) {
    Present(a.supersedes) && a.supersedes == b.supersedes
  }

  /** A supersession link leads to a retained, superseded record, and no two links share a target. */
  ghost predicate Linked(records: map<Id, Memory>) {
    && (forall id :: id in records && Present(records[id].supersedes) ==>
          && records[id].supersedes.value in records
          && records[records[id].supersedes.value].status == Superseded)
    && (forall a, b :: a in records && b in records && SameLink(records[a], records[b]) ==> a == b)
  }

  /** A rank that falls along every link: supersession has no cycles. */
  ghost predicate Ranked(records: map<Id, Memory>, rank: map<Id, nat>) {
    && rank.Keys == records.Keys
    && forall id :: id in records && Present(records[id].supersedes) && records[id].supersedes.value in records ==>
         rank[records[id].supersedes.value] < rank[id]
  }

  ghost predicate Acyclic(records: map<Id, Memory>) {
    exists rank :: Ranked(records, rank)
  }

  ghost predicate Inv(s: State) {
    Keyed(s) && Bounded(s) && Audited(s) && Typed(s) && Linked(All(s)) && Acyclic(All(s))
  }

  lemma InvParts(s: State)
    requires Inv(s)
    ensures Keyed(s) && Bounded(s) && Audited(s) && Typed(s) && Linked(All(s)) && Acyclic(All(s))
  {
  }

  // ---------- how states relate over time ----------

  /** What an index that was exact at `s` needs to learn to be exact at `t`: every difference carries a newer
      generation, and an equal generation means equal contents. */
  ghost predicate Later(s: State, t: State) {
    && s.generation <= t.generation
    && s.writes <= t.writes
    && (forall id :: id in t.rows ==>
          t.rows[id].generation > s.generation || (id in s.rows && t.rows[id] == s.rows[id]))
    && (forall id :: id in s.rows ==>
          id in t.rows || (id in t.archives && t.archives[id].generation > s.generation))
    && (forall id :: id in s.archives ==> id in t.archives && t.archives[id] == s.archives[id])
    && (forall id :: id in t.archives ==> id in s.archives || t.archives[id].generation > s.generation)
    && Extends(s.registry.fields, t.registry.fields)
    && (s.generation == t.generation ==> SameContents(s, t))
  }

  predicate SameContents(s: State, t: State) {
    s.rows == t.rows && s.archives == t.archives && s.registry == t.registry && s.audit == t.audit
      && s.writes == t.writes
  }

  lemma LaterReflexive(s: State)
    ensures Later(s, s)
  {
  }

  lemma LaterTransitive(s: State, t: State, u: State)
    requires Later(s, t) && Later(t, u)
    ensures Later(s, u)
  {
    forall id | id in s.rows && id !in u.rows
      ensures id in u.archives && u.archives[id].generation > s.generation
    {
      if id in t.rows {
        assert id in u.archives && u.archives[id].generation > t.generation;
      } else {
        assert id in t.archives && u.archives[id] == t.archives[id];
      }
    }
  }

  /** A record's later version: same identity and content; a new version has a higher revision; superseded and
      disputed records never change again; evidence is only added. */
  ghost predicate Progress(a: Memory, b: Memory) {
    && a.revision <= b.revision
    && (a.revision == b.revision ==> a == b)
    && (a.status != Active ==> a == b)
    && a.id == b.id && a.scope == b.scope && a.content == b.content && a.metadata == b.metadata
    && a.summary == b.summary && a.createdAt == b.createdAt && a.supersedes == b.supersedes
    && (forall r :: r in a.sourceRefs ==> r in b.sourceRefs)
  }

  ghost predicate Evolves(s: State, t: State) {
    forall id :: id in All(s) ==> id in All(t) && Progress(All(s)[id], All(t)[id])
  }

  lemma EvolvesTransitive(s: State, t: State, u: State)
    requires Evolves(s, t) && Evolves(t, u)
    ensures Evolves(s, u)
  {
    forall id | id in All(s) ensures id in All(u) && Progress(All(s)[id], All(u)[id]) {
      assert Progress(All(s)[id], All(t)[id]) && Progress(All(t)[id], All(u)[id]);
    }
  }

  /** One committed transaction raises a revision by at most one. */
  ghost predicate OneStep(a: Memory, b: Memory) {
    Progress(a, b) && (a == b || b.revision == a.revision + 1)
  }

  /** A rule the user stated, identified by what it governs. */
  datatype Rule = Rule(scope: Scope, key: string, applicability: map<string, seq<Scalar>>)

  predicate States(m: Memory, rule: Rule) {
    && m.status != Superseded && m.content.Preference? && m.content.explicit
    && m.scope == rule.scope && m.content.key == rule.key && m.content.applicability == rule.applicability
  }

  /** Some live, non-superseded explicit preference states the rule. */
  ghost predicate InForce(s: State, rule: Rule) {
    exists id :: id in s.rows && States(s.rows[id].memory, rule)
  }

  // ---------- the two ways a row changes ----------

  /** A new version of a live, active row. */
  predicate Revises(a: Memory, b: Memory) {
    && a.status == Active && b.revision == a.revision + 1
    && b == a.(status := b.status, revision := b.revision, updatedAt := b.updatedAt, sourceRefs := b.sourceRefs)
    && (forall r :: r in a.sourceRefs ==> r in b.sourceRefs)
  }

  lemma RevisesIsOneStep(a: Memory, b: Memory)
    requires Revises(a, b)
    ensures OneStep(a, b)
  {
  }

  lemma AllAfterPut(s: State, m: Memory, e: Option<Vector>, g: nat)
    ensures All(Put(s, m, e, g)) == All(s)[m.id := m]
  {
  }

  /** Nothing points at an active record. */
  lemma ActiveIsUnlinked(records: map<Id, Memory>, id: Id)
    requires Linked(records) && id in records && records[id].status == Active
    ensures forall a :: a in records ==> !PointsTo(records[a], id)
  {
  }

  lemma LinkedAfterRevision(records: map<Id, Memory>, a: Memory, b: Memory)
    requires Linked(records) && a.id in records && records[a.id] == a && Revises(a, b)
    ensures Linked(records[a.id := b])
  {
    ActiveIsUnlinked(records, a.id);
  }

  lemma AcyclicAfterRevision(records: map<Id, Memory>, a: Memory, b: Memory)
    requires Acyclic(records) && a.id in records && records[a.id] == a && Revises(a, b)
    ensures Acyclic(records[a.id := b])
  {
    var rank :| Ranked(records, rank);
    assert Ranked(records[a.id := b], rank);
  }

  ghost function MaxRank(rank: map<Id, nat>): (m: nat)
    ensures forall id :: id in rank ==> rank[id] <= m
    decreases |rank|
  {
    if rank == map[] then 0
    else
      var id :| id in rank;
      var rest := rank - {id};
      var m := MaxRank(rest);
      assert forall x :: x in rank ==> x == id || (x in rest && rest[x] == rank[x]);
      if rank[id] > m then rank[id] else m
  }

  /** A new record may point at a superseded record nobody points at yet. */
  ghost predicate Linkable(records: map<Id, Memory>, m: Memory) {
    && m.id !in records
    && (Present(m.supersedes) ==>
          && m.supersedes.value in records && records[m.supersedes.value].status == Superseded
          && forall a :: a in records ==> !SameLink(records[a], m))
  }

  lemma LinkedAfterInsert(records: map<Id, Memory>, m: Memory)
    requires Linked(records) && Linkable(records, m)
    ensures Linked(records[m.id := m])
  {
  }

  lemma AcyclicAfterInsert(records: map<Id, Memory>, m: Memory)
    requires Linked(records) && Acyclic(records) && Linkable(records, m)
    ensures Acyclic(records[m.id := m])
  {
    var rank :| Ranked(records, rank);
    var top := MaxRank(rank);
    forall id | id in records && Present(records[id].supersedes) ensures records[id].supersedes.value in records { }
    assert Ranked(records[m.id := m], rank[m.id := top + 1]);
  }

  // ---------- micro-steps of a transaction ----------

  lemma BumpKeeps(s: State, action: string, subjects: seq<Id>, write: bool)
    requires Inv(s)
    ensures Inv(Bump(s, action, subjects, write)) && Later(s, Bump(s, action, subjects, write))
    ensures All(Bump(s, action, subjects, write)) == All(s)
  {
    assert All(Bump(s, action, subjects, write)) == All(s);
  }

  lemma PutKeepsShape(s: State, m: Memory, e: Option<Vector>, g: nat)
    requires Keyed(s) && Bounded(s) && Typed(s) && 0 < g <= s.generation
    requires m.id != "" && m.id !in s.archives && Normal(s.registry.fields, m)
    ensures Keyed(Put(s, m, e, g)) && Bounded(Put(s, m, e, g)) && Typed(Put(s, m, e, g))
  {
  }

  lemma RevisedIsNormal(s: State, b: Memory)
    requires Typed(s) && b.id in s.rows && Revises(s.rows[b.id].memory, b)
    ensures Normal(s.registry.fields, b)
  {
    hide Built, NormalEntry, NormalCondition;
    assert Normal(s.registry.fields, s.rows[b.id].memory);
  }

  lemma RevisedEvolves(s: State, b: Memory, e: Option<Vector>, g: nat)
    requires Keyed(s) && b.id in s.rows && Revises(s.rows[b.id].memory, b)
    ensures Evolves(s, Put(s, b, e, g)) && All(s)[b.id] == s.rows[b.id].memory
  {
    AllAfterPut(s, b, e, g);
  }

  lemma ReviseKeeps(s: State, b: Memory, e: Option<Vector>, g: nat)
    requires Inv(s) && 0 < g <= s.generation
    requires b.id in s.rows && Revises(s.rows[b.id].memory, b)
    ensures Inv(Put(s, b, e, g)) && Evolves(s, Put(s, b, e, g))
  {
    hide Keyed, Bounded, Typed, Linked, Acyclic, All, Evolves, Revises;
    RevisedIsNormal(s, b);
    RevisedEvolves(s, b, e, g);
    LiveIsNotArchived(s, b.id);
    PutKeepsShape(s, b, e, g);
    AllAfterPut(s, b, e, g);
    LiveIsRetained(s, b.id);
    SameId(s.rows[b.id].memory, b);
    LinkedAfterRevision(All(s), s.rows[b.id].memory, b);
    AcyclicAfterRevision(All(s), s.rows[b.id].memory, b);
  }

  lemma SameId(a: Memory, b: Memory)
    requires Revises(a, b)
    ensures a.id == b.id
  {
  }

  lemma LiveIsRetained(s: State, id: Id)
    requires id in s.rows
    ensures id in All(s)
  {
  }

  lemma LiveIsNotArchived(s: State, id: Id)
    requires Keyed(s) && id in s.rows
    ensures id != "" && id !in s.archives
  {
  }

  lemma InsertKeeps(s: State, m: Memory, e: Option<Vector>, g: nat)
    requires Inv(s) && 0 < g <= s.generation
    requires m.id != "" && Normal(s.registry.fields, m) && Linkable(All(s), m)
    ensures Inv(Put(s, m, e, g)) && Evolves(s, Put(s, m, e, g))
  {
    assert m.id !in All(s);
    PutKeepsShape(s, m, e, g);
    AllAfterPut(s, m, e, g);
    LinkedAfterInsert(All(s), m);
    AcyclicAfterInsert(All(s), m);
  }

  /** A put inside a transaction that began at `s0` and has already bumped. */
  lemma LaterAfterPut(s0: State, s: State, m: Memory, e: Option<Vector>, g: nat)
    requires Later(s0, s) && s0.generation < g && s0.generation < s.generation && m.id !in s0.archives
    ensures Later(s0, Put(s, m, e, g))
  {
  }
}
