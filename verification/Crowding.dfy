/** A run that crowds one record out of a search: more records than the candidate budget covers are remembered, each in
    a transaction of its own, and a dream merges the last of them into another (`memory_core/memory/reconciliation.py`,
    `memory_core/memory/dream.py`). */
module Crowding {
  import opened Types
  import opened Ordering
  import opened Fields
  import opened Store
  import opened Reconciliation
  import opened Dream
  import opened Scores
  import opened Shortlist
  import opened Cache
  import Runs

  function VectorFor(c: Candidate): Vector {
    if c.cosine.Some? && c.cosine.value > 0.0 then [1.0, 0.0] else [0.0, 1.0]
  }

  function Last(p: Policy, limit: nat): nat
    requires ValidPolicy(p)
  {
    BudgetCoversLimit(p, limit);
    2 * Budget(p, limit) + 1 - limit
  }

  /** The pool beyond the budget as memories to be remembered, each with its own embedding; what follows the last of the
      pool is out of scope. */
  function Told(p: Policy, limit: nat, i: nat): Memory
    requires ValidPolicy(p)
  {
    var scope := if i <= Last(p, limit) then UserScope else ProjectScope("elsewhere");
    var summary := if CandidateAt(p, limit, i).overlap > 0 then "w" else "v";
    Memory(Name(i), scope, Active, summary, ["source"], map[], 0, 0, 1, None, Observed("o", 0))
  }

  /** A record of the pool with the same content as its last one. */
  function Twin(p: Policy, limit: nat): nat { Budget(p, limit) }

  /** The records once the last of the pool has been merged into its twin. */
  function RecordAt(p: Policy, limit: nat, i: nat): Record
    requires ValidPolicy(p)
  {
    var m := Told(p, limit, i);
    Record(if i == Last(p, limit) then Retired(m, Superseded, 0)
           else if i == Twin(p, limit) then WithEvidence(m, m.sourceRefs, 0) else m,
           Some(VectorFor(CandidateAt(p, limit, i))))
  }

  function OwnFields(): Registry {
    Registry(map["kind" := Field("kind", Keyword, true, []), "status" := Field("status", Keyword, true, [])], map[])
  }

  lemma NamesDiffer(i: nat, j: nat)
    requires i != j
    ensures Name(i) != Name(j)
  {
    assert |Name(i)| == i + 1 && |Name(j)| == j + 1;
  }

  lemma TwinIsNotLast(p: Policy, limit: nat)
    requires ValidPolicy(p)
    ensures Twin(p, limit) < Last(p, limit)
    ensures CandidateAt(p, limit, Twin(p, limit)) == Candidate(Some(0.0), 1)
  {
    BudgetCoversLimit(p, limit);
  }

  // ---------- the run ----------

  function ToldRow(p: Policy, limit: nat, id: Id): Row
    requires ValidPolicy(p) && id != ""
  {
    Row(Told(p, limit, |id| - 1), Some(VectorFor(CandidateAt(p, limit, |id| - 1))), |id|)
  }

  function ToldRows(p: Policy, limit: nat, k: nat): map<Id, Row>
    requires ValidPolicy(p)
  {
    map id | id in Names(0, k) :: ToldRow(p, limit, id)
  }

  function Creations(k: nat): seq<Entry> {
    if k == 0 then [] else Creations(k - 1) + [Entry(k, "create", [Name(k - 1)])]
  }

  /** The first k remembered, each in a transaction of its own. */
  function ToldState(p: Policy, limit: nat, k: nat): State
    requires ValidPolicy(p)
  {
    State(k, k, Key(0, ""), 0, ToldRows(p, limit, k), map[], OwnFields(), Creations(k))
  }

  function FilledRow(p: Policy, limit: nat, id: Id): Row
    requires ValidPolicy(p) && id != ""
  {
    var x := RecordAt(p, limit, |id| - 1);
    Row(x.memory, x.embedding, if |id| - 1 == Last(p, limit) || |id| - 1 == Twin(p, limit) then 258 else |id|)
  }

  function FilledRows(p: Policy, limit: nat): map<Id, Row>
    requires ValidPolicy(p)
  {
    map id | id in Names(0, 257) :: FilledRow(p, limit, id)
  }

  /** All of it remembered, and the last of the pool merged into its twin by a dream. */
  function FilledState(p: Policy, limit: nat): State
    requires ValidPolicy(p)
  {
    State(259, 257, Key(0, ""), 0, FilledRows(p, limit), map[], OwnFields(),
          Creations(257) + [Entry(258, "dream_merge", [Name(Last(p, limit)), Name(Twin(p, limit))])]
          + [Entry(259, "dream_applied", [])])
  }

  lemma ToldParts(p: Policy, limit: nat, i: nat)
    requires ValidPolicy(p)
    ensures
      var m := Told(p, limit, i);
      && m.id == Name(i) && m.status == Active && m.revision == 1 && m.supersedes == None
      && m.metadata == map[] && m.content.Observed? && m.updatedAt == 0
  {
    hide Name, CandidateAt, Budget;
  }

  lemma ToldRowsAt(p: Policy, limit: nat, k: nat, id: Id)
    requires ValidPolicy(p) && id in Names(0, k)
    ensures 0 < |id| <= k && id == Name(|id| - 1) && id in ToldRows(p, limit, k)
    ensures ToldRows(p, limit, k)[id] == ToldRow(p, limit, id) && ToldRow(p, limit, id).memory.id == id
  {
    hide Name, Told;
    ToldParts(p, limit, |id| - 1);
  }

  lemma ToldRowsOneMore(p: Policy, limit: nat, k: nat)
    requires ValidPolicy(p)
    ensures Name(k) !in ToldRows(p, limit, k) && "" !in ToldRows(p, limit, k) && |Name(k)| == k + 1
    ensures ToldRows(p, limit, k + 1) == ToldRows(p, limit, k)[Name(k) := ToldRow(p, limit, Name(k))]
  {
    hide Told, CandidateAt;
    assert |Name(k)| == k + 1;
  }

  lemma ToldIsKeyed(p: Policy, limit: nat, k: nat)
    requires ValidPolicy(p)
    ensures Keyed(ToldState(p, limit, k)) && !Contains(ToldState(p, limit, k), Name(k))
  {
    hide ToldRows, ToldRow, Name, Names;
    ToldRowsOneMore(p, limit, k);
    forall id | id in ToldRows(p, limit, k) ensures ToldRows(p, limit, k)[id].memory.id == id {
      ToldKeys(p, limit, k);
      ToldRowsAt(p, limit, k, id);
    }
  }

  lemma ToldKeys(p: Policy, limit: nat, k: nat)
    requires ValidPolicy(p)
    ensures ToldRows(p, limit, k).Keys == Names(0, k)
  {
    hide ToldRow;
  }

  lemma TellingOneMore(p: Policy, limit: nat, k: nat)
    requires ValidPolicy(p)
    ensures Runs.Next(ToldState(p, limit, k), ToldState(p, limit, k + 1))
  {
    hide Told, ToldRows, CandidateAt, Name, Keyed, Built, Runs.Commit, VectorFor, OwnFields, Normal;
    var s, m, v := ToldState(p, limit, k), Told(p, limit, k), VectorFor(CandidateAt(p, limit, k));
    ToldParts(p, limit, k);
    ToldIsKeyed(p, limit, k);
    ToldRowsOneMore(p, limit, k);
    OwnFieldsBuilt();
    PlainIsNormal(s.registry.fields, m);
    Runs.CreatingStores(s, m, v, 0);
    var e := Runs.Event.Remember(m, v, Create, {}, 0);
    assert Runs.Commit(s, e) == Ok(ToldState(p, limit, k + 1));
    assert Runs.Admissible(e);
  }

  lemma PlainIsNormal(fields: map<string, Field>, m: Memory)
    requires m.metadata == map[] && m.content.Observed?
    ensures Normal(fields, m)
  {
  }

  lemma TwinsAreEquivalent(p: Policy, limit: nat)
    requires ValidPolicy(p)
    ensures Equivalent(Told(p, limit, Last(p, limit)), Told(p, limit, Twin(p, limit)))
  {
    hide Name, CandidateAt;
    TwinIsNotLast(p, limit);
    LastToldIsFull(p, limit);
  }

  lemma MergedRows(p: Policy, limit: nat)
    requires ValidPolicy(p) && Last(p, limit) < 257
    ensures
      var s, last, twin := ToldState(p, limit, 257), Told(p, limit, Last(p, limit)), Told(p, limit, Twin(p, limit));
      && last.id in s.rows && twin.id in s.rows && s.rows[last.id].memory == last && s.rows[twin.id].memory == twin
      && last.id != twin.id
      && Bump(Merge(s, last, twin, 0), "dream_applied", [], false) == FilledState(p, limit)
  {
    hide Name, Names, MergedRefs, CandidateAt, ToldRows, FilledRows, Told, Last, Twin, Creations;
    var i, j := Last(p, limit), Twin(p, limit);
    TwinIsNotLast(p, limit);
    ToldParts(p, limit, i);
    ToldParts(p, limit, j);
    NameIsIn(i);
    NameIsIn(j);
    NamesDiffer(i, j);
    ToldRowsAt(p, limit, 257, Name(i));
    ToldRowsAt(p, limit, 257, Name(j));
    MergedIntoTwin(p, limit);
  }

  lemma LastToldIsFull(p: Policy, limit: nat)
    requires ValidPolicy(p)
    ensures CandidateAt(p, limit, Last(p, limit)) == Candidate(Some(1.0), 1)
  {
    BudgetCoversLimit(p, limit);
  }

  lemma MergedIntoTwin(p: Policy, limit: nat)
    requires ValidPolicy(p) && Last(p, limit) < 257
    ensures
      var rows, last, twin := ToldRows(p, limit, 257), Told(p, limit, Last(p, limit)), Told(p, limit, Twin(p, limit));
      && last.id in rows && twin.id in rows
      && rows[last.id := Row(Retired(last, Superseded, 0), rows[last.id].embedding, 258)]
             [twin.id := Row(WithEvidence(twin, last.sourceRefs, 0), rows[twin.id].embedding, 258)]
         == FilledRows(p, limit)
  {
    hide Name, Names, MergedRefs, ToldRow, FilledRow, Told, Last, Twin;
    var i, j := Last(p, limit), Twin(p, limit);
    TwinIsNotLast(p, limit);
    ToldParts(p, limit, i);
    ToldParts(p, limit, j);
    NameIsIn(i);
    NameIsIn(j);
    ToldKeys(p, limit, 257);
    FilledKeys(p, limit);
    forall id | id in Names(0, 257) && id != Name(i) && id != Name(j)
      ensures FilledRow(p, limit, id) == ToldRow(p, limit, id)
    {
      IsName(id);
      UnmergedRow(p, limit, id);
    }
    MergedRowPair(p, limit);
  }

  lemma UnmergedRow(p: Policy, limit: nat, id: Id)
    requires ValidPolicy(p) && id != "" && |id| - 1 != Last(p, limit) && |id| - 1 != Twin(p, limit)
    ensures FilledRow(p, limit, id) == ToldRow(p, limit, id)
  {
    hide Told, CandidateAt, Last, Twin;
  }

  lemma MergedRowPair(p: Policy, limit: nat)
    requires ValidPolicy(p)
    ensures
      var last, twin := Told(p, limit, Last(p, limit)), Told(p, limit, Twin(p, limit));
      && last.id != "" && twin.id != "" && last.id != twin.id
      && FilledRow(p, limit, last.id)
         == Row(Retired(last, Superseded, 0), ToldRow(p, limit, last.id).embedding, 258)
      && FilledRow(p, limit, twin.id)
         == Row(WithEvidence(twin, last.sourceRefs, 0), ToldRow(p, limit, twin.id).embedding, 258)
  {
    hide CandidateAt, MergedRefs, VectorFor, Name;
    var i, j := Last(p, limit), Twin(p, limit);
    TwinIsNotLast(p, limit);
    assert |Name(i)| == i + 1 && |Name(j)| == j + 1 by { NameLength(i); NameLength(j); }
  }

  lemma NameLength(i: nat)
    ensures |Name(i)| == i + 1
  {
  }

  lemma DreamMerges(p: Policy, limit: nat)
    requires ValidPolicy(p) && Last(p, limit) < 257
    ensures Runs.Next(ToldState(p, limit, 257), FilledState(p, limit))
  {
    hide Told, Keyed, Merge, NormalizeMemory, Equivalent, FilledState, ToldState, Built, Normal, OwnFields, ApplyPlan;
    hide Last, Twin;
    var s, last, twin := ToldState(p, limit, 257), Told(p, limit, Last(p, limit)), Told(p, limit, Twin(p, limit));
    ToldIsKeyed(p, limit, 257);
    MergedRows(p, limit);
    TwinsAreEquivalent(p, limit);
    ToldParts(p, limit, Last(p, limit));
    ToldParts(p, limit, Twin(p, limit));
    OwnFieldsBuilt();
    ToldRegistry(p, limit, 257);
    PlainIsNormal(s.registry.fields, last);
    NormalizeIsIdentityOnStored(s.registry.fields, s.registry, last);
    MergingApplies(s, last, twin);
    NameLength(Last(p, limit));
    ConsolidatingIsNext(s, [Group(last, [twin])], [Change(last, Attach(twin.id, 1))], [[]], 0);
  }

  lemma ToldRegistry(p: Policy, limit: nat, k: nat)
    requires ValidPolicy(p)
    ensures ToldState(p, limit, k).registry == OwnFields()
  {
  }

  lemma ConsolidatingIsNext(s: State, groups: seq<Group>, changes: seq<Change>, vectors: seq<Vector>, now: int)
    requires Keyed(s) && |changes| == |vectors| && ApplyPlan(s, groups, changes, vectors, now).Ok?
    requires forall c :: c in changes ==> c.memory.id != ""
    ensures Runs.Next(s, ApplyPlan(s, groups, changes, vectors, now).value)
  {
    hide ApplyPlan, Keyed;
    var e := Runs.Event.Consolidate(groups, changes, vectors, now);
    assert Runs.Commit(s, e) == ApplyPlan(s, groups, changes, vectors, now);
  }

  /** A plan of one merge into a neighbour. */
  lemma MergingApplies(s: State, last: Memory, twin: Memory)
    requires Keyed(s) && last.id in s.rows && twin.id in s.rows && s.rows[last.id].memory == last
    requires s.rows[twin.id].memory == twin && last.status == twin.status == Active && twin.revision == 1
    requires last.id != twin.id && Equivalent(last, twin) && NormalizeMemory(s.registry, last) == Ok(last)
    ensures ApplyPlan(s, [Group(last, [twin])], [Change(last, Attach(twin.id, 1))], [[]], 0)
         == Ok(Bump(Merge(s, last, twin, 0), "dream_applied", [], false))
  {
    hide Merge, NormalizeMemory, Equivalent;
    var groups, change := [Group(last, [twin])], Change(last, Attach(twin.id, 1));
    assert groups[0].memory.id == last.id && groups[0].neighbors[0].id == twin.id;
    assert last.id in Originals(groups) && twin.id in Candidates(groups);
    var vectors: seq<Vector> := [[]];
    var p := Progressed(s, {});
    assert [change][..0] == [] && vectors[..0] == [];
    assert ApplyChanges(s, p, Originals(groups), Candidates(groups), [], [], 0) == Ok(p);
    assert ApplyChange(s, s, {}, Originals(groups), Candidates(groups), change, vectors[0], 0)
      == Ok(Progressed(Merge(s, last, twin, 0), {} + {twin.id, last.id}));
  }

  function Telling(p: Policy, limit: nat): (states: seq<State>)
    requires ValidPolicy(p)
    ensures |states| == 259 && states[258] == FilledState(p, limit)
    ensures forall k :: 0 <= k <= 257 ==> states[k] == ToldState(p, limit, k)
  {
    seq(258, k requires 0 <= k => ToldState(p, limit, k)) + [FilledState(p, limit)]
  }

  /** The state is reached by 257 transactions of their own and a dream. */
  lemma FilledIsReached(p: Policy, limit: nat)
    requires ValidPolicy(p) && Last(p, limit) < 257
    ensures Runs.Run(Telling(p, limit)) && Runs.Reached(FilledState(p, limit))
  {
    hide ToldState, FilledState, Runs.Next, Last;
    var states := Telling(p, limit);
    NothingTold(p, limit);
    forall i | 0 <= i < |states| - 1 ensures Runs.Next(states[i], states[i + 1]) {
      if i < 257 { TellingOneMore(p, limit, i); } else { DreamMerges(p, limit); }
    }
  }

  lemma NothingTold(p: Policy, limit: nat)
    requires ValidPolicy(p)
    ensures Runs.Initial(ToldState(p, limit, 0))
  {
    hide Built, OwnFields, ToldRow;
    OwnFieldsBuilt();
    assert Names(0, 0) == {};
  }

  lemma RecordParts(p: Policy, limit: nat, i: nat)
    requires ValidPolicy(p)
    ensures
      var m := RecordAt(p, limit, i).memory;
      && m.id == Name(i) && (m.status == Superseded <==> i == Last(p, limit)) && m.updatedAt == 0
      && m.metadata == map[] && m.content.Observed?
  {
    hide Name, CandidateAt, VectorFor, MergedRefs;
  }

  lemma NameIsIn(i: nat)
    requires i < 257
    ensures Name(i) in Names(0, 257) && |Name(i)| == i + 1
  {
    assert |Name(i)| == i + 1;
  }

  lemma IsName(id: Id)
    requires id in Names(0, 257)
    ensures 0 < |id| <= 257 && id == Name(|id| - 1)
  {
  }

  lemma FilledRowsAt(p: Policy, limit: nat, id: Id)
    requires ValidPolicy(p) && id in FilledRows(p, limit)
    ensures 0 < |id| <= 257 && id == Name(|id| - 1)
    ensures
      var x := RecordAt(p, limit, |id| - 1);
      var row := FilledRows(p, limit)[id];
      && row == FilledRow(p, limit, id) && row.memory == x.memory && row.embedding == x.embedding && x.memory.id == id
  {
    hide Names, Name, RecordAt, Last, Twin;
    IsName(id);
    RecordParts(p, limit, |id| - 1);
  }

  lemma FilledKeys(p: Policy, limit: nat)
    requires ValidPolicy(p)
    ensures FilledRows(p, limit).Keys == Names(0, 257) && |Names(0, 257)| == 257
  {
    hide RecordAt;
  }

  lemma OwnFieldsBuilt()
    ensures SystemFields(OwnFields()) && Built(OwnFields())
  {
  }

  lemma OnlyLastExpires(p: Policy, limit: nat)
    requires ValidPolicy(p) && Last(p, limit) < 257
    ensures Runs.Expired(FilledState(p, limit), 1) == {Key(258, Name(Last(p, limit)))}
  {
    hide RecordAt, Budget, Name, Names, FilledRows, Last;
    var s, k := FilledState(p, limit), Last(p, limit);
    NameIsIn(k);
    FilledKeys(p, limit);
    forall id | id in s.rows
      ensures s.rows[id].memory.updatedAt == 0 && (id == Name(k) ==> s.rows[id].generation == 258)
      ensures s.rows[id].memory.status == Superseded <==> id == Name(k)
    {
      FilledRowsAt(p, limit, id);
      RecordParts(p, limit, |id| - 1);
    }
  }

  lemma FirstOfOne(k: Key)
    ensures FirstKeys({k}, 1) == [k]
  {
    assert {k} - {Least({k})} == {};
  }

  lemma IdsOfOne(k: Key)
    ensures Runs.Ids([k]) == {k.id}
  {
    assert [k][0] == k;
  }

  lemma ArchivedRows(p: Policy, limit: nat)
    requires ValidPolicy(p) && Last(p, limit) < 256
    ensures Name(Last(p, limit)) in Names(0, 257)
    ensures Runs.ArchivePage(FilledState(p, limit), 1, 1).rows.Keys == Names(0, 257) - {Name(Last(p, limit))}
  {
    hide RecordAt, Budget, Name, Names, FilledRows, Last, FirstKeys, Runs.Expired;
    var s, k := FilledState(p, limit), Last(p, limit);
    OnlyLastExpires(p, limit);
    FirstOfOne(Key(258, Name(k)));
    Runs.PageRows(s, 1, 1);
    NameIsIn(k);
    FilledKeys(p, limit);
    IdsOfOne(Key(258, Name(k)));
  }
}
