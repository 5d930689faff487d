/** `OwnerCache` of `memory_core/memory/cache.py`: one owner's indexes, kept up row by row. However it got there, a
    synchronised cache is exactly what a rebuild from the stored rows would give. */
module Cache {
  import opened Types
  import opened Counting
  import opened Fields
  import opened Store
  import opened Reconciliation
  import opened Postings
  import Metadata
  import Residency

  /** Tokenising is a parameter: any function from text to a finite set of words. */
  type Tokens = string -> set<string>

  datatype Header = Header(kind: Kind, status: Status, project: Option<string>, words: set<string>,
    equivalent: Fingerprint, terms: set<Metadata.Term>)

  function ConditionTerms(c: Content): set<Metadata.Term> {
    if c.Preference? then set f, v | f in c.applicability && v in c.applicability[f] :: Metadata.Term(f, v) else {}
  }

  function HeaderOf(tokens: Tokens, m: Memory): Header {
    Header(KindOf(m.content), m.status, ProjectOf(m.scope), tokens(m.summary), FingerprintOf(m),
      ConditionTerms(m.content))
  }

  function KindName(k: Kind): string {
    match k
    case PreferenceKind => "preference"
    case DecisionKind => "decision"
    case ObservationKind => "observation"
    case ProcedureKind => "procedure"
  }

  function StatusName(s: Status): string {
    match s
    case Active => "active"
    case Superseded => "superseded"
    case Disputed => "disputed"
  }

  /** The metadata a record is filtered by: its own, and the two system fields. */
  function MetadataOf(m: Memory): map<string, Value> {
    m.metadata["kind" := One(Text(KindName(KindOf(m.content))))]["status" := One(Text(StatusName(m.status)))]
  }

  // ---------- what a rebuild from rows gives ----------

  type Contents = map<Id, Row>

  /** The rows a cache serves. */
  ghost function Live(s: State): Contents {
    map id | id in s.rows && s.rows[id].memory.status != Superseded :: s.rows[id]
  }

  ghost function HeadersOf(tokens: Tokens, c: Contents): map<Id, Header> {
    map id | id in c :: HeaderOf(tokens, c[id].memory)
  }

  ghost function DataOf(c: Contents): Metadata.Data {
    map id | id in c :: MetadataOf(c[id].memory)
  }

  ghost function VectorsOf(c: Contents): map<Id, Vector> {
    map id | id in c && c[id].embedding.Some? :: c[id].embedding.value
  }

  ghost function PreferenceFieldsOf(c: Contents): map<Id, nat> {
    map id | id in c && c[id].memory.content.Preference? :: |c[id].memory.content.applicability|
  }

  ghost function UnconditionalOf(c: Contents): set<Id> {
    set id | id in c && c[id].memory.content.Preference? && c[id].memory.content.applicability == map[]
  }

  // What a record is filed under in each posting map.
  function Words(h: Header): set<string> { h.words }
  function OfKind(h: Header): set<Kind> { {h.kind} }
  function OfStatus(h: Header): set<Status> { {h.status} }
  function OfProject(h: Header): set<Option<string>> { {h.project} }
  function ActiveContent(h: Header): set<Fingerprint> { if h.status == Active then {h.equivalent} else {} }
  function Conditions(h: Header): set<Metadata.Term> {
    if h.kind == PreferenceKind && h.status != Superseded then h.terms else {}
  }

  ghost function Per<K(!new)>(h: map<Id, Header>, keys: Header -> set<K>): map<Id, set<K>> {
    map id | id in h :: keys(h[id])
  }

  lemma DroppedFrom<K(!new)>(before: map<K, set<Id>>, after: map<K, set<Id>>, h: map<Id, Header>,
                      keys: Header -> set<K>, id: Id, dropped: set<K>)
    requires Inverse(before, Per(h, keys)) && id in h && keys(h[id]) <= dropped
    requires forall k :: At(after, k) == if k in dropped then At(before, k) - {id} else At(before, k)
    ensures Inverse(after, Per(h - {id}, keys))
  {
    assert Per(h - {id}, keys) == Per(h, keys) - {id};
    InverseAfterDrop(before, after, Per(h, keys), dropped, id);
  }

  lemma AddedTo<K(!new)>(before: map<K, set<Id>>, after: map<K, set<Id>>, h: map<Id, Header>, keys: Header -> set<K>,
                  id: Id, x: Header)
    requires Inverse(before, Per(h, keys)) && id !in h
    requires forall k :: At(after, k) == if k in keys(x) then At(before, k) + {id} else At(before, k)
    ensures Inverse(after, Per(h[id := x], keys))
  {
    assert Per(h[id := x], keys) == Per(h, keys)[id := keys(x)];
    InverseAfterAdd(before, after, Per(h, keys), keys(x), id);
  }

  lemma ContentsWithout(tokens: Tokens, c: Contents, id: Id)
    ensures HeadersOf(tokens, c - {id}) == HeadersOf(tokens, c) - {id} && DataOf(c - {id}) == DataOf(c) - {id}
    ensures PreferenceFieldsOf(c - {id}) == PreferenceFieldsOf(c) - {id}
      && UnconditionalOf(c - {id}) == UnconditionalOf(c) - {id}
    ensures VectorsOf(c - {id}) == VectorsOf(c) - {id}
  {
  }

  lemma ContentsWith(tokens: Tokens, c: Contents, id: Id, row: Row)
    requires id !in c
    ensures HeadersOf(tokens, c[id := row]) == HeadersOf(tokens, c)[id := HeaderOf(tokens, row.memory)]
    ensures DataOf(c[id := row]) == DataOf(c)[id := MetadataOf(row.memory)]
  {
    hide HeaderOf, MetadataOf;
  }

  lemma PreferencesWith(c: Contents, id: Id, row: Row)
    requires id !in c
    ensures PreferenceFieldsOf(c[id := row]) ==
      if row.memory.content.Preference? then PreferenceFieldsOf(c)[id := |row.memory.content.applicability|]
          else PreferenceFieldsOf(c)
    ensures UnconditionalOf(c[id := row]) ==
      if row.memory.content.Preference? && row.memory.content.applicability == map[] then UnconditionalOf(c) + {id}
          else UnconditionalOf(c)
  {
    FieldsWith(c, id, row);
    UnconditionalWith(c, id, row);
  }

  lemma FieldsWith(c: Contents, id: Id, row: Row)
    requires id !in c
    ensures PreferenceFieldsOf(c[id := row]) ==
      if row.memory.content.Preference? then PreferenceFieldsOf(c)[id := |row.memory.content.applicability|]
          else PreferenceFieldsOf(c)
  {
    var was, now := PreferenceFieldsOf(c), PreferenceFieldsOf(c[id := row]);
    assert forall x :: x in c ==> (x in now <==> x in was);
    assert id in now <==> row.memory.content.Preference?;
  }

  lemma UnconditionalWith(c: Contents, id: Id, row: Row)
    requires id !in c
    ensures UnconditionalOf(c[id := row]) ==
      if row.memory.content.Preference? && row.memory.content.applicability == map[] then UnconditionalOf(c) + {id}
          else UnconditionalOf(c)
  {
    var was, now := UnconditionalOf(c), UnconditionalOf(c[id := row]);
    assert forall x :: x in c ==> (x in now <==> x in was);
    assert id in now <==> row.memory.content.Preference? && row.memory.content.applicability == map[];
  }

  ghost predicate Exact<K(!new)>(index: map<K, set<Id>>, keysOf: map<Id, set<K>>) {
    Inverse(index, keysOf) && NoEmpty(index)
  }

  /** Contents are filed under their own id and hold nothing superseded. */
  ghost predicate Served(c: Contents) {
    forall id :: id in c ==> c[id].memory.id == id && c[id].memory.status != Superseded
  }

  // ---------- incremental contents ----------

  /** Rows newer than the cache; a cache that never synchronised reads no superseded row. */
  function Delta(t: State, since: int): Contents {
    map id | id in t.rows && t.rows[id].generation > since && (since >= 0 || t.rows[id].memory.status != Superseded) ::
      t.rows[id]
  }

  function ArchivedSince(t: State, since: int): set<Id> {
    set id | id in t.archives && t.archives[id].generation > since
  }

  /** What `update_rows` makes of the contents. */
  ghost function Patched(c: Contents, rows: Contents): Contents {
    map id | id in c.Keys + rows.Keys && (id in rows ==> rows[id].memory.status != Superseded) ::
      if id in rows then rows[id] else c[id]
  }

  /** What `sync` makes of the contents. */
  ghost function Resynced(c: Contents, since: int, t: State): Contents {
    if since == t.generation then c else Patched(c, Delta(t, since)) - ArchivedSince(t, since)
  }

  /** What `update_rows` makes of the vectors: rows the restored snapshot already covers keep the vector it holds. */
  ghost function PatchedVectors(v: map<Id, Vector>, rows: Contents, restored: int): map<Id, Vector> {
    map id | id in v.Keys + rows.Keys && (id in rows ==> Keeps(v, id, rows[id], restored)) ::
      if id in rows && rows[id].generation > restored then rows[id].embedding.value else v[id]
  }

  predicate Keeps(v: map<Id, Vector>, id: Id, row: Row, restored: int) {
    row.memory.status != Superseded && row.embedding.Some? && ((row.generation > restored || id in v))
  }

  ghost function ResyncedVectors(v: map<Id, Vector>, since: int, t: State, restored: int): map<Id, Vector> {
    if since == t.generation then v else PatchedVectors(v, Delta(t, since), restored) - ArchivedSince(t, since)
  }

  ghost function Only(rows: Contents, ids: set<Id>): Contents {
    map id | id in rows && id in ids :: rows[id]
  }

  lemma OnlyNone(c: Contents, v: map<Id, Vector>, rows: Contents, restored: int)
    ensures Patched(c, Only(rows, rows.Keys - rows.Keys)) == c
    ensures PatchedVectors(v, Only(rows, rows.Keys - rows.Keys), restored) == v
    ensures Only(rows, rows.Keys) == rows
  {
  }

  lemma PatchOneMore(c: Contents, rows: Contents, done: set<Id>, id: Id)
    requires id in rows && id !in done
    ensures Patched(Patched(c, Only(rows, done)), map[id := rows[id]]) == Patched(c, Only(rows, done + {id}))
  {
    var before := Patched(c, Only(rows, done));
    PatchedOnce(before, id, rows[id]);
  }

  lemma PatchVectorOneMore(v: map<Id, Vector>, rows: Contents, done: set<Id>, id: Id, restored: int)
    requires id in rows && id !in done
    ensures PatchedVectors(PatchedVectors(v, Only(rows, done), restored), map[id := rows[id]], restored)
         == PatchedVectors(v, Only(rows, done + {id}), restored)
  {
    hide PatchedVectors;
    var before := PatchedVectors(v, Only(rows, done), restored);
    var after, all := PatchedVectors(before, map[id := rows[id]], restored),
      PatchedVectors(v, Only(rows, done + {id}), restored);
    forall x ensures (x in after <==> x in all) && (x in after ==> after[x] == all[x]) {
      PatchedVectorAt(v, Only(rows, done), restored, x);
      PatchedVectorAt(before, map[id := rows[id]], restored, x);
      PatchedVectorAt(v, Only(rows, done + {id}), restored, x);
    }
    assert after.Keys == all.Keys;
  }

  // ---------- resynchronisation against rebuild ----------

  lemma PatchedAt(c: Contents, rows: Contents, id: Id)
    ensures id in Patched(c, rows) <==> if id in rows then rows[id].memory.status != Superseded else id in c
    ensures id in Patched(c, rows) ==> Patched(c, rows)[id] == if id in rows then rows[id] else c[id]
  {
  }

  lemma ResyncedAt(s: State, t: State, id: Id)
    requires Keyed(t) && Later(s, t) && s.generation != t.generation
    ensures
      var next := Resynced(Live(s), s.generation, t);
      (id in next <==> id in Live(t)) && (id in next ==> next[id] == Live(t)[id])
  {
    hide Patched, Live, Delta, ArchivedSince;
    PatchedAt(Live(s), Delta(t, s.generation), id);
    LiveAt(s, id);
    LiveAt(t, id);
    DeltaAt(t, s.generation, id);
  }

  /** A cache exact at an earlier state becomes exact at the later one from the newer rows and archives alone. */
  lemma ResyncIsRebuild(s: State, t: State)
    requires Keyed(t) && Later(s, t)
    ensures Resynced(Live(s), s.generation, t) == Live(t)
  {
    if s.generation != t.generation {
      hide Resynced, Live, Keyed, Later;
      var next := Resynced(Live(s), s.generation, t);
      forall id ensures (id in next <==> id in Live(t)) && (id in next ==> next[id] == Live(t)[id]) {
        ResyncedAt(s, t, id);
      }
      assert next.Keys == Live(t).Keys;
    }
  }

  /** What one id's vector becomes. */
  lemma PatchedVectorAt(v: map<Id, Vector>, rows: Contents, restored: int, id: Id)
    ensures id in PatchedVectors(v, rows, restored) <==>
      if id in rows then Keeps(v, id, rows[id], restored) else id in v
    ensures id in PatchedVectors(v, rows, restored) ==>
      PatchedVectors(v, rows, restored)[id]
        == if id in rows && rows[id].generation > restored then rows[id].embedding.value else v[id]
  {
  }

  lemma VectorAt(c: Contents, id: Id)
    ensures id in VectorsOf(c) <==> id in c && c[id].embedding.Some?
    ensures id in VectorsOf(c) ==> VectorsOf(c)[id] == c[id].embedding.value
  {
  }

  lemma LiveAt(s: State, id: Id)
    ensures id in Live(s) <==> id in s.rows && s.rows[id].memory.status != Superseded
    ensures id in Live(s) ==> Live(s)[id] == s.rows[id]
  {
  }

  lemma DeltaAt(t: State, since: int, id: Id)
    ensures id in Delta(t, since) <==>
      id in t.rows && t.rows[id].generation > since && (since >= 0 || t.rows[id].memory.status != Superseded)
    ensures id in Delta(t, since) ==> Delta(t, since)[id] == t.rows[id]
    ensures id in ArchivedSince(t, since) <==> id in t.archives && t.archives[id].generation > since
  {
  }

  /** One id's vector after a resynchronisation. */
  lemma ResyncedVectorAt(s: State, t: State, id: Id)
    requires Keyed(t) && Later(s, t) && s.generation != t.generation
    ensures
      var next := ResyncedVectors(VectorsOf(Live(s)), s.generation, t, -1);
      (id in next <==> id in VectorsOf(Live(t))) && (id in next ==> next[id] == VectorsOf(Live(t))[id])
  {
    hide PatchedVectors, VectorsOf, Live, Delta, ArchivedSince;
    PatchedVectorAt(VectorsOf(Live(s)), Delta(t, s.generation), -1, id);
    VectorAt(Live(s), id);
    VectorAt(Live(t), id);
    LiveAt(s, id);
    LiveAt(t, id);
    DeltaAt(t, s.generation, id);
  }

  lemma ResyncVectorsIsRebuild(s: State, t: State)
    requires Keyed(t) && Later(s, t)
    ensures ResyncedVectors(VectorsOf(Live(s)), s.generation, t, -1) == VectorsOf(Live(t))
  {
    if s.generation != t.generation {
      hide ResyncedVectors, VectorsOf, Live, Keyed, Later;
      var next := ResyncedVectors(VectorsOf(Live(s)), s.generation, t, -1);
      forall id ensures (id in next <==> id in VectorsOf(Live(t)))
          && (id in next ==> next[id] == VectorsOf(Live(t))[id]) {
        ResyncedVectorAt(s, t, id);
      }
      assert next.Keys == VectorsOf(Live(t)).Keys;
    }
  }

  lemma FirstVectorAt(t: State, id: Id)
    requires Keyed(t)
    ensures
      var next := ResyncedVectors(map[], -1, t, -1);
      (id in next <==> id in VectorsOf(Live(t))) && (id in next ==> next[id] == VectorsOf(Live(t))[id])
  {
    hide PatchedVectors, VectorsOf, Live, Delta, ArchivedSince;
    PatchedVectorAt(map[], Delta(t, -1), -1, id);
    VectorAt(Live(t), id);
    LiveAt(t, id);
    DeltaAt(t, -1, id);
  }

  lemma FirstSyncIsRebuild(t: State)
    requires Keyed(t)
    ensures Resynced(map[], -1, t) == Live(t)
    ensures ResyncedVectors(map[], -1, t, -1) == VectorsOf(Live(t))
  {
    FirstContents(t);
    hide ResyncedVectors, VectorsOf, Live, Keyed, Resynced;
    var next := ResyncedVectors(map[], -1, t, -1);
    forall id ensures (id in next <==> id in VectorsOf(Live(t)))
        && (id in next ==> next[id] == VectorsOf(Live(t))[id]) {
      FirstVectorAt(t, id);
    }
    assert next.Keys == VectorsOf(Live(t)).Keys;
  }

  lemma FirstContents(t: State)
    requires Keyed(t)
    ensures Resynced(map[], -1, t) == Live(t)
  {
  }

  /** Restore and replay: vectors saved at an earlier state, patched by newer rows and pruned to the live records, are
      the vectors of a rebuild. */
  lemma RestoreReplayIsRebuild(s: State, t: State)
    requires Keyed(t) && Later(s, t)
    ensures
      var replayed := ResyncedVectors(VectorsOf(Live(s)), -1, t, s.generation);
      (map id | id in replayed && id in Live(t) :: replayed[id]) == VectorsOf(Live(t))
  {
    hide ResyncedVectors, VectorsOf, Live, Keyed, Later;
    var replayed := ResyncedVectors(VectorsOf(Live(s)), -1, t, s.generation);
    forall id | id in Live(t)
      ensures id in replayed <==> id in VectorsOf(Live(t))
      ensures id in replayed ==> replayed[id] == VectorsOf(Live(t))[id]
    {
      ReplayedAt(s, t, id);
    }
    forall id | id in VectorsOf(Live(t)) ensures id in Live(t) { VectorAt(Live(t), id); }
  }

  lemma ReplayedAt(s: State, t: State, id: Id)
    requires Keyed(t) && Later(s, t) && id in Live(t)
    ensures
      var replayed := ResyncedVectors(VectorsOf(Live(s)), -1, t, s.generation);
      (id in replayed <==> id in VectorsOf(Live(t))) && (id in replayed ==> replayed[id] == VectorsOf(Live(t))[id])
  {
    hide PatchedVectors, VectorsOf, Live, Delta, ArchivedSince;
    PatchedVectorAt(VectorsOf(Live(s)), Delta(t, -1), s.generation, id);
    VectorAt(Live(s), id);
    VectorAt(Live(t), id);
    LiveAt(s, id);
    LiveAt(t, id);
    DeltaAt(t, -1, id);
  }

  /** The rows at hand are those the cache was synchronised with. */
  ghost predicate Backs(rows: Contents, c: Contents) {
    forall id :: id in c ==> id in rows && rows[id] == c[id]
  }

  predicate InScope(m: Memory, project: Option<string>) {
    ProjectOf(m.scope) == None || ProjectOf(m.scope) == project
  }

  /** The registry's own definitions of the two read-only fields. */
  predicate SystemFields(reg: Registry) {
    && "kind" in reg.fields && reg.fields["kind"].kind == Keyword && reg.fields["kind"].readOnly
    && "status" in reg.fields && reg.fields["status"].kind == Keyword && reg.fields["status"].readOnly
  }

  lemma ContentsAreTyped(reg: Registry, c: Contents)
    requires SystemFields(reg) && forall id :: id in c ==> Normal(reg.fields, c[id].memory)
    ensures Metadata.WellTyped(reg, DataOf(c))
  {
    var data := DataOf(c);
    forall u, f | u in data && f in data[u] && f in reg.fields ensures TypeOk(reg.fields[f].kind, data[u][f]) {
      if f in c[u].memory.metadata { assert NormalEntry(reg.fields, f, c[u].memory.metadata[f]); }
    }
  }

  /** What a cache serves is what the operations read: every row that is not superseded, active or disputed. */
  lemma ServedMeaning(s: State, id: Id)
    ensures id in Live(s) <==> id in Visible(s)
    ensures id in Live(s)
      <==> id in s.rows && (s.rows[id].memory.status == Active || s.rows[id].memory.status == Disputed)
    ensures id in Live(s) ==> Live(s)[id] == s.rows[id] && Visible(s)[id] == s.rows[id].memory
  {
  }

  /** The index of equivalents finds exactly the active records that say the same. */
  lemma EquivalentsMeaning(cache: OwnerCache, m: Memory, id: Id)
    requires cache.Valid() && m.status == Active
    ensures id in At(cache.equivalents, FingerprintOf(m))
      <==> id in cache.contents && SaysTheSame(cache.contents[id].memory, m)
  {
    hide OwnerCache.Valid;
    FiledAt(cache);
    var h, f := cache.headers, FingerprintOf(m);
    assert id in Per(h, ActiveContent) <==> id in cache.contents;
    if id in cache.contents { EquivalentMeaning(cache.contents[id].memory, m); }
  }

  lemma FiledAt(cache: OwnerCache)
    requires cache.Valid()
    ensures cache.headers == HeadersOf(cache.tokens, cache.contents)
    ensures Inverse(cache.equivalents, Per(cache.headers, ActiveContent))
      && Inverse(cache.lexical, Per(cache.headers, Words))
    ensures Inverse(cache.byStatus, Per(cache.headers, OfStatus))
      && Inverse(cache.byProject, Per(cache.headers, OfProject))
  {
    hide Metadata.MetadataIndex.Valid, Residency.Payloads.Valid, DataOf, PreferenceFieldsOf, UnconditionalOf, Inverse;
  }

  /** The lexical index finds the records with a word in their summary. */
  lemma WordsMeaning(cache: OwnerCache, word: string, id: Id)
    requires cache.Valid()
    ensures id in At(cache.lexical, word)
      <==> id in cache.contents && word in cache.tokens(cache.contents[id].memory.summary)
  {
    hide OwnerCache.Valid;
    FiledAt(cache);
    assert id in Per(cache.headers, Words) <==> id in cache.contents;
  }

  /** The status and project indexes find the records of a status and of a project or the user's own. */
  lemma ScopesMeaning(cache: OwnerCache, status: Status, project: Option<string>, id: Id)
    requires cache.Valid()
    ensures id in At(cache.byStatus, status) <==> id in cache.contents && cache.contents[id].memory.status == status
    ensures id in At(cache.byProject, project) <==>
      && id in cache.contents
      && cache.contents[id].memory.scope == (if project.Some? then ProjectScope(project.value) else UserScope)
  {
    hide OwnerCache.Valid;
    FiledAt(cache);
    assert id in Per(cache.headers, OfStatus) <==> id in cache.contents;
    assert id in Per(cache.headers, OfProject) <==> id in cache.contents;
  }

  /** The records a filter selects among these. */
  ghost function Selected(reg: Registry, q: Metadata.Filter, c: Contents, ids: set<Id>): set<Id>
    requires ids <= c.Keys
  {
    set id | id in ids && Metadata.Holds(reg, q, MetadataOf(c[id].memory))
  }

  /** In the user's own scope, or in the project asked for. */
  lemma ScopeMeaning(m: Memory, project: Option<string>)
    ensures InScope(m, project) <==> m.scope == UserScope || (project.Some? && m.scope == ProjectScope(project.value))
  {
  }

  /** Filtering by kind selects exactly the records of that kind; any other value selects none. */
  lemma KindsSelect(reg: Registry, c: Contents, ids: set<Id>, name: string)
    requires Built(reg) && SystemFields(reg) && ids <= c.Keys
    ensures Metadata.CheckFilter(reg, Metadata.Eq("kind", Text(name)), 0)
    ensures forall id :: id in Selected(reg, Metadata.Eq("kind", Text(name)), c, ids) <==>
      && id in ids
      && var content := c[id].memory.content;
      || (name == "preference" && content.Preference?) || (name == "decision" && content.Decided?)
      || (name == "observation" && content.Observed?) || (name == "procedure" && content.Procedure?)
  {
    assert NameOf(reg, "kind") == "kind";
    assert |"preference"| == 10 && |"decision"| == 8 && |"observation"| == 11 && |"procedure"| == 9;
  }

  /** Filtering by status selects exactly the records of that status; any other value selects none. */
  lemma StatusesSelect(reg: Registry, c: Contents, ids: set<Id>, name: string)
    requires Built(reg) && SystemFields(reg) && ids <= c.Keys
    ensures Metadata.CheckFilter(reg, Metadata.Eq("status", Text(name)), 0)
    ensures forall id :: id in Selected(reg, Metadata.Eq("status", Text(name)), c, ids) <==>
      && id in ids
      && var status := c[id].memory.status;
      || (name == "active" && status == Active) || (name == "superseded" && status == Superseded)
      || (name == "disputed" && status == Disputed)
  {
    assert NameOf(reg, "status") == "status";
    assert |"active"| == 6 && |"superseded"| == 10 && |"disputed"| == 8;
  }

  /** Any other field is read from the record's own metadata. */
  lemma OtherFieldsSelect(reg: Registry, q: Metadata.Filter, c: Contents, ids: set<Id>)
    requires Built(reg) && ids <= c.Keys && !q.AllOf? && !q.AnyOf?
    requires NameOf(reg, q.field) != "kind" && NameOf(reg, q.field) != "status"
    ensures forall id :: id in Selected(reg, q, c, ids) <==> id in ids && Metadata.Holds(reg, q, c[id].memory.metadata)
  {
  }

  lemma MatchingIsHolding(reg: Registry, q: Metadata.Filter, c: Contents, ids: set<Id>)
    requires ids <= c.Keys
    ensures Metadata.Matching(reg, q, DataOf(c), ids) == Selected(reg, q, c, ids)
  {
    forall id | id in ids ensures Metadata.DataOf(DataOf(c), id) == MetadataOf(c[id].memory) { }
  }

  lemma ByHeader(h: map<Id, Header>, byStatus: map<Status, set<Id>>, byProject: map<Option<string>, set<Id>>)
    requires Inverse(byStatus, Per(h, OfStatus)) && Inverse(byProject, Per(h, OfProject))
    ensures forall s, id :: id in At(byStatus, s) <==> id in h && h[id].status == s
    ensures forall p, id :: id in At(byProject, p) <==> id in h && h[id].project == p
  {
  }

  lemma HeadersAgree(tokens: Tokens, c: Contents)
    ensures HeadersOf(tokens, c).Keys == c.Keys
    ensures forall id :: id in c ==> HeadersOf(tokens, c)[id].status == c[id].memory.status
    ensures forall id :: id in c ==> HeadersOf(tokens, c)[id].project == ProjectOf(c[id].memory.scope)
    ensures forall id :: id in c ==> HeadersOf(tokens, c)[id].words == tokens(c[id].memory.summary)
  {
  }

  // ---------- preferences that apply ----------

  predicate MeetsField(m: Memory, field: string, actual: Value) {
    && m.content.Preference? && field in m.content.applicability
    && exists v :: v in m.content.applicability[field] && v in ItemsOf(actual)
  }

  /** The naive scan's test: every field of the condition is present with one of its alternatives. */
  predicate Applies(m: Memory, attributes: map<string, Value>) {
    m.content.Preference?
      && forall f :: f in m.content.applicability ==> f in attributes && MeetsField(m, f, attributes[f])
  }

  /** A preference applies when each field of its condition is present with one of the alternatives, as its value or
      among its values; one without conditions always does. */
  lemma AppliesMeaning(m: Memory, attributes: map<string, Value>)
    ensures Applies(m, attributes) <==>
      && m.content.Preference?
      && forall f :: f in m.content.applicability ==>
           && f in attributes
           && exists i :: 0 <= i < |m.content.applicability[f]| &&
                match attributes[f]
                case One(item) => m.content.applicability[f][i] == item
                case Many(items) => m.content.applicability[f][i].Text? && m.content.applicability[f][i].text in items
  {
    if m.content.Preference? {
      forall f | f in m.content.applicability && f in attributes
        ensures MeetsField(m, f, attributes[f]) <==>
          exists i :: 0 <= i < |m.content.applicability[f]| && m.content.applicability[f][i] in ItemsOf(attributes[f])
      {
      }
    }
  }

  ghost function FieldsMet(m: Memory, attributes: map<string, Value>, done: set<string>): set<string>
    requires done <= attributes.Keys
  {
    set f | f in done && MeetsField(m, f, attributes[f])
  }

  ghost predicate CountedFor(c: Contents, attributes: map<string, Value>, done: set<string>, counts: map<Id, nat>)
    requires done <= attributes.Keys
  {
    && (forall id :: id in counts <==> id in c && FieldsMet(c[id].memory, attributes, done) != {})
    && (forall id :: id in counts ==> counts[id] == |FieldsMet(c[id].memory, attributes, done)|)
  }

  lemma NothingCounted(c: Contents, attributes: map<string, Value>)
    ensures CountedFor(c, attributes, attributes.Keys - attributes.Keys, map[])
  {
    forall id | id in c ensures FieldsMet(c[id].memory, attributes, attributes.Keys - attributes.Keys) == {} { }
  }

  lemma CountOneMore(c: Contents, attributes: map<string, Value>, done: set<string>, counts: map<Id, nat>,
                     field: string, matches: set<Id>)
    requires done <= attributes.Keys && CountedFor(c, attributes, done, counts) && field in attributes && field !in done
    requires matches == set id | id in c && MeetsField(c[id].memory, field, attributes[field])
    ensures CountedFor(c, attributes, done + {field},
      map id | id in counts.Keys + matches ::
        (if id in counts then counts[id] else 0) + (if id in matches then 1 else 0))
  {
    hide MeetsField, FieldsMet;
    forall id | id in c
      ensures
        var before, after := FieldsMet(c[id].memory, attributes, done),
          FieldsMet(c[id].memory, attributes, done + {field});
        |after| == |before| + (if id in matches then 1 else 0) && (after != {} <==> before != {} || id in matches)
    {
      OneMoreField(c[id].memory, attributes, done, field);
    }
  }

  lemma OneMoreField(m: Memory, attributes: map<string, Value>, done: set<string>, field: string)
    requires done <= attributes.Keys && field in attributes && field !in done
    ensures
      var before, after := FieldsMet(m, attributes, done), FieldsMet(m, attributes, done + {field});
      if MeetsField(m, field, attributes[field]) then |after| == |before| + 1 && after != {} else after == before
  {
    hide MeetsField;
    var before, after := FieldsMet(m, attributes, done), FieldsMet(m, attributes, done + {field});
    assert after == if MeetsField(m, field, attributes[field]) then before + {field} else before;
    assert field !in before;
  }

  lemma CountedArePreferences(c: Contents, attributes: map<string, Value>, counts: map<Id, nat>)
    requires CountedFor(c, attributes, attributes.Keys, counts)
    ensures forall id :: id in counts ==> id in PreferenceFieldsOf(c)
  {
    forall id | id in counts ensures c[id].memory.content.Preference? {
      var f :| f in FieldsMet(c[id].memory, attributes, attributes.Keys);
    }
  }

  /** As many fields met as the condition has means all of them are met. */
  lemma CountDecides(m: Memory, attributes: map<string, Value>)
    requires m.content.Preference?
    ensures |FieldsMet(m, attributes, attributes.Keys)| == |m.content.applicability| <==> Applies(m, attributes)
  {
    hide MeetsField;
    var met, all := FieldsMet(m, attributes, attributes.Keys), m.content.applicability.Keys;
    forall f | f in met ensures f in all { MetIsRequired(m, f, attributes[f]); }
    if |met| == |all| {
      SubsetSize(met, all);
    }
    if Applies(m, attributes) {
      assert met == all;
    }
  }

  lemma MetIsRequired(m: Memory, f: string, actual: Value)
    requires MeetsField(m, f, actual)
    ensures f in m.content.applicability
  {
  }

  lemma CountsDecide(c: Contents, attributes: map<string, Value>, counts: map<Id, nat>)
    requires CountedFor(c, attributes, attributes.Keys, counts)
    requires forall id :: id in counts ==> id in PreferenceFieldsOf(c)
    ensures UnconditionalOf(c) + (set id | id in counts && counts[id] == PreferenceFieldsOf(c)[id])
         == set id | id in c && Applies(c[id].memory, attributes)
  {
    hide MeetsField, Applies;
    forall id | id in c && c[id].memory.content.Preference?
      ensures Applies(c[id].memory, attributes)
        <==> |FieldsMet(c[id].memory, attributes, attributes.Keys)| == |c[id].memory.content.applicability|
    {
      CountDecides(c[id].memory, attributes);
    }
    forall id | id in c && Applies(c[id].memory, attributes) ensures c[id].memory.content.Preference? {
      ApplyingIsPreference(c[id].memory, attributes);
    }
    forall id | id in c && c[id].memory.content.Preference?
      ensures id in UnconditionalOf(c) || (id in counts && counts[id] == PreferenceFieldsOf(c)[id])
        <==> Applies(c[id].memory, attributes)
    {
      if |c[id].memory.content.applicability| == 0 { NothingRequired(c[id].memory, attributes); }
    }
  }

  lemma ApplyingIsPreference(m: Memory, attributes: map<string, Value>)
    requires Applies(m, attributes)
    ensures m.content.Preference?
  {
  }

  lemma NothingRequired(m: Memory, attributes: map<string, Value>)
    requires m.content.Preference? && |m.content.applicability| == 0
    ensures m.content.applicability == map[] && Applies(m, attributes)
  {
  }

  lemma TermsMeetField(tokens: Tokens, c: Contents, terms: map<Metadata.Term, set<Id>>, field: string, actual: Value)
    requires Served(c) && Inverse(terms, Per(HeadersOf(tokens, c), Conditions))
    ensures (set v, id | v in ItemsOf(actual) && id in At(terms, Metadata.Term(field, v)) :: id)
         == set id | id in c && MeetsField(c[id].memory, field, actual)
  {
    hide Inverse, ItemsOf, MeetsField, HasAlternative, Per, HeaderOf, Conditions;
    var h := HeadersOf(tokens, c);
    forall v, id
      ensures id in At(terms, Metadata.Term(field, v)) <==> id in c && HasAlternative(c[id].memory, field, v)
    {
      PostedIff(tokens, c, terms, field, v, id);
    }
    forall id | id in c
        ensures MeetsField(c[id].memory, field, actual)
        <==> exists v :: v in ItemsOf(actual) && HasAlternative(c[id].memory, field, v) {
      MeetsIff(c[id].memory, field, actual);
    }
    var found := set v, id | v in ItemsOf(actual) && id in At(terms, Metadata.Term(field, v)) :: id;
    forall id | id in c && MeetsField(c[id].memory, field, actual) ensures id in found {
      var v :| v in ItemsOf(actual) && HasAlternative(c[id].memory, field, v);
      assert id in At(terms, Metadata.Term(field, v));
    }
    forall id | id in found ensures id in c && MeetsField(c[id].memory, field, actual) { }
  }

  lemma MeetsIff(m: Memory, field: string, actual: Value)
    ensures MeetsField(m, field, actual) <==> exists v :: v in ItemsOf(actual) && HasAlternative(m, field, v)
  {
  }

  lemma PostedIff(tokens: Tokens, c: Contents, terms: map<Metadata.Term, set<Id>>, field: string, v: Scalar, id: Id)
    requires Served(c) && Inverse(terms, Per(HeadersOf(tokens, c), Conditions))
    ensures id in At(terms, Metadata.Term(field, v)) <==> id in c && HasAlternative(c[id].memory, field, v)
  {
    hide Inverse, HasAlternative, HeaderOf, Conditions;
    PostedAt(terms, Per(HeadersOf(tokens, c), Conditions), Metadata.Term(field, v), id);
    if id in c { AlternativePosted(tokens, c[id].memory, field, v); }
  }

  predicate HasAlternative(m: Memory, field: string, v: Scalar) {
    m.content.Preference? && field in m.content.applicability && v in m.content.applicability[field]
  }

  lemma PostedAt<K(!new)>(index: map<K, set<Id>>, keysOf: map<Id, set<K>>, k: K, id: Id)
    requires Inverse(index, keysOf)
    ensures id in At(index, k) <==> id in keysOf && k in keysOf[id]
  {
  }

  lemma AlternativePosted(tokens: Tokens, m: Memory, field: string, v: Scalar)
    requires m.status != Superseded
    ensures Metadata.Term(field, v) in Conditions(HeaderOf(tokens, m)) <==> HasAlternative(m, field, v)
  {
  }

  /** Where a cache stands before it synchronises: new, exact for an earlier state, or new with the vectors saved at
      an earlier state. */
  datatype Origin = Empty | Exactly(state: State) | Saved(state: State)

  ghost predicate Reaches(origin: Origin, t: State) {
    origin.Empty? || Later(origin.state, t)
  }

  ghost function ContentsAt(origin: Origin): Contents { if origin.Exactly? then Live(origin.state) else map[] }

  ghost function VectorsAt(origin: Origin): map<Id, Vector> {
    if origin.Empty? then map[] else VectorsOf(Live(origin.state))
  }

  function GenerationAt(origin: Origin): int { if origin.Exactly? then origin.state.generation else -1 }

  function RestoredAt(origin: Origin): int { if origin.Saved? then origin.state.generation else -1 }

  lemma OriginRebuilds(origin: Origin, t: State)
    requires Keyed(t) && Reaches(origin, t)
    ensures Resynced(ContentsAt(origin), GenerationAt(origin), t) == Live(t)
    ensures
      var replayed := ResyncedVectors(VectorsAt(origin), GenerationAt(origin), t, RestoredAt(origin));
      if origin.Saved? then (map id | id in replayed && id in Live(t) :: replayed[id]) == VectorsOf(Live(t))
      else replayed == VectorsOf(Live(t))
  {
    hide Resynced, ResyncedVectors, Later, Live, VectorsOf, Keyed;
    FirstSyncIsRebuild(t);
    match origin
    case Empty =>
    case Exactly(s) => ResyncIsRebuild(s, t); ResyncVectorsIsRebuild(s, t);
    case Saved(s) => RestoreReplayIsRebuild(s, t);
  }

  class OwnerCache {
    const tokens: Tokens
    const memories: Residency.Payloads
    const metadata: Metadata.MetadataIndex
    var generation: int
    var restoredGeneration: int
    var headers: map<Id, Header>
    var vectors: map<Id, Vector>
    var lexical: map<string, set<Id>>
    var byKind: map<Kind, set<Id>>
    var byStatus: map<Status, set<Id>>
    var byProject: map<Option<string>, set<Id>>
    var equivalents: map<Fingerprint, set<Id>>
    var preferenceTerms: map<Metadata.Term, set<Id>>
    var preferenceFields: map<Id, nat>
    var unconditional: set<Id>
    ghost var contents: Contents

    /** All six posting maps are exact for the headers. */
    ghost predicate Filed()
      reads this`headers, this`lexical, this`byKind, this`byStatus, this`byProject, this`equivalents,
          this`preferenceTerms
    {
      && Exact(lexical, Per(headers, Words))
      && Inverse(byKind, Per(headers, OfKind))
      && Inverse(byStatus, Per(headers, OfStatus))
      && Inverse(byProject, Per(headers, OfProject))
      && Exact(equivalents, Per(headers, ActiveContent))
      && Exact(preferenceTerms, Per(headers, Conditions))
    }

    /** Headers, posting maps and preference tables are what the contents determine. */
    ghost predicate Indexed()
      reads this`headers, this`lexical, this`byKind, this`byStatus, this`byProject, this`equivalents,
          this`preferenceTerms, this`preferenceFields, this`unconditional, this`contents
    {
      && Served(contents)
      && headers == HeadersOf(tokens, contents)
      && Filed()
      && preferenceFields == PreferenceFieldsOf(contents) && unconditional == UnconditionalOf(contents)
    }

    /** Everything but the vectors is what the contents determine. */
    ghost predicate Valid()
      reads this, memories, metadata
    {
      && Indexed()
      && metadata.Valid() && metadata.values == DataOf(contents)
      && memories.Valid() && memories.ids == contents.Keys && memories.Mirrors(contents)
    }

    /** Exact for the committed state `s`. */
    ghost predicate Synced(s: State)
      reads this
    {
      contents == Live(s) && vectors == VectorsOf(Live(s)) && generation == s.generation && restoredGeneration == -1
    }

    ghost predicate StartsFrom(origin: Origin)
      reads this
    {
      match origin
      case Empty => contents == map[] && vectors == map[] && generation == -1 && restoredGeneration == -1
      case Exactly(s) => Synced(s)
      case Saved(s) =>
        contents == map[] && vectors == VectorsOf(Live(s)) && generation == -1 && restoredGeneration == s.generation
    }

    constructor (tokens: Tokens, capacity: nat)
      ensures Valid() && this.tokens == tokens && fresh(memories) && fresh(metadata)
      ensures memories.capacity == capacity
      ensures contents == map[] && vectors == map[] && generation == -1 && restoredGeneration == -1
    {
      this.tokens := tokens;
      memories := new Residency.Payloads(capacity);
      metadata := new Metadata.MetadataIndex();
      generation, restoredGeneration := -1, -1;
      headers, vectors, lexical, byKind, byStatus, byProject := map[], map[], map[], map[], map[], map[];
      equivalents, preferenceTerms, preferenceFields, unconditional := map[], map[], map[], {};
      contents := map[];
    }

    /** The `if previous` block of `discard`. */
    method Unfile(uid: Id)
      requires uid in headers && Filed()
      modifies this`headers, this`lexical, this`byKind, this`byStatus, this`byProject, this`equivalents,
          this`preferenceTerms, this`preferenceFields, this`unconditional
      ensures Filed() && headers == old(headers) - {uid}
      ensures preferenceFields == old(preferenceFields) - {uid} && unconditional == old(unconditional) - {uid}
    {
      hide Inverse, Per, NoEmpty, At;
      ghost var h := headers;
      var previous := headers[uid];
      headers := headers - {uid};
      ghost var equivalents0, lexical0, terms0 := equivalents, lexical, preferenceTerms;
      equivalents := Drop(equivalents, previous.equivalent, uid);
      lexical := DropAll(lexical, previous.words, uid);
      UnfileScopes(h, uid, previous);
      preferenceFields := preferenceFields - {uid};
      unconditional := unconditional - {uid};
      preferenceTerms := DropAll(preferenceTerms, previous.terms, uid);
      DroppedFrom(equivalents0, equivalents, h, ActiveContent, uid, {previous.equivalent});
      DroppedFrom(lexical0, lexical, h, Words, uid, previous.words);
      DroppedFrom(terms0, preferenceTerms, h, Conditions, uid, previous.terms);
    }

    method UnfileScopes(ghost h: map<Id, Header>, uid: Id, previous: Header)
      requires uid in h && h[uid] == previous
      requires Inverse(byKind, Per(h, OfKind)) && Inverse(byStatus, Per(h, OfStatus))
        && Inverse(byProject, Per(h, OfProject))
      modifies this`byKind, this`byStatus, this`byProject
      ensures
        var after := h - {uid};
        Inverse(byKind, Per(after, OfKind)) && Inverse(byStatus, Per(after, OfStatus))
          && Inverse(byProject, Per(after, OfProject))
    {
      hide Inverse, Per, NoEmpty, At;
      ghost var byKind0, byStatus0, byProject0 := byKind, byStatus, byProject;
      byKind := Discard(byKind, previous.kind, uid);
      byStatus := Discard(byStatus, previous.status, uid);
      byProject := Discard(byProject, previous.project, uid);
      DroppedFrom(byKind0, byKind, h, OfKind, uid, {previous.kind});
      DroppedFrom(byStatus0, byStatus, h, OfStatus, uid, {previous.status});
      DroppedFrom(byProject0, byProject, h, OfProject, uid, {previous.project});
    }

    /** The posting part of `discard`, whether or not the record is held. */
    method UnfileRow(uid: Id)
      requires Indexed()
      modifies this`headers, this`lexical, this`byKind, this`byStatus, this`byProject, this`equivalents,
          this`preferenceTerms, this`preferenceFields, this`unconditional, this`contents
      ensures Indexed() && contents == old(contents) - {uid}
    {
      hide Exact, Inverse, Per, HeaderOf, HeadersOf, PreferenceFieldsOf, UnconditionalOf, Filed, Served, DataOf,
          MetadataOf;
      ContentsWithout(tokens, contents, uid);
      ServedWithout(contents, uid);
      SameIds(tokens, contents);
      if uid in headers { Unfile(uid); } else { NotThere(contents, uid); }
      contents := contents - {uid};
    }

    /** `discard`. */
    method DiscardRecord(uid: Id)
      requires Valid()
      modifies this, memories, metadata
      ensures Valid() && contents == old(contents) - {uid} && vectors == old(vectors) - {uid}
      ensures generation == old(generation) && restoredGeneration == old(restoredGeneration)
    {
      hide Indexed, HeaderOf, HeadersOf, MetadataOf, Distinct, DataOf, Metadata.MetadataIndex.Valid,
          Residency.Payloads.Valid;
      hide Residency.Without, Residency.Mirrored;
      ContentsWithout(tokens, contents, uid);
      Residency.MirroredWithout(memories.resident, contents, uid);
      Residency.MirroredUnless(memories.resident, contents, uid);
      UnfileRow(uid);
      metadata.Remove(uid);
      if uid in memories.ids { memories.Delete(uid); }
      vectors := vectors - {uid};
    }

    /** The indexing of one record the cache does not hold yet. */
    method File(uid: Id, memory: Memory)
      requires Filed() && uid !in headers
      modifies this`headers, this`lexical, this`byKind, this`byStatus, this`byProject, this`equivalents,
          this`preferenceTerms, this`preferenceFields, this`unconditional
      ensures Filed() && headers == old(headers)[uid := HeaderOf(tokens, memory)]
      ensures preferenceFields ==
        if memory.content.Preference? && memory.status != Superseded
            then old(preferenceFields)[uid := |memory.content.applicability|] else old(preferenceFields)
      ensures unconditional ==
        if memory.content.Preference? && memory.status != Superseded && memory.content.applicability == map[]
            then old(unconditional) + {uid} else old(unconditional)
    {
      hide Inverse, Per, NoEmpty, At, ConditionTerms, FingerprintOf;
      ghost var h := headers;
      var header := HeaderOf(tokens, memory);
      ghost var lexical0 := lexical;
      headers := headers[uid := header];
      IndexContent(h, uid, memory);
      FileScopes(h, uid, header);
      lexical := AddAll(lexical, header.words, uid);
      AddedTo(lexical0, lexical, h, Words, uid, header);
    }

    /** The three `by_` sets. */
    method FileScopes(ghost h: map<Id, Header>, uid: Id, header: Header)
      requires uid !in h && Inverse(byKind, Per(h, OfKind)) && Inverse(byStatus, Per(h, OfStatus))
        && Inverse(byProject, Per(h, OfProject))
      modifies this`byKind, this`byStatus, this`byProject
      ensures
        var after := h[uid := header];
        Inverse(byKind, Per(after, OfKind)) && Inverse(byStatus, Per(after, OfStatus))
          && Inverse(byProject, Per(after, OfProject))
    {
      hide Inverse, Per, NoEmpty, At;
      ghost var byKind0, byStatus0, byProject0 := byKind, byStatus, byProject;
      byKind := Add(byKind, header.kind, uid);
      byStatus := Add(byStatus, header.status, uid);
      byProject := Add(byProject, header.project, uid);
      AddedTo(byKind0, byKind, h, OfKind, uid, header);
      AddedTo(byStatus0, byStatus, h, OfStatus, uid, header);
      AddedTo(byProject0, byProject, h, OfProject, uid, header);
    }

    /** `_index_content`; `h` are the headers before this record's was added. */
    method IndexContent(ghost h: map<Id, Header>, uid: Id, memory: Memory)
      requires Exact(equivalents, Per(h, ActiveContent)) && Exact(preferenceTerms, Per(h, Conditions)) && uid !in h
      modifies this`equivalents, this`preferenceTerms, this`preferenceFields, this`unconditional
      ensures Exact(equivalents, Per(h[uid := HeaderOf(tokens, memory)], ActiveContent))
      ensures Exact(preferenceTerms, Per(h[uid := HeaderOf(tokens, memory)], Conditions))
      ensures preferenceFields ==
        if memory.content.Preference? && memory.status != Superseded
            then old(preferenceFields)[uid := |memory.content.applicability|] else old(preferenceFields)
      ensures unconditional ==
        if memory.content.Preference? && memory.status != Superseded && memory.content.applicability == map[]
            then old(unconditional) + {uid} else old(unconditional)
    {
      hide Inverse, Per, NoEmpty, At;
      ghost var header := HeaderOf(tokens, memory);
      ghost var equivalents0, terms0 := equivalents, preferenceTerms;
      if memory.status == Active { equivalents := Add(equivalents, FingerprintOf(memory), uid); }
      AddedTo(equivalents0, equivalents, h, ActiveContent, uid, header);
      if memory.content.Preference? && memory.status != Superseded {
        preferenceFields := preferenceFields[uid := |memory.content.applicability|];
        if memory.content.applicability == map[] { unconditional := unconditional + {uid}; }
        preferenceTerms := AddAll(preferenceTerms, ConditionTerms(memory.content), uid);
      }
      AddedTo(terms0, preferenceTerms, h, Conditions, uid, header);
    }

    /** Index a record the cache does not hold, and count it among the contents. */
    method FileRow(uid: Id, row: Row)
      requires Indexed() && uid !in contents && row.memory.id == uid && row.memory.status != Superseded
      modifies this`headers, this`lexical, this`byKind, this`byStatus, this`byProject, this`equivalents,
          this`preferenceTerms, this`preferenceFields, this`unconditional, this`contents
      ensures Indexed() && contents == old(contents)[uid := row]
    {
      hide Exact, Inverse, Per, HeaderOf, HeadersOf, PreferenceFieldsOf, UnconditionalOf, Filed, Served, DataOf,
          MetadataOf;
      SameIds(tokens, contents);
      ContentsWith(tokens, contents, uid, row);
      PreferencesWith(contents, uid, row);
      ServedWith(contents, uid, row);
      File(uid, row.memory);
      contents := contents[uid := row];
    }

    /** The tail of the loop body in `update_rows`. */
    method Insert(uid: Id, row: Row)
      requires Valid() && uid !in contents && row.memory.id == uid && row.memory.status != Superseded
      modifies this, memories, metadata
      ensures Valid() && contents == old(contents)[uid := row]
      ensures vectors == PatchedVectors(old(vectors), map[uid := row], restoredGeneration)
      ensures generation == old(generation) && restoredGeneration == old(restoredGeneration)
    {
      hide Indexed, HeaderOf, HeadersOf, MetadataOf, Distinct, DataOf, Metadata.MetadataIndex.Valid,
          Residency.Payloads.Valid;
      hide PatchedVectors, Residency.Without, Residency.Mirrored;
      ContentsWith(tokens, contents, uid, row);
      Residency.MirroredWith(memories.resident, contents, uid, row);
      memories.Set(uid);
      metadata.Upsert(uid, MetadataOf(row.memory));
      SetVector(uid, row);
      FileRow(uid, row);
    }

    method SetVector(uid: Id, row: Row)
      requires row.memory.status != Superseded
      modifies this`vectors
      ensures vectors == PatchedVectors(old(vectors), map[uid := row], restoredGeneration)
    {
      hide PatchedVectors;
      PatchedVectorOnce(vectors, uid, row, restoredGeneration);
      if row.embedding.Some? && row.generation > restoredGeneration {
        vectors := vectors[uid := row.embedding.value];
      } else if row.embedding.None? {
        vectors := vectors - {uid};
      }
    }

    /** The body of the loop in `update_rows`. */
    method UpdateRow(uid: Id, row: Row)
      requires Valid() && row.memory.id == uid && (uid in contents ==> row.generation > restoredGeneration)
      modifies this, memories, metadata
      ensures Valid()
      ensures contents == Patched(old(contents), map[uid := row])
      ensures vectors == PatchedVectors(old(vectors), map[uid := row], restoredGeneration)
      ensures generation == old(generation) && restoredGeneration == old(restoredGeneration)
    {
      hide Exact, Inverse, Per, HeaderOf, MetadataOf, Distinct, HeadersOf, DataOf, PreferenceFieldsOf, UnconditionalOf;
      hide Metadata.MetadataIndex.Valid, Residency.Payloads.Valid, Filed, Patched, PatchedVectors, Served;
      SameIds(tokens, contents);
      NotThere(contents, uid);
      PatchedOnce(contents, uid, row);
      DiscardedThenPatched(vectors, uid, row, restoredGeneration);
      if uid in headers { DiscardRecord(uid); }
      if row.memory.status == Superseded {
        Leave(uid);
      } else {
        Insert(uid, row);
      }
    }

    method UpdateRows(rows: Contents)
      requires Valid()
        && forall id ::
        id in rows ==> rows[id].memory.id == id && (id in contents ==> rows[id].generation > restoredGeneration)
      modifies this, memories, metadata
      ensures Valid()
      ensures contents == Patched(old(contents), rows)
      ensures vectors == PatchedVectors(old(vectors), rows, restoredGeneration)
      ensures generation == old(generation) && restoredGeneration == old(restoredGeneration)
    {
      hide Indexed, DataOf, Residency.Mirrored, Metadata.MetadataIndex.Valid, Residency.Payloads.Valid, Patched,
           PatchedVectors, Only;
      ghost var contents0, vectors0 := contents, vectors;
      OnlyNone(contents0, vectors0, rows, restoredGeneration);
      var rest := rows.Keys;
      while rest != {}
        invariant rest <= rows.Keys && Valid()
        invariant contents == Patched(contents0, Only(rows, rows.Keys - rest))
        invariant vectors == PatchedVectors(vectors0, Only(rows, rows.Keys - rest), restoredGeneration)
        invariant generation == old(generation) && restoredGeneration == old(restoredGeneration)
        decreases rest
      {
        var uid :| uid in rest;
        ghost var done := rows.Keys - rest;
        StillThere(contents0, rows, done, uid);
        PatchOneMore(contents0, rows, done, uid);
        PatchVectorOneMore(vectors0, rows, done, uid, restoredGeneration);
        UpdateRow(uid, rows[uid]);
        rest := rest - {uid};
        assert rows.Keys - rest == done + {uid};
      }
      assert rows.Keys - rest == rows.Keys;
      OnlyNone(contents0, vectors0, rows, restoredGeneration);
    }

    /** `sync`: rows and archives newer than the cache, read in the transaction at hand. */
    method Sync(t: State)
      requires Valid() && Keyed(t) && (restoredGeneration <= generation || contents == map[])
      modifies this, memories, metadata
      ensures Valid() && generation == t.generation && restoredGeneration == old(restoredGeneration)
      ensures contents == Resynced(old(contents), old(generation), t)
      ensures vectors == ResyncedVectors(old(vectors), old(generation), t, restoredGeneration)
    {
      hide Indexed, DataOf, Residency.Mirrored, Metadata.MetadataIndex.Valid, Residency.Payloads.Valid, Patched,
          PatchedVectors;
      if generation == t.generation { return; }
      DeltaRows(t, generation);
      UpdateRows(Delta(t, generation));
      ghost var contents0, vectors0 := contents, vectors;
      var archived := ArchivedSince(t, generation);
      var rest := archived;
      while rest != {}
        invariant rest <= archived && Valid()
        invariant contents == contents0 - (archived - rest) && vectors == vectors0 - (archived - rest)
        invariant generation == old(generation) && restoredGeneration == old(restoredGeneration)
        decreases rest
      {
        var uid :| uid in rest;
        ghost var done := archived - rest;
        DiscardRecord(uid);
        rest := rest - {uid};
        assert archived - rest == done + {uid};
        assert contents0 - done - {uid} == contents0 - (done + {uid});
        assert vectors0 - done - {uid} == vectors0 - (done + {uid});
      }
      assert archived - rest == archived;
      generation := t.generation;
    }

    /** The cache part of `_snapshot`: synchronise, and after a restore drop every vector no longer live. */
    method Refresh(t: State, ghost origin: Origin)
      requires Valid() && Keyed(t) && StartsFrom(origin) && Reaches(origin, t)
      modifies this, memories, metadata
      ensures Valid() && Synced(t)
    {
      hide Indexed, DataOf, Residency.Mirrored, Metadata.MetadataIndex.Valid, Residency.Payloads.Valid, Resynced,
          ResyncedVectors;
      hide Later, Live, VectorsOf, Keyed;
      OriginRebuilds(origin, t);
      Sync(t);
      if restoredGeneration >= 0 {
        var stale := vectors.Keys - memories.ids;
        ghost var replayed := vectors;
        while stale != {}
          invariant vectors.Keys - memories.ids == stale <= vectors.Keys
          invariant forall id ::
            id in memories.ids ==>
            (id in vectors <==> id in replayed) && (id in vectors ==> vectors[id] == replayed[id])
          invariant Valid() && contents == Live(t) && generation == t.generation
            && restoredGeneration == old(restoredGeneration)
          decreases stale
        {
          var uid :| uid in stale;
          vectors := vectors - {uid};
          stale := stale - {uid};
        }
        NothingOutside(vectors.Keys, memories.ids);
        assert vectors == map id | id in replayed && id in contents :: replayed[id];
        restoredGeneration := -1;
      }
    }

    /** `eligible`. */
    method Eligible(project: Option<string>, active: bool) returns (ids: set<Id>)
      requires Valid()
      ensures ids == set id | id in contents && InScope(contents[id].memory, project)
        && (active ==> contents[id].memory.status == Active)
    {
      hide Inverse, Per, NoEmpty, At, Served, DataOf, Metadata.MetadataIndex.Valid, Residency.Payloads.Valid, HeadersOf;
      hide PreferenceFieldsOf, UnconditionalOf;
      ids := At(byProject, None) + At(byProject, project);
      if active { ids := ids * At(byStatus, Active); }
      ByHeader(headers, byStatus, byProject);
      HeadersAgree(tokens, contents);
    }

    /** `cache.metadata.select(filter, registry, ids)`: the served records whose own and system fields satisfy the
        filter. */
    method Select(q: Metadata.Filter, reg: Registry, ids: set<Id>) returns (r: Result<set<Id>>)
      requires Valid() && Built(reg) && ids <= contents.Keys
      requires SystemFields(reg) && forall id :: id in contents ==> Normal(reg.fields, contents[id].memory)
      modifies metadata`numericSorted
      ensures Valid()
      ensures r == if Metadata.CheckFilter(reg, q, 0) then Ok(Selected(reg, q, old(contents), ids)) else Err(Schema)
    {
      hide Indexed, Metadata.MetadataIndex.Valid, Residency.Payloads.Valid, Normal, MetadataOf;
      ContentsAreTyped(reg, contents);
      r := metadata.SelectChecked(q, reg, ids);
      MatchingIsHolding(reg, q, contents, ids);
    }

    /** `cache.memories[uid]`: the stored record, whatever the payload cache has evicted. */
    method Recall(uid: Id, rows: Contents) returns (m: Memory)
      requires Valid() && uid in contents && Backs(rows, contents)
      modifies memories`resident, memories`order
      ensures Valid() && m == rows[uid].memory && |memories.order| <= memories.capacity
    {
      hide Indexed, Metadata.MetadataIndex.Valid, DataOf;
      var found := memories.Get(uid, rows);
      m := found.value;
    }

    /** The records with a posted alternative among the values of one attribute. */
    method MatchField(field: string, actual: Value) returns (matches: set<Id>)
      requires Valid()
      ensures matches == set id | id in contents && MeetsField(contents[id].memory, field, actual)
    {
      hide Inverse, Per, NoEmpty, At, Served, DataOf, Metadata.MetadataIndex.Valid, Residency.Payloads.Valid, HeadersOf;
      hide PreferenceFieldsOf, UnconditionalOf, MeetsField, ItemsOf;
      matches := {};
      var items := ItemsOf(actual);
      var rest := items;
      while rest != {}
        invariant rest <= items
        invariant matches == set v, id | v in items - rest && id in At(preferenceTerms, Metadata.Term(field, v)) :: id
        decreases rest
      {
        var v :| v in rest;
        matches := matches + At(preferenceTerms, Metadata.Term(field, v));
        rest := rest - {v};
      }
      assert items - rest == items;
      TermsMeetField(tokens, contents, preferenceTerms, field, actual);
    }

    /** `matching_preferences`: a preference matches exactly when it meets every field of its condition; counting the
        fields met decides it without reading any other preference. */
    method MatchingPreferences(attributes: map<string, Value>, project: Option<string>) returns (ids: set<Id>)
      requires Valid()
      ensures ids == set id | id in contents && Applies(contents[id].memory, attributes)
        && InScope(contents[id].memory, project)
    {
      hide Inverse, Per, NoEmpty, At, Served, DataOf, Metadata.MetadataIndex.Valid, Residency.Payloads.Valid, HeadersOf;
      hide PreferenceFieldsOf, UnconditionalOf, Applies, MeetsField, CountedFor;
      var counts: map<Id, nat> := map[];
      var rest := attributes.Keys;
      NothingCounted(contents, attributes);
      while rest != {}
        invariant rest <= attributes.Keys
        invariant CountedFor(contents, attributes, attributes.Keys - rest, counts)
        decreases rest
      {
        var field :| field in rest;
        var matches := MatchField(field, attributes[field]);
        CountOneMore(contents, attributes, attributes.Keys - rest, counts, field, matches);
        counts := map id | id in counts.Keys + matches ::
          (if id in counts then counts[id] else 0) + (if id in matches then 1 else 0);
        assert attributes.Keys - (rest - {field}) == (attributes.Keys - rest) + {field};
        rest := rest - {field};
      }
      assert attributes.Keys - rest == attributes.Keys;
      CountedArePreferences(contents, attributes, counts);
      var candidates := unconditional + set id | id in counts && counts[id] == preferenceFields[id];
      CountsDecide(contents, attributes, counts);
      var scope := At(byProject, None) + At(byProject, project);
      ByHeader(headers, byStatus, byProject);
      HeadersAgree(tokens, contents);
      ids := candidates * scope;
    }

    /** The superseded branch: nothing of the record stays, not even a vector from a restored snapshot. */
    method Leave(uid: Id)
      requires Valid() && uid !in contents
      modifies this`vectors, metadata
      ensures Valid() && vectors == old(vectors) - {uid}
    {
      hide Exact, Inverse, Per, HeaderOf, MetadataOf, Distinct, HeadersOf, DataOf, PreferenceFieldsOf, UnconditionalOf;
      hide Metadata.MetadataIndex.Valid, Residency.Payloads.Valid, Filed, Served;
      DataWithout(contents, uid);
      metadata.Remove(uid);
      vectors := vectors - {uid};
    }
  }

  lemma DiscardedThenPatched(v: map<Id, Vector>, id: Id, row: Row, restored: int)
    ensures row.memory.status == Superseded ==>
      PatchedVectors(v, map[id := row], restored) == v - {id} && v - {id} - {id} == v - {id}
    ensures row.generation > restored ==>
      PatchedVectors(v - {id}, map[id := row], restored) == PatchedVectors(v, map[id := row], restored)
  {
    PatchedVectorOnce(v, id, row, restored);
    PatchedVectorOnce(v - {id}, id, row, restored);
  }

  lemma PatchedOnce(c: Contents, id: Id, row: Row)
    ensures Patched(c, map[id := row]) == if row.memory.status == Superseded then c - {id} else (c - {id})[id := row]
  {
  }

  lemma PatchedVectorOnce(v: map<Id, Vector>, id: Id, row: Row, restored: int)
    ensures PatchedVectors(v, map[id := row], restored)
         == if row.memory.status == Superseded || row.embedding.None? then v - {id}
            else if row.generation > restored then v[id := row.embedding.value]
            else v
  {
  }

  lemma DataWithout(c: Contents, id: Id)
    requires id !in c
    ensures DataOf(c) - {id} == DataOf(c)
  {
  }

  lemma ServedWithout(c: Contents, id: Id)
    requires Served(c)
    ensures Served(c - {id})
  {
  }

  lemma ServedWith(c: Contents, id: Id, row: Row)
    requires Served(c) && row.memory.id == id && row.memory.status != Superseded
    ensures Served(c[id := row])
  {
  }

  lemma StillThere(c: Contents, rows: Contents, done: set<Id>, id: Id)
    requires id !in done
    ensures id in Patched(c, Only(rows, done)) <==> id in c
  {
  }

  lemma DeltaRows(t: State, since: int)
    requires Keyed(t)
    ensures forall id ::
      id in Delta(t, since) ==> Delta(t, since)[id].memory.id == id && Delta(t, since)[id].generation > since
  {
  }

  lemma NothingOutside(a: set<Id>, b: set<Id>)
    requires a - b == {}
    ensures a <= b
  {
    forall x | x in a ensures x in b {
      assert x !in a - b;
    }
  }

  lemma SameIds(tokens: Tokens, c: Contents)
    ensures HeadersOf(tokens, c).Keys == c.Keys
  {
  }

  lemma NotThere(c: Contents, id: Id)
    ensures id !in c ==> c - {id} == c
  {
  }

  // ---------- no trace of how a cache was built ----------

  /** Two caches with the same contents are equal index for index, whatever updates, evictions and rebuilds led to each:
      the four maps that keep emptied entries up to those, the sorted numbers wherever both hold them, and the vectors
      whenever both are synchronised. */
  lemma CachesWithSameContentsAgree(a: OwnerCache, b: OwnerCache)
    requires a.Valid() && b.Valid() && a.tokens == b.tokens && a.contents == b.contents
    ensures a.headers == b.headers && a.lexical == b.lexical && a.equivalents == b.equivalents
    ensures a.preferenceTerms == b.preferenceTerms && a.preferenceFields == b.preferenceFields
      && a.unconditional == b.unconditional
    ensures forall k :: At(a.byKind, k) == At(b.byKind, k)
    ensures forall k :: At(a.byStatus, k) == At(b.byStatus, k)
    ensures forall k :: At(a.byProject, k) == At(b.byProject, k)
    ensures a.metadata.values == b.metadata.values && a.metadata.postings == b.metadata.postings
    ensures forall f :: At(a.metadata.present, f) == At(b.metadata.present, f)
    ensures forall f :: f in a.metadata.numericSorted && f in b.metadata.numericSorted ==>
      a.metadata.numericSorted[f] == b.metadata.numericSorted[f]
    ensures a.memories.ids == b.memories.ids
    ensures forall s :: a.Synced(s) && b.Synced(s) ==> a.vectors == b.vectors && a.generation == b.generation
  {
    hide HeadersOf, DataOf, PreferenceFieldsOf, UnconditionalOf, Served, Per, Inverse, At, NoEmpty, Distinct,
        Metadata.AllCurrent;
    SameSets(a.metadata.present, b.metadata.present, Metadata.FieldKeys(a.metadata.values));
    var h := a.headers;
    InverseIsDetermined(a.lexical, b.lexical, Per(h, Words));
    InverseIsDetermined(a.equivalents, b.equivalents, Per(h, ActiveContent));
    InverseIsDetermined(a.preferenceTerms, b.preferenceTerms, Per(h, Conditions));
    InverseIsDetermined(a.metadata.postings, b.metadata.postings, Metadata.TermKeys(a.metadata.values));
    SameSets(a.byKind, b.byKind, Per(h, OfKind));
    SameSets(a.byStatus, b.byStatus, Per(h, OfStatus));
    SameSets(a.byProject, b.byProject, Per(h, OfProject));
    Metadata.CurrentListsAgree(a.metadata.numericSorted, b.metadata.numericSorted, a.metadata.postings);
  }

  lemma SameSets<K(!new)>(a: map<K, set<Id>>, b: map<K, set<Id>>, keysOf: map<Id, set<K>>)
    requires Inverse(a, keysOf) && Inverse(b, keysOf)
    ensures forall k :: At(a, k) == At(b, k)
  {
    forall k ensures At(a, k) == At(b, k) {
      assert forall id :: id in At(a, k) <==> id in At(b, k);
    }
  }
}
