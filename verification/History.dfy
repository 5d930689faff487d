/** `recall_history` of `memory_core/memory/history.py`: live and archived records streamed in batches of 256, each
    searched through a cache of its own, keeping only the best so far. */
module History {
  import opened Types
  import opened Counting
  import opened Ordering
  import opened Rankings
  import opened Fields
  import opened Store
  import opened Scores
  import opened Shortlist
  import opened Postings
  import opened Cache
  import opened Search
  import Metadata

  /** A recall request, with everything else it reads. */
  datatype Ask = Ask(
    policy: Policy,
    tokens: Tokens,
    registry: Registry,
    query: string,
    vector: Vector,
    project: Option<string>,
    statuses: seq<Status>,
    filter: Option<Metadata.Filter>,
    limit: nat)

  /** What the service passes: a valid policy and the owner's registry. */
  ghost predicate Fit(a: Ask) {
    ValidPolicy(a.policy) && Built(a.registry) && SystemFields(a.registry)
  }

  function QueryWords(a: Ask): set<string> { a.tokens(a.query) }

  predicate Refused(a: Ask) {
    a.filter.Some? && !Metadata.CheckFilter(a.registry, a.filter.value, 0)
  }

  /** In scope, of a status asked for, and within the filter. */
  predicate Wanted(a: Ask, m: Memory) {
    && InScope(m, a.project) && m.status in a.statuses
    && (a.filter.Some? ==> Metadata.Holds(a.registry, a.filter.value, MetadataOf(m)))
  }

  /** A recall filtered by kind or status wants exactly the records of that kind or status, in the user's own scope or
      the project asked for, of a status asked for. */
  lemma WantedMeaning(a: Ask, m: Memory, field: string, name: string)
    requires Fit(a) && a.filter == Some(Metadata.Eq(field, Text(name))) && (field == "kind" || field == "status")
    ensures Wanted(a, m) <==>
      && (m.scope == UserScope || (a.project.Some? && m.scope == ProjectScope(a.project.value)))
        && m.status in a.statuses
      && if field == "kind" then
           || (name == "preference" && m.content.Preference?) || (name == "decision" && m.content.Decided?)
           || (name == "observation" && m.content.Observed?) || (name == "procedure" && m.content.Procedure?)
         else
           || (name == "active" && m.status == Active) || (name == "superseded" && m.status == Superseded)
           || (name == "disputed" && m.status == Disputed)
  {
    var c: Contents := map[m.id := Row(m, None, 0)];
    ScopeMeaning(m, a.project);
    if field == "kind" {
      KindsSelect(a.registry, c, {m.id}, name);
      assert m.id in Selected(a.registry, a.filter.value, c, {m.id})
        <==> Metadata.Holds(a.registry, a.filter.value, MetadataOf(m));
    } else {
      StatusesSelect(a.registry, c, {m.id}, name);
      assert m.id in Selected(a.registry, a.filter.value, c, {m.id})
        <==> Metadata.Holds(a.registry, a.filter.value, MetadataOf(m));
    }
  }

  /** An unfiltered recall wants every record in scope of a status asked for. */
  lemma UnfilteredMeaning(a: Ask, m: Memory)
    requires a.filter.None?
    ensures Wanted(a, m) <==>
      (m.scope == UserScope || (a.project.Some? && m.scope == ProjectScope(a.project.value))) && m.status in a.statuses
  {
    ScopeMeaning(m, a.project);
  }

  // ---------- what is searched ----------

  /** The rows by id, as `update_rows` files them. */
  function Kept(rows: seq<Record>): map<Id, Record> {
    if rows == [] then map[]
    else
      var n := |rows| - 1;
      Kept(rows[..n])[rows[n].memory.id := rows[n]]
  }

  function CandidateOf(a: Ask, x: Record): Candidate {
    Candidate(if x.embedding.Some? then Some(Dot(x.embedding.value, a.vector))
      else None, |QueryWords(a) * a.tokens(x.memory.summary)|)
  }

  ghost function PoolIn(a: Ask, kept: map<Id, Record>): Pool {
    map id | id in kept && Wanted(a, kept[id].memory) :: CandidateOf(a, kept[id])
  }

  /** What searching one batch answers, candidate budget included. */
  ghost function BatchAnswer(a: Ask, rows: seq<Record>): seq<Hit>
    requires ValidPolicy(a.policy)
  {
    Answer(a.policy, |QueryWords(a)|, PoolIn(a, Kept(rows)), a.limit)
  }

  /** Where the last batch of `fetchmany(256)` starts. */
  function LastBatch(rows: seq<Record>): nat
    requires rows != []
  {
    (|rows| - 1) / 256 * 256
  }

  ghost function Recalled(a: Ask, rows: seq<Record>): seq<Hit>
    requires ValidPolicy(a.policy)
    decreases |rows|
  {
    if rows == [] then []
    else
      var n := LastBatch(rows);
      Best(Recalled(a, rows[..n]) + BatchAnswer(a, rows[n..]), a.limit)
  }

  /** Rows come from two tables keyed by id, and no id is in both. */
  ghost predicate Once(rows: seq<Record>) {
    forall i, j :: 0 <= i < j < |rows| ==> rows[i].memory.id != rows[j].memory.id
  }

  lemma {:induction false} KeptIds(rows: seq<Record>)
    ensures forall id ::
      id in Kept(rows) ==> exists i :: 0 <= i < |rows| && rows[i].memory.id == id && Kept(rows)[id] == rows[i]
    ensures forall i :: 0 <= i < |rows| ==> rows[i].memory.id in Kept(rows)
  {
    if rows != [] {
      var n := |rows| - 1;
      KeptIds(rows[..n]);
      forall id | id in Kept(rows)
          ensures exists i :: 0 <= i < |rows| && rows[i].memory.id == id && Kept(rows)[id] == rows[i] {
        if id == rows[n].memory.id {
          assert Kept(rows)[id] == rows[n];
        } else {
          var i :| 0 <= i < n && rows[..n][i].memory.id == id && Kept(rows[..n])[id] == rows[..n][i];
          assert rows[i].memory.id == id;
        }
      }
      forall i | 0 <= i < |rows| ensures rows[i].memory.id in Kept(rows) {
        if i < n { assert rows[..n][i].memory.id in Kept(rows[..n]); }
      }
    }
  }

  lemma {:induction false} KeptAt(rows: seq<Record>, i: nat)
    requires Once(rows) && i < |rows|
    ensures rows[i].memory.id in Kept(rows) && Kept(rows)[rows[i].memory.id] == rows[i]
  {
    KeptIds(rows);
  }

  /** What is kept does not depend on the order of the rows. */
  lemma SameRowsKept(x: seq<Record>, y: seq<Record>)
    requires Once(x) && Once(y) && forall r :: r in x <==> r in y
    ensures Kept(x) == Kept(y)
  {
    hide Kept;
    KeptIds(x);
    KeptIds(y);
    forall id | id in Kept(x) ensures id in Kept(y) && Kept(y)[id] == Kept(x)[id] {
      assert Kept(x)[id] in y;
      var i :| 0 <= i < |y| && y[i] == Kept(x)[id];
      KeptAt(y, i);
    }
    forall id | id in Kept(y) ensures id in Kept(x) {
      assert Kept(y)[id] in x;
    }
  }

  lemma {:induction false} KeptConcat(x: seq<Record>, y: seq<Record>)
    ensures Kept(x + y) == Kept(x) + Kept(y)
  {
    if y == [] {
      assert x + y == x;
    } else {
      var n := |y| - 1;
      assert (x + y)[..|x + y| - 1] == x + y[..n];
      KeptConcat(x, y[..n]);
    }
  }

  lemma KeptApart(rows: seq<Record>, n: nat)
    requires Once(rows) && n <= |rows|
    ensures Kept(rows[..n]).Keys !! Kept(rows[n..]).Keys
    ensures Kept(rows) == Kept(rows[..n]) + Kept(rows[n..])
  {
    hide Kept;
    assert rows == rows[..n] + rows[n..];
    KeptConcat(rows[..n], rows[n..]);
    KeptIds(rows[..n]);
    KeptIds(rows[n..]);
    forall i, j | 0 <= i < n && 0 <= j < |rows| - n ensures rows[..n][i].memory.id != rows[n..][j].memory.id {
      assert rows[n..][j] == rows[n + j];
    }
  }

  lemma {:induction false} KeptSize(rows: seq<Record>)
    ensures |Kept(rows)| <= |rows|
    ensures Once(rows) ==> |Kept(rows)| == |rows|
  {
    if rows != [] {
      var n := |rows| - 1;
      KeptSize(rows[..n]);
      KeptIds(rows[..n]);
      assert Kept(rows).Keys == Kept(rows[..n]).Keys + {rows[n].memory.id};
    }
  }

  // ---------- one batch's cache ----------

  function AsRow(x: Record): Row { Row(x.memory, x.embedding, 0) }

  ghost function AsRows(kept: map<Id, Record>): Contents {
    map id | id in kept :: AsRow(kept[id])
  }

  /** `OwnerCache(include_retired=True)`, as far as a search reads it. */
  class BatchCache {
    const tokens: Tokens
    const metadata: Metadata.MetadataIndex
    var headers: map<Id, Header>
    var lexical: map<string, set<Id>>
    var byStatus: map<Status, set<Id>>
    var byProject: map<Option<string>, set<Id>>
    var vectors: map<Id, Vector>
    ghost var kept: map<Id, Record>

    ghost predicate Filed()
      reads this
    {
      && headers == HeadersOf(tokens, AsRows(kept)) && vectors == VectorsOf(AsRows(kept))
      && Inverse(lexical, Per(headers, Words))
      && Inverse(byStatus, Per(headers, OfStatus)) && Inverse(byProject, Per(headers, OfProject))
    }

    ghost predicate Valid()
      reads this, metadata
    {
      Filed() && metadata.Valid() && metadata.values == DataOf(AsRows(kept))
    }

    constructor (tokens: Tokens)
      ensures Valid() && fresh(metadata) && this.tokens == tokens && kept == map[]
    {
      this.tokens := tokens;
      metadata := new Metadata.MetadataIndex();
      headers, lexical, byStatus, byProject, vectors, kept := map[], map[], map[], map[], map[], map[];
    }

    /** File a record the cache does not hold, whatever its status. */
    method File(x: Record)
      requires Filed() && x.memory.id !in kept
      modifies this
      ensures Filed() && kept == old(kept)[x.memory.id := x]
    {
      hide Inverse, Per, At, HeaderOf, HeadersOf, VectorsOf, DataOf, MetadataOf;
      var uid, header := x.memory.id, HeaderOf(tokens, x.memory);
      ghost var h, lexical0, byStatus0, byProject0 := headers, lexical, byStatus, byProject;
      RowsWith(kept, x);
      SameIds(tokens, AsRows(kept));
      ContentsWith(tokens, AsRows(kept), uid, AsRow(x));
      VectorsWith(kept, x);
      headers := headers[uid := header];
      byStatus := Add(byStatus, header.status, uid);
      byProject := Add(byProject, header.project, uid);
      lexical := AddAll(lexical, header.words, uid);
      AddedTo(byStatus0, byStatus, h, OfStatus, uid, header);
      AddedTo(byProject0, byProject, h, OfProject, uid, header);
      AddedTo(lexical0, lexical, h, Words, uid, header);
      if x.embedding.Some? { vectors := vectors[uid := x.embedding.value]; }
      kept := kept[uid := x];
    }

    method UpdateRows(rows: seq<Record>)
      requires Valid() && kept == map[] && Once(rows)
      modifies this, metadata
      ensures Valid() && kept == Kept(rows)
    {
      hide Filed, Metadata.MetadataIndex.Valid, MetadataOf, DataOf, AsRows;
      for i := 0 to |rows|
        invariant Valid() && kept == Kept(rows[..i])
      {
        var x := rows[i];
        KeptIds(rows[..i]);
        RowsWith(kept, x);
        ContentsWith(tokens, AsRows(kept), x.memory.id, AsRow(x));
        assert rows[..i + 1][..i] == rows[..i];
        metadata.Upsert(x.memory.id, MetadataOf(x.memory));
        File(x);
      }
      assert rows[..|rows|] == rows;
    }

    /** The records a request is about. */
    method Select(a: Ask) returns (ids: set<Id>)
      requires Valid() && Fit(a) && !Refused(a)
      requires forall id :: id in kept ==> Normal(a.registry.fields, kept[id].memory)
      modifies metadata`numericSorted
      ensures Valid() && ids == set id | id in kept && Wanted(a, kept[id].memory)
    {
      hide Inverse, Per, At, Metadata.MetadataIndex.Valid, HeadersOf, DataOf, Normal, MetadataOf, Built, VectorsOf;
      hide Metadata.Holds, Metadata.CheckFilter, Metadata.Matching, Metadata.WellTyped;
      var scope := At(byProject, None) + At(byProject, a.project);
      ids := scope * set s, id | s in a.statuses && id in At(byStatus, s) :: id;
      InScopeWithStatus(headers, byStatus, byProject, a.project, a.statuses);
      HeadersAgree(tokens, AsRows(kept));
      assert ids == set id | id in kept && InScope(kept[id].memory, a.project) && kept[id].memory.status in a.statuses;
      if a.filter.Some? {
        ContentsAreTyped(a.registry, AsRows(kept));
        MatchingIsHolding(a.registry, a.filter.value, AsRows(kept), ids);
        ids := metadata.Select(a.filter.value, a.registry, ids, 0);
      }
    }

    /** Search the batch, over the exact index every such cache has. */
    method Search(a: Ask) returns (hits: seq<Hit>)
      requires Valid() && Fit(a) && !Refused(a) && tokens == a.tokens
      requires forall id :: id in kept ==> Normal(a.registry.fields, kept[id].memory)
      modifies metadata`numericSorted
      ensures hits == Answer(a.policy, |QueryWords(a)|, PoolIn(a, kept), a.limit)
    {
      hide Inverse, Per, At, Metadata.MetadataIndex.Valid, HeadersOf, DataOf, Normal, Wanted, Built, VectorsOf;
      hide Answers, HitsFor, Lists, Best, Answer, AnswerFrom, PoolOf, PoolIn, Similar, SystemFields, StrictlySorted,
          IdsOf;
      hide FirstAsk;
      var ids := Select(a);
      HeadersAgree(tokens, AsRows(kept));
      var names := SortNames(ids);
      ListsTheSelected(vectors, a.vector, ids, names);
      BestIsAnswer(vectors, a.vector, ids, FirstAsk(a.policy, ids, a.limit), HitsFor(vectors, a.vector, names));
      var found := Best(HitsFor(vectors, a.vector, names), FirstAsk(a.policy, ids, a.limit));
      hits := SearchIndexes(headers, lexical, vectors, a.policy, QueryWords(a), a.vector, ids, a.limit, found);
      ExactBackendAnswers(headers, vectors, a.policy, QueryWords(a), a.vector, ids, a.limit,
        HitsFor(vectors, a.vector, names));
      PoolsAgree(a, kept, ids);
    }
  }

  lemma InScopeWithStatus(h: map<Id, Header>, byStatus: map<Status, set<Id>>, byProject: map<Option<string>, set<Id>>,
                          project: Option<string>, statuses: seq<Status>)
    requires Inverse(byStatus, Per(h, OfStatus)) && Inverse(byProject, Per(h, OfProject))
    ensures (At(byProject, None) + At(byProject, project)) * (set s, id | s in statuses && id in At(byStatus, s) :: id)
         == set id | id in h && (h[id].project == None || h[id].project == project) && h[id].status in statuses
  {
    hide Inverse, Per, At;
    ByHeader(h, byStatus, byProject);
    var some := set s, id | s in statuses && id in At(byStatus, s) :: id;
    forall id | id in h ensures id in some <==> h[id].status in statuses {
      assert id in At(byStatus, h[id].status);
    }
  }

  lemma RowsWith(kept: map<Id, Record>, x: Record)
    ensures AsRows(kept[x.memory.id := x]) == AsRows(kept)[x.memory.id := AsRow(x)]
    ensures AsRows(kept).Keys == kept.Keys
  {
  }

  lemma VectorsWith(kept: map<Id, Record>, x: Record)
    requires x.memory.id !in kept
    ensures VectorsOf(AsRows(kept[x.memory.id := x])) ==
      if x.embedding.Some? then VectorsOf(AsRows(kept))[x.memory.id := x.embedding.value] else VectorsOf(AsRows(kept))
  {
  }

  lemma ListsTheSelected(vectors: map<Id, Vector>, q: Vector, ids: set<Id>, names: seq<Id>)
    requires StrictlySorted(names) && forall x :: x in names <==> x in ids
    ensures Lists(HitsFor(vectors, q, names), Similar(vectors, q, ids))
  {
    hide Lists, Similar, HitsFor, StrictlySorted;
    forall i, j | 0 <= i < j < |names| ensures names[i] != names[j] { SortedBelow(names, i, j); }
    HitsForLists(vectors, q, names);
    assert Members(names) == ids;
  }

  lemma PoolsAgree(a: Ask, kept: map<Id, Record>, ids: set<Id>)
    requires ids == set id | id in kept && Wanted(a, kept[id].memory)
    ensures PoolOf(HeadersOf(a.tokens, AsRows(kept)), VectorsOf(AsRows(kept)), QueryWords(a), a.vector, ids)
      == PoolIn(a, kept)
  {
    hide Dot, Wanted;
    HeadersAgree(a.tokens, AsRows(kept));
  }

  // ---------- the operation ----------

  lemma RecalledOneMore(a: Ask, rows: seq<Record>, i: nat, n: nat)
    requires ValidPolicy(a.policy) && i < n <= |rows| && i % 256 == 0 && n <= i + 256
    ensures Recalled(a, rows[..n]) == Best(Recalled(a, rows[..i]) + BatchAnswer(a, rows[i..n]), a.limit)
  {
    hide Best, BatchAnswer;
    var k := i / 256;
    assert (n - 1) / 256 == k;
    assert rows[..n][..i] == rows[..i] && rows[..n][i..] == rows[i..n];
  }

  /** `recall_history`: a refused filter raises; otherwise the batches' answers, merged and cut after each. */
  method RecallHistory(a: Ask, rows: seq<Record>) returns (r: Result<seq<Hit>>)
    requires Fit(a) && Once(rows) && forall x :: x in rows ==> Normal(a.registry.fields, x.memory)
    ensures r == if Refused(a) then Err(Schema) else Ok(Recalled(a, rows))
  {
    hide Best, Recalled, Normal, Answer, PoolIn, Built, SystemFields, Wanted, Metadata.CheckFilter, BatchCache.Valid;
    if a.filter.Some? && !Metadata.CheckFilter(a.registry, a.filter.value, 0) { return Err(Schema); }
    var best: seq<Hit> := [];
    var i := 0;
    NothingRecalled(a);
    assert rows[..0] == [];
    while i < |rows|
      invariant i <= |rows| && (i < |rows| ==> i % 256 == 0)
      invariant best == Recalled(a, rows[..i])
    {
      var n := Min(i + 256, |rows|);
      var cache := new BatchCache(a.tokens);
      KeptAreRows(rows, i, n);
      cache.UpdateRows(rows[i..n]);
      var hits := cache.Search(a);
      RecalledOneMore(a, rows, i, n);
      best := Best(best + hits, a.limit);
      i := n;
    }
    assert rows[..|rows|] == rows;
    r := Ok(best);
  }

  lemma NothingRecalled(a: Ask)
    requires ValidPolicy(a.policy)
    ensures Recalled(a, []) == []
  {
  }

  lemma KeptAreRows(rows: seq<Record>, i: nat, n: nat)
    requires Once(rows) && i <= n <= |rows|
    ensures Once(rows[i..n]) && forall id :: id in Kept(rows[i..n]) ==> Kept(rows[i..n])[id] in rows
  {
    KeptIds(rows[i..n]);
  }

  // ---------- when batching cannot be seen ----------

  /** The query has at most unit length, and so have the embeddings, all of one dimension. */
  ghost predicate Comparable(a: Ask, kept: map<Id, Record>) {
    && Dot(a.vector, a.vector) <= 1.0
    && forall id :: id in kept && kept[id].embedding.Some? ==>
         |kept[id].embedding.value| == |a.vector| && Dot(kept[id].embedding.value, kept[id].embedding.value) <= 1.0
  }

  lemma PoolInIsSane(a: Ask, kept: map<Id, Record>)
    requires Comparable(a, kept)
    ensures Sane(|QueryWords(a)|, PoolIn(a, kept))
  {
    hide Dot, Wanted;
    forall id | id in kept ensures |QueryWords(a) * a.tokens(kept[id].memory.summary)| <= |QueryWords(a)| {
      SubsetSize(QueryWords(a) * a.tokens(kept[id].memory.summary), QueryWords(a));
    }
    forall id | id in kept && kept[id].embedding.Some? ensures Dot(kept[id].embedding.value, a.vector) <= 1.0 {
      UnitProducts(kept[id].embedding.value, a.vector);
    }
  }

  /** The budget covers what each batch holds of the wanted records. */
  ghost predicate Covered(a: Ask, rows: seq<Record>)
    requires ValidPolicy(a.policy)
    decreases |rows|
  {
    rows != [] ==>
      var n := LastBatch(rows);
      Suffices(a.policy, a.limit, PoolIn(a, Kept(rows[n..]))) && Covered(a, rows[..n])
  }

  lemma ScoredTogether(a: Ask, x: map<Id, Record>, y: map<Id, Record>)
    requires ValidPolicy(a.policy) && x.Keys !! y.Keys
    ensures
      var p, words, cs, ds, all := a.policy, |QueryWords(a)|, PoolIn(a, x), PoolIn(a, y), PoolIn(a, x + y);
      && Scored(p, words, cs, cs.Keys).Keys !! Scored(p, words, ds, ds.Keys).Keys
      && Scored(p, words, all, all.Keys) == Scored(p, words, cs, cs.Keys) + Scored(p, words, ds, ds.Keys)
  {
    hide Hybrid, CandidateOf, Wanted;
  }

  /** Searching two sets of records apart and keeping the best finds the best of both. */
  lemma FullAnswersMerge(a: Ask, x: map<Id, Record>, y: map<Id, Record>)
    requires ValidPolicy(a.policy) && x.Keys !! y.Keys
    ensures
      var p, words := a.policy, |QueryWords(a)|;
      Best(FullAnswer(p, words, PoolIn(a, x), a.limit) + FullAnswer(p, words, PoolIn(a, y), a.limit), a.limit)
      == FullAnswer(p, words, PoolIn(a, x + y), a.limit)
  {
    hide Best, Top, Scored, PoolIn;
    ScoredTogether(a, x, y);
    var p, words, cs, ds := a.policy, |QueryWords(a)|, PoolIn(a, x), PoolIn(a, y);
    TopOfUnion(Scored(p, words, cs, cs.Keys), Scored(p, words, ds, ds.Keys), a.limit);
  }

  lemma NoneWanted(a: Ask)
    requires ValidPolicy(a.policy)
    ensures FullAnswer(a.policy, |QueryWords(a)|, PoolIn(a, Kept([])), a.limit) == []
  {
    hide Top;
    var cs := PoolIn(a, Kept([]));
    TopShape(Scored(a.policy, |QueryWords(a)|, cs, cs.Keys), a.limit);
  }

  /** While each batch is covered, recall answers with the best of all wanted records, scored without any budget. */
  lemma {:induction false} RecallIsExact(a: Ask, rows: seq<Record>)
    requires ValidPolicy(a.policy) && Once(rows) && Comparable(a, Kept(rows)) && Covered(a, rows)
    ensures Recalled(a, rows) == FullAnswer(a.policy, |QueryWords(a)|, PoolIn(a, Kept(rows)), a.limit)
    decreases |rows|
  {
    hide Best, FullAnswer, Answer, PoolIn, Kept, Suffices, Dot;
    if rows == [] {
      NoneWanted(a);
    } else {
      var n := LastBatch(rows);
      KeptApart(rows, n);
      ComparableParts(a, Kept(rows[..n]), Kept(rows[n..]));
      PoolInIsSane(a, Kept(rows[n..]));
      ShortlistIsExact(a.policy, |QueryWords(a)|, PoolIn(a, Kept(rows[n..])), a.limit);
      RecallIsExact(a, rows[..n]);
      FullAnswersMerge(a, Kept(rows[..n]), Kept(rows[n..]));
    }
  }

  lemma ComparableParts(a: Ask, x: map<Id, Record>, y: map<Id, Record>)
    requires x.Keys !! y.Keys && Comparable(a, x + y)
    ensures Comparable(a, x) && Comparable(a, y)
  {
    hide Dot;
    forall id | id in x ensures (x + y)[id] == x[id] { }
    forall id | id in y ensures (x + y)[id] == y[id] { }
  }

  /** A budget that covers 256 records covers every batch. */
  lemma {:induction false} BatchesAreCovered(a: Ask, rows: seq<Record>)
    requires ValidPolicy(a.policy) && Covers(a.policy, a.limit, 256) && Once(rows) && Embedded(Kept(rows))
    ensures Covered(a, rows)
    decreases |rows|
  {
    hide Kept, PoolIn, Vectored;
    if rows != [] {
      var n := LastBatch(rows);
      KeptApart(rows, n);
      EmbeddedParts(Kept(rows[..n]), Kept(rows[n..]));
      PoolIsVectored(a, Kept(rows[n..]));
      KeptSize(rows[n..]);
      PoolSize(a, Kept(rows[n..]));
      BatchesAreCovered(a, rows[..n]);
    }
  }

  /** Every record has an embedding. */
  ghost predicate Embedded(kept: map<Id, Record>) {
    forall id :: id in kept ==> kept[id].embedding.Some?
  }

  lemma EmbeddedParts(x: map<Id, Record>, y: map<Id, Record>)
    requires x.Keys !! y.Keys && Embedded(x + y)
    ensures Embedded(x) && Embedded(y)
  {
    forall id | id in x ensures (x + y)[id] == x[id] { }
    forall id | id in y ensures (x + y)[id] == y[id] { }
  }

  lemma PoolIsVectored(a: Ask, kept: map<Id, Record>)
    requires Embedded(kept)
    ensures Vectored(PoolIn(a, kept))
  {
    hide Wanted, Dot;
  }

  lemma PoolSize(a: Ask, kept: map<Id, Record>)
    ensures |PoolIn(a, kept)| <= |kept|
  {
    hide Wanted, CandidateOf;
    SubsetSize(PoolIn(a, kept).Keys, kept.Keys);
  }

  /** Up to 256 rows there is one batch, and its search is the answer. */
  lemma OneBatchIsOneSearch(a: Ask, rows: seq<Record>)
    requires ValidPolicy(a.policy) && |rows| <= 256
    ensures Recalled(a, rows) == Answer(a.policy, |QueryWords(a)|, PoolIn(a, Kept(rows)), a.limit)
  {
    hide Top, Scored, Best, PoolIn;
    var cs, words := PoolIn(a, Kept(rows)), |QueryWords(a)|;
    var chosen := IdsOf(Top(Semantic(cs), Budget(a.policy, a.limit))) + MostWords(a.policy, cs, a.limit);
    TopShape(Scored(a.policy, words, cs, chosen), a.limit);
    if rows == [] {
      NoneWantedNoneFound(a, words, chosen);
    } else {
      assert LastBatch(rows) == 0 && rows[..0] == [] && rows[0..] == rows;
      BestOfTop(Scored(a.policy, words, cs, chosen), a.limit);
      assert [] + BatchAnswer(a, rows) == BatchAnswer(a, rows);
    }
  }

  lemma NoneWantedNoneFound(a: Ask, words: nat, chosen: set<Id>)
    requires ValidPolicy(a.policy)
    ensures |Scored(a.policy, words, PoolIn(a, Kept([])), chosen)| == 0
  {
  }

  lemma BestOfTop(scores: map<Id, real>, k: nat)
    ensures Best(Top(scores, k), k) == Top(scores, k)
  {
    hide SortHits;
    TopShape(scores, k);
    SortHitsSorted(Top(scores, k));
    SortedUnique(SortHits(Top(scores, k)), Top(scores, k));
  }
}
