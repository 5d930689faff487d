/** Historical recall (`memory_core/memory/history.py`) against retention: archiving moves a record behind every live
    row of the `UNION ALL`, so into another batch. When that can be seen, and when not. */
module Archival {
  import opened Types
  import opened Ordering
  import opened Rankings
  import opened Fields
  import opened Store
  import opened Scores
  import opened Shortlist
  import opened Cache
  import opened History
  import opened Crowding
  import Counting
  import Runs

  /** Every live row, then every archived one, in any order within each. */
  ghost predicate Streams(rows: seq<Record>, s: State) {
    && Once(rows) && Kept(rows) == Runs.Retained(s)
    && forall i :: 0 <= i < |rows| ==> (rows[i].memory.id in s.rows <==> i < |s.rows|)
  }

  /** A request under this policy and limit meets a state of some run, with at most n retained records. */
  ghost predicate Meets(a: Ask, s: State, p: Policy, limit: nat, n: nat) {
    && Fit(a) && a.policy == p && a.limit == limit && a.registry == s.registry
    && Runs.Reached(s) && Comparable(a, Runs.Retained(s)) && |Runs.Retained(s)| <= n
  }

  /** Recall answers the same in whatever order the rows of each table come. */
  ghost predicate OrderUnseen(p: Policy, limit: nat, n: nat)
    requires ValidPolicy(p)
  {
    forall a, s, x, y :: Meets(a, s, p, limit, n) && Streams(x, s) && Streams(y, s) ==> Recalled(a, x) == Recalled(a, y)
  }

  /** Recall answers the same before and after any page is archived. */
  ghost predicate ArchivalUnseen(p: Policy, limit: nat, n: nat)
    requires ValidPolicy(p)
  {
    forall a, s, cutoff, page: nat, x, y ::
      Meets(a, s, p, limit, n) && Streams(x, s) && Streams(y, Runs.ArchivePage(s, cutoff, page)) ==>
      Recalled(a, x) == Recalled(a, y)
  }

  /** One batch holds everything, or the budget covers a batch, or only words or only cosines count. */
  predicate Steady(p: Policy, limit: nat, n: nat) {
    n <= 256 || Covers(p, limit, 256)
  }

  lemma SteadyRecall(a: Ask, s: State, p: Policy, limit: nat, n: nat, x: seq<Record>, y: seq<Record>)
    requires Steady(p, limit, n) && Meets(a, s, p, limit, n)
    requires Once(x) && Once(y) && Kept(x) == Kept(y) == Runs.Retained(s) && ValidPolicy(a.policy)
    ensures Recalled(a, x) == Recalled(a, y)
  {
    hide Recalled, Kept, Runs.Retained, Comparable, Covers, Answer, FullAnswer, Runs.Reached, PoolIn, Embedded;
    RetainedEmbeds(s);
    if n <= 256 {
      KeptSize(x);
      KeptSize(y);
      OneBatchIsOneSearch(a, x);
      OneBatchIsOneSearch(a, y);
    } else {
      BatchesAreCovered(a, x);
      BatchesAreCovered(a, y);
      RecallIsExact(a, x);
      RecallIsExact(a, y);
    }
  }

  lemma RetainedEmbeds(s: State)
    requires Runs.Reached(s)
    ensures Embedded(Runs.Retained(s))
  {
    hide Runs.Reached, Inv;
    Runs.ReachedIsSound(s);
  }

  // ---------- a run that shows the batches ----------

  lemma UnitVectors()
    ensures Dot([1.0, 0.0], [1.0, 0.0]) == 1.0 && Dot([0.0, 1.0], [1.0, 0.0]) == 0.0
      && Dot([0.0, 1.0], [0.0, 1.0]) == 1.0
  {
    assert [1.0, 0.0][..1] == [1.0] && [0.0, 1.0][..1] == [0.0];
    assert [1.0][..0] == [] && [0.0][..0] == [];
    assert Dot([1.0], [1.0]) == 1.0 && Dot([0.0], [1.0]) == 0.0 && Dot([0.0], [0.0]) == 0.0;
  }

  /** A request of one word, on texts of one word each. */
  function OneWord(p: Policy, limit: nat): Ask {
    Ask(p, s => {s}, OwnFields(), "w", [1.0, 0.0], None, [Active, Superseded], None, limit)
  }

  function InOrder(p: Policy, limit: nat): (r: seq<Record>)
    requires ValidPolicy(p)
    ensures |r| == 257 && forall i :: 0 <= i < 257 ==> r[i] == RecordAt(p, limit, i)
  {
    seq(257, i requires 0 <= i => RecordAt(p, limit, i))
  }

  /** The same rows with the superseded one at the end. */
  function LastMoved(p: Policy, limit: nat): (r: seq<Record>)
    requires ValidPolicy(p) && Last(p, limit) < 257
    ensures |r| == 257
  {
    var rows, k := InOrder(p, limit), Last(p, limit);
    rows[..k] + rows[k + 1..] + [rows[k]]
  }

  lemma InOrderOnce(p: Policy, limit: nat)
    requires ValidPolicy(p)
    ensures Once(InOrder(p, limit))
  {
    hide Name, CandidateAt, VectorFor, Budget;
    var rows := InOrder(p, limit);
    forall i, j | 0 <= i < j < |rows| ensures rows[i].memory.id != rows[j].memory.id { NamesDiffer(i, j); }
  }

  lemma LastMovedAt(p: Policy, limit: nat, i: nat)
    requires ValidPolicy(p) && Last(p, limit) < 257 && i < 257
    ensures
      var k := Last(p, limit);
      LastMoved(p, limit)[i] == RecordAt(p, limit, if i < k then i else if i < 256 then i + 1 else k)
  {
    hide RecordAt;
  }

  lemma LastMovedOnce(p: Policy, limit: nat)
    requires ValidPolicy(p) && Last(p, limit) < 257
    ensures Once(LastMoved(p, limit)) && Kept(LastMoved(p, limit)) == Kept(InOrder(p, limit))
  {
    hide Name, CandidateAt, VectorFor, LastMoved, Budget, Kept;
    var rows, moved, k := InOrder(p, limit), LastMoved(p, limit), Last(p, limit);
    InOrderOnce(p, limit);
    forall i, j | 0 <= i < j < |moved| ensures moved[i].memory.id != moved[j].memory.id {
      LastMovedAt(p, limit, i);
      LastMovedAt(p, limit, j);
      NamesDiffer(if i < k then i else i + 1, if j < k then j else if j < 256 then j + 1 else k);
    }
    forall r ensures r in rows <==> r in moved { SameRows(p, limit, r); }
    SameRowsKept(moved, rows);
  }

  lemma SameRows(p: Policy, limit: nat, r: Record)
    requires ValidPolicy(p) && Last(p, limit) < 257
    ensures r in InOrder(p, limit) <==> r in LastMoved(p, limit)
  {
    hide RecordAt;
    var rows, k := InOrder(p, limit), Last(p, limit);
    assert rows == rows[..k] + [rows[k]] + rows[k + 1..];
  }

  lemma CandidateOfRecord(p: Policy, limit: nat, i: nat)
    requires ValidPolicy(p)
    ensures
      var a, x := OneWord(p, limit), RecordAt(p, limit, i);
      && (Wanted(a, x.memory) <==> i <= Last(p, limit)) && CandidateOf(a, x) == CandidateAt(p, limit, i)
        && QueryWords(a) == {"w"}
  {
    hide Dot, Name;
    UnitVectors();
    TwinIsNotLast(p, limit);
    assert {"w"} * {"v"} == {} && {"w"} * {"w"} == {"w"};
  }

  /** What is wanted of any of the rows. */
  lemma PoolOfRows(p: Policy, limit: nat, rows: seq<Record>, id: Id)
    requires ValidPolicy(p) && Once(rows) && forall x :: x in rows ==> x in InOrder(p, limit)
    requires id in PoolIn(OneWord(p, limit), Kept(rows))
    ensures id != "" && |id| - 1 <= Last(p, limit) && id == Name(|id| - 1)
    ensures PoolIn(OneWord(p, limit), Kept(rows))[id] == CandidateAt(p, limit, |id| - 1)
  {
    hide CandidateAt, VectorFor, Wanted, CandidateOf, Kept, Budget, OneWord;
    KeptIds(rows);
    var j :| 0 <= j < |rows| && rows[j].memory.id == id && Kept(rows)[id] == rows[j];
    assert rows[j] in InOrder(p, limit);
    var i :| 0 <= i < 257 && InOrder(p, limit)[i] == rows[j];
    CandidateOfRecord(p, limit, i);
    assert |Name(i)| == i + 1;
  }

  /** Rows that include the whole pool make the pool. */
  lemma PoolIsWitness(p: Policy, limit: nat, rows: seq<Record>)
    requires ValidPolicy(p) && Last(p, limit) < |rows| && Once(rows) && rows <= InOrder(p, limit)
    ensures PoolIn(OneWord(p, limit), Kept(rows)) == Witness(p, limit)
  {
    hide CandidateAt, RecordAt, Wanted, CandidateOf, Kept, OneWord, Budget, Name, Names, PoolIn, Witness, Last, Once,
        InOrder;
    var pool, expected := PoolIn(OneWord(p, limit), Kept(rows)), Witness(p, limit);
    forall id | id in pool ensures id in expected && expected[id] == pool[id] {
      PoolOfRows(p, limit, rows, id);
      InWitness(p, limit, |id| - 1);
    }
    forall id | id in expected ensures id in pool {
      WitnessId(p, limit, id);
      InPool(p, limit, rows, |id| - 1);
    }
  }

  lemma WitnessId(p: Policy, limit: nat, id: Id)
    requires ValidPolicy(p) && id in Witness(p, limit)
    ensures 0 < |id| && |id| - 1 <= Last(p, limit) && id == Name(|id| - 1)
  {
    hide CandidateAt, Name;
  }

  lemma InWitness(p: Policy, limit: nat, i: nat)
    requires ValidPolicy(p) && i <= Last(p, limit)
    ensures Name(i) in Witness(p, limit) && Witness(p, limit)[Name(i)] == CandidateAt(p, limit, i)
  {
    hide CandidateAt;
    WitnessAt(p, limit, i);
  }

  lemma InPool(p: Policy, limit: nat, rows: seq<Record>, i: nat)
    requires ValidPolicy(p) && Last(p, limit) < |rows| && Once(rows) && rows <= InOrder(p, limit) && i <= Last(p, limit)
    ensures Name(i) in PoolIn(OneWord(p, limit), Kept(rows))
  {
    hide CandidateAt, VectorFor, Wanted, CandidateOf, Kept, OneWord, Budget, Name;
    KeptAt(rows, i);
    CandidateOfRecord(p, limit, i);
  }

  /** In order, the last record shares a batch with all that crowd it out. */
  lemma LastIsMissed(p: Policy, limit: nat)
    requires ValidPolicy(p) && limit >= 1 && Last(p, limit) < 256
    ensures Recalled(OneWord(p, limit), InOrder(p, limit)) == Answer(p, 1, Witness(p, limit), limit)
  {
    hide Answer, Kept, OneWord, PoolIn, Witness, Budget, Best, RecordAt;
    var a, rows := OneWord(p, limit), InOrder(p, limit);
    InOrderOnce(p, limit);
    AskParts(p, limit);
    assert LastBatch(rows) == 256;
    OneBatchIsOneSearch(a, rows[..256]);
    PoolIsWitness(p, limit, rows[..256]);
    NothingInTail(p, limit, rows[256..]);
    EmptyPool(p, 1, limit);
    assert Answer(p, 1, Witness(p, limit), limit) + [] == Answer(p, 1, Witness(p, limit), limit);
    AnswerIsBest(p, Witness(p, limit), limit);
  }

  lemma AskParts(p: Policy, limit: nat)
    ensures
      var a := OneWord(p, limit);
      a.policy == p && a.limit == limit && |QueryWords(a)| == 1 && a.registry == OwnFields() && a.filter.None?
    ensures OneWord(p, limit).vector == [1.0, 0.0]
  {
    assert QueryWords(OneWord(p, limit)) == {"w"};
  }

  lemma NothingInTail(p: Policy, limit: nat, rows: seq<Record>)
    requires ValidPolicy(p) && Last(p, limit) < 256 && rows == InOrder(p, limit)[256..]
    ensures PoolIn(OneWord(p, limit), Kept(rows)) == map[]
  {
    hide CandidateAt, VectorFor, Wanted, CandidateOf, OneWord, Budget, Name, Kept;
    assert rows == [RecordAt(p, limit, 256)];
    KeptIds(rows);
    CandidateOfRecord(p, limit, 256);
  }

  lemma EmptyPool(p: Policy, words: nat, limit: nat)
    requires ValidPolicy(p)
    ensures Answer(p, words, map[], limit) == []
  {
    hide Top;
    var chosen := IdsOf(Top(Semantic(map[]), Budget(p, limit))) + MostWords(p, map[], limit);
    TopShape(Scored(p, words, map[], chosen), limit);
  }

  lemma AnswerIsBest(p: Policy, cs: Pool, limit: nat)
    requires ValidPolicy(p)
    ensures Best(Answer(p, 1, cs, limit), limit) == Answer(p, 1, cs, limit)
  {
    hide Best, Top, Scored, MostWords;
    BestOfTop(Scored(p, 1, cs, IdsOf(Top(Semantic(cs), Budget(p, limit))) + MostWords(p, cs, limit)), limit);
  }

  /** Moved to a batch of its own, it is found. */
  lemma LastIsFound(p: Policy, limit: nat)
    requires ValidPolicy(p) && limit >= 1 && Last(p, limit) < 256
    ensures Recalled(OneWord(p, limit), LastMoved(p, limit)) == FullAnswer(p, 1, Witness(p, limit), limit)
  {
    hide FullAnswer, Kept, OneWord, PoolIn, Witness, Budget, LastMoved, Recalled, RecordAt, Comparable, Covered;
    var a, rows, moved := OneWord(p, limit), InOrder(p, limit), LastMoved(p, limit);
    InOrderOnce(p, limit);
    LastMovedOnce(p, limit);
    AskParts(p, limit);
    assert rows[..257] == rows;
    PoolIsWitness(p, limit, rows);
    RowsComparable(p, limit, moved);
    MovedIsCovered(p, limit);
    RecallIsExact(a, moved);
  }

  lemma RowsComparable(p: Policy, limit: nat, rows: seq<Record>)
    requires ValidPolicy(p) && Once(rows) && Kept(rows) == Kept(InOrder(p, limit))
    ensures Comparable(OneWord(p, limit), Kept(rows))
  {
    hide Dot, Kept, CandidateAt, Name, Budget;
    UnitVectors();
    KeptIds(InOrder(p, limit));
  }

  lemma MovedIsCovered(p: Policy, limit: nat)
    requires ValidPolicy(p) && limit >= 1 && Last(p, limit) < 256
    ensures Covered(OneWord(p, limit), LastMoved(p, limit))
  {
    hide Kept, OneWord, PoolIn, LastMoved, RecordAt;
    var a, moved := OneWord(p, limit), LastMoved(p, limit);
    AskParts(p, limit);
    BudgetCoversLimit(p, limit);
    assert LastBatch(moved) == 256;
    KeptSize(moved[256..]);
    PoolSize(a, Kept(moved[256..]));
    LastMovedOnce(p, limit);
    HeadIsSmall(p, limit);
    assert LastBatch(moved[..256]) == 0;
    assert moved[..256][0..] == moved[..256] && moved[..256][..0] == [];
    assert Covered(a, []);
    assert Covered(a, moved[..256]);
  }

  lemma HeadIsSmall(p: Policy, limit: nat)
    requires ValidPolicy(p) && limit >= 1 && Last(p, limit) < 256 && Once(LastMoved(p, limit))
    ensures |PoolIn(OneWord(p, limit), Kept(LastMoved(p, limit)[..256]))| <= Last(p, limit)
  {
    hide Kept, OneWord, RecordAt, Budget, LastMoved, PoolIn;
    var moved, k := LastMoved(p, limit), Last(p, limit);
    var head := moved[..256];
    var pool := PoolIn(OneWord(p, limit), Kept(head));
    forall x | x in head ensures x in InOrder(p, limit) {
      assert x in moved;
      SameRows(p, limit, x);
    }
    forall id | id in pool ensures id in Names(0, k) {
      PoolOfRows(p, limit, head, id);
      LastNotInHead(p, limit, id);
    }
    Counting.SubsetSize(pool.Keys, Names(0, k));
  }

  lemma LastNotInHead(p: Policy, limit: nat, id: Id)
    requires ValidPolicy(p) && Last(p, limit) < 256 && Once(LastMoved(p, limit))
    requires id in PoolIn(OneWord(p, limit), Kept(LastMoved(p, limit)[..256]))
    ensures id != Name(Last(p, limit))
  {
    hide Kept, OneWord, CandidateAt, VectorFor, Wanted, CandidateOf, Budget, LastMoved, Name;
    var moved := LastMoved(p, limit);
    KeptIds(moved[..256]);
    LastMovedAt(p, limit, 256);
    var i :| 0 <= i < 256 && moved[..256][i].memory.id == id;
    assert moved[i].memory.id != moved[256].memory.id;
  }

  lemma FilledReads(p: Policy, limit: nat)
    requires ValidPolicy(p)
    ensures Runs.Retained(FilledState(p, limit)) == Kept(InOrder(p, limit))
      && Streams(InOrder(p, limit), FilledState(p, limit))
    ensures |Runs.Retained(FilledState(p, limit))| == 257
  {
    hide RecordAt, Name, Names, FilledRows, Kept, FilledRow;
    InOrderOnce(p, limit);
    KeptSize(InOrder(p, limit));
    FilledKeys(p, limit);
    FilledRetained(p, limit);
    forall i | 0 <= i < 257 ensures InOrder(p, limit)[i].memory.id in Names(0, 257) {
      RecordParts(p, limit, i);
      NameIsIn(i);
    }
  }

  lemma FilledRetained(p: Policy, limit: nat)
    requires ValidPolicy(p)
    ensures Runs.Retained(FilledState(p, limit)) == Kept(InOrder(p, limit))
  {
    hide RecordAt, Name, Names, FilledRows, Kept, FilledRow, Once;
    InOrderOnce(p, limit);
    FilledKeys(p, limit);
    forall id | id in FilledRows(p, limit) ensures RetainedInOrder(p, limit, id) {
      FilledRowsAt(p, limit, id);
      KeptAt(InOrder(p, limit), |id| - 1);
    }
    forall id | id in Kept(InOrder(p, limit)) ensures id in Names(0, 257) { NameInFilled(p, limit, id); }
  }

  ghost predicate RetainedInOrder(p: Policy, limit: nat, id: Id)
    requires ValidPolicy(p) && id in FilledRows(p, limit)
  {
    var row, kept := FilledRows(p, limit)[id], Kept(InOrder(p, limit));
    id in kept && kept[id] == Record(row.memory, row.embedding)
  }

  lemma NameInFilled(p: Policy, limit: nat, id: Id)
    requires ValidPolicy(p) && id in Kept(InOrder(p, limit))
    ensures id in Names(0, 257)
  {
    hide RecordAt, Budget, Name, Names, Kept;
    KeptIds(InOrder(p, limit));
    var i :| 0 <= i < 257 && InOrder(p, limit)[i].memory.id == id;
    RecordParts(p, limit, i);
    NameIsIn(i);
  }

  lemma MovedPlace(p: Policy, limit: nat, i: nat)
    requires ValidPolicy(p) && Last(p, limit) < 256 && i < 257
    ensures LastMoved(p, limit)[i].memory.id in Names(0, 257)
    ensures LastMoved(p, limit)[i].memory.id != Name(Last(p, limit)) <==> i < 256
  {
    hide RecordAt, Budget, Name, Names, LastMoved, Last;
    LastMovedAt(p, limit, i);
    var k := Last(p, limit);
    var j := if i < k then i else if i < 256 then i + 1 else k;
    RecordParts(p, limit, j);
    NameIsIn(j);
    if j != k { NamesDiffer(j, k); }
  }

  lemma ArchivedReads(p: Policy, limit: nat)
    requires ValidPolicy(p) && Last(p, limit) < 256
    ensures Streams(LastMoved(p, limit), Runs.ArchivePage(FilledState(p, limit), 1, 1))
  {
    hide RecordAt, Budget, Name, Names, Kept, LastMoved, Inv, Runs.ArchivePage, Runs.Retained, FilledState, Last;
    hide Once, InOrder, Runs.Reached, Telling, Runs.Run, Runs.Embedded, FilledRows;
    var s, t, moved := FilledState(p, limit), Runs.ArchivePage(FilledState(p, limit), 1, 1), LastMoved(p, limit);
    FilledIsReached(p, limit);
    Runs.ReachedIsSound(s);
    InvParts(s);
    Runs.RetentionIsTransparent(s, 1, 1);
    FilledReads(p, limit);
    LastMovedOnce(p, limit);
    ArchivedRows(p, limit);
    FilledKeys(p, limit);
    assert |t.rows.Keys| == 256;
    forall i | 0 <= i < 257 ensures moved[i].memory.id in t.rows <==> i < 256 { MovedPlace(p, limit, i); }
  }

  lemma FilledMeets(p: Policy, limit: nat, n: nat)
    requires ValidPolicy(p) && n >= 257 && Last(p, limit) < 257
    ensures Meets(OneWord(p, limit), FilledState(p, limit), p, limit, n)
  {
    hide Runs.Reached, Streams, FilledRows, Comparable, Kept, InOrder, Runs.Retained, OneWord, OwnFields, Built,
        SystemFields, Telling;
    FilledIsReached(p, limit);
    FilledReads(p, limit);
    RowsComparable(p, limit, InOrder(p, limit));
    AskParts(p, limit);
    OwnFieldsBuilt();
  }

  /** Beyond the condition there is a run to a state whose answer one archived record changes. */
  lemma BatchesShow(p: Policy, limit: nat, n: nat)
    requires ValidPolicy(p) && !Steady(p, limit, n)
    ensures
      var a, s := OneWord(p, limit), FilledState(p, limit);
      && Last(p, limit) < 256 && Meets(a, s, p, limit, n)
      && Streams(InOrder(p, limit), s) && Streams(LastMoved(p, limit), Runs.ArchivePage(s, 1, 1))
      && Recalled(a, InOrder(p, limit)) != Recalled(a, LastMoved(p, limit))
  {
    hide Meets, Streams, Recalled, Answer, FullAnswer, Witness, FilledState, OneWord, InOrder, LastMoved,
        Runs.ArchivePage, IdsOf;
    FilledMeets(p, limit, n);
    FilledReads(p, limit);
    ArchivedReads(p, limit);
    LastIsMissed(p, limit);
    LastIsFound(p, limit);
    LastIsInFull(p, limit);
    LastIsNotAnswered(p, limit);
  }

  lemma MetAreKeyed(a: Ask, s: State, p: Policy, limit: nat, n: nat)
    requires Meets(a, s, p, limit, n)
    ensures Keyed(s) && ValidPolicy(a.policy)
  {
    Runs.ReachedIsSound(s);
    InvParts(s);
  }

  lemma ReadsAreKept(rows: seq<Record>, s: State)
    requires Streams(rows, s)
    ensures Once(rows) && Kept(rows) == Runs.Retained(s)
  {
  }

  lemma UnarchivedReads(p: Policy, limit: nat)
    requires ValidPolicy(p) && Last(p, limit) < 256
    ensures Streams(LastMoved(p, limit), FilledState(p, limit))
  {
    hide RecordAt, Budget, Name, Names, Kept, LastMoved, Runs.Retained, FilledRows;
    FilledReads(p, limit);
    LastMovedOnce(p, limit);
    FilledKeys(p, limit);
    forall i | 0 <= i < 257 ensures LastMoved(p, limit)[i].memory.id in Names(0, 257) { MovedPlace(p, limit, i); }
  }

  lemma SteadyArchival(a: Ask, s: State, cutoff: int, page: nat, p: Policy, limit: nat, n: nat, x: seq<Record>,
                       y: seq<Record>)
    requires Steady(p, limit, n) && Meets(a, s, p, limit, n)
    requires Streams(x, s) && Streams(y, Runs.ArchivePage(s, cutoff, page))
    ensures ValidPolicy(a.policy) && Recalled(a, x) == Recalled(a, y)
  {
    hide Meets, Recalled, Runs.ArchivePage, Runs.Retained, Steady, Streams, Kept, Keyed, ValidPolicy;
    MetAreKeyed(a, s, p, limit, n);
    Runs.RetentionIsTransparent(s, cutoff, page);
    ReadsAreKept(x, s);
    ReadsAreKept(y, Runs.ArchivePage(s, cutoff, page));
    SteadyRecall(a, s, p, limit, n, x, y);
  }

  lemma SteadyOrder(a: Ask, s: State, p: Policy, limit: nat, n: nat, x: seq<Record>, y: seq<Record>)
    requires Steady(p, limit, n) && Meets(a, s, p, limit, n) && Streams(x, s) && Streams(y, s)
    ensures ValidPolicy(a.policy) && Recalled(a, x) == Recalled(a, y)
  {
    hide Meets, Recalled, Runs.Retained, Steady, Streams, Kept, Keyed, ValidPolicy;
    MetAreKeyed(a, s, p, limit, n);
    ReadsAreKept(x, s);
    ReadsAreKept(y, s);
    SteadyRecall(a, s, p, limit, n, x, y);
  }

  /** Archiving cannot be seen in historical recall exactly when everything fits one batch or the budget covers a
      batch. */
  lemma RecallIgnoresArchival(p: Policy, limit: nat, n: nat)
    requires ValidPolicy(p)
    ensures ArchivalUnseen(p, limit, n) <==> Steady(p, limit, n)
  {
    hide Meets, Recalled, FilledState, OneWord, InOrder, LastMoved, Runs.ArchivePage, Steady, Streams, ValidPolicy;
    if Steady(p, limit, n) {
      forall a, s, cutoff, page: nat, x, y
        | Meets(a, s, p, limit, n) && Streams(x, s) && Streams(y, Runs.ArchivePage(s, cutoff, page))
        ensures ValidPolicy(a.policy) && Recalled(a, x) == Recalled(a, y)
      {
        SteadyArchival(a, s, cutoff, page, p, limit, n, x, y);
      }
    } else {
      BatchesShow(p, limit, n);
    }
  }

  /** The same condition decides whether the order of the rows can be seen. */
  lemma RecallIgnoresOrder(p: Policy, limit: nat, n: nat)
    requires ValidPolicy(p)
    ensures OrderUnseen(p, limit, n) <==> Steady(p, limit, n)
  {
    hide Meets, Recalled, FilledState, OneWord, InOrder, LastMoved, Runs.ArchivePage, Steady, Streams, ValidPolicy;
    if Steady(p, limit, n) {
      forall a, s, x, y | Meets(a, s, p, limit, n) && Streams(x, s) && Streams(y, s)
        ensures ValidPolicy(a.policy) && Recalled(a, x) == Recalled(a, y)
      {
        SteadyOrder(a, s, p, limit, n, x, y);
      }
    } else {
      BatchesShow(p, limit, n);
      UnarchivedReads(p, limit);
    }
  }

  /** The shipped defaults are beyond it for every limit below 37. */
  lemma DefaultsShowBatches(limit: nat, n: nat)
    requires 0 < limit && n > 256
    ensures Steady(Policy(0.7, 0.3, 4, 40, 0.0), limit, n) <==> limit >= 37
  {
  }
}
