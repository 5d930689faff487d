/** Evidence-bound answers (`memory_core/runtime/knowledge.py`) and the gaps of a task (`memory_core/runtime/core.py`):
    when an answer still stands, and on what. */
module Knowledge {
  import opened Types
  import opened Fields
  import opened Store
  import opened Runs

  type Time = int

  datatype Evidence = Evidence(id: string, uri: string, excerpt: string, observedAt: Time)

  datatype Gap = Gap(id: string, question: string, maxAge: nat)

  datatype Answer = Resolved(answer: string, evidence: seq<Evidence>) | Unresolved

  // ---------- citations ----------

  /** Decimal digits. */
  function Decimal(n: nat): (s: string)
    ensures s != "" && ':' !in s
  {
    var digit := ["0123456789"[n % 10]];
    if n < 10 then digit else Decimal(n / 10) + digit
  }

  /** The value of a text of digits. */
  function Value(s: string): int {
    if s == "" then 0 else 10 * Value(s[..|s| - 1]) + (s[|s| - 1] as int - '0' as int)
  }

  lemma {:induction false} DecimalIsTheNumber(n: nat)
    ensures Value(Decimal(n)) == n && (n > 0 ==> Decimal(n)[0] != '0')
    ensures forall c :: c in Decimal(n) ==> '0' <= c <= '9'
  {
    var s := Decimal(n);
    assert s[|s| - 1] == "0123456789"[n % 10];
    if n >= 10 {
      DecimalIsTheNumber(n / 10);
      assert s == Decimal(n / 10) + [s[|s| - 1]];
      assert s[..|s| - 1] == Decimal(n / 10);
    } else {
      assert s[..|s| - 1] == "";
    }
  }

  /** Reading a number back; what else it accepts is left open. */
  type Parser = string -> Option<int>

  ghost predicate ReadsDecimals(parse: Parser) {
    forall n: nat :: parse(Decimal(n)) == Some(n)
  }

  /** The evidence id a recalled memory is given. */
  function CitationOf(m: Memory): string
    requires m.revision >= 0
  {
    "memory:" + m.id + ":" + Decimal(m.revision)
  }

  function LastColon(s: string): (i: Option<nat>)
    ensures i.Some? ==> i.value < |s|
  {
    if s == "" then None
    else if s[|s| - 1] == ':' then Some(|s| - 1)
    else LastColon(s[..|s| - 1])
  }

  datatype Citation = Elsewhere | Malformed | Cites(id: Id, revision: int)

  /** `rsplit(":", 1)` and `int`; an id without the prefix cites something outside the store. */
  function Cited(parse: Parser, id: string): Citation {
    if |id| < 7 || id[..7] != "memory:" then Elsewhere
    else
      var rest := id[7..];
      match LastColon(rest)
      case None => Malformed
      case Some(i) =>
        match parse(rest[i + 1..])
        case None => Malformed
        case Some(n) => Cites(rest[..i], n)
  }

  lemma {:induction false} LastColonAt(head: string, tail: string)
    requires ':' !in tail
    ensures LastColon(head + ":" + tail) == Some(|head|)
    decreases tail
  {
    var s := head + ":" + tail;
    if tail != "" {
      var n := |tail| - 1;
      assert s[..|s| - 1] == head + ":" + tail[..n];
      assert s[|s| - 1] == tail[n];
      LastColonAt(head, tail[..n]);
    }
  }

  /** A citation leads back to the id and revision it was made from, whatever colons the id contains. */
  lemma CitationsReadBack(parse: Parser, m: Memory)
    requires ReadsDecimals(parse) && m.revision >= 0
    ensures Cited(parse, CitationOf(m)) == Cites(m.id, m.revision)
  {
    var id := CitationOf(m);
    var rest := id[7..];
    assert id[..7] == "memory:";
    assert rest == m.id + ":" + Decimal(m.revision);
    LastColonAt(m.id, Decimal(m.revision));
    assert rest[|m.id| + 1..] == Decimal(m.revision) && rest[..|m.id|] == m.id;
  }

  /** An id without the prefix cites nothing of the store, and one with it always something or nothing sensible. */
  lemma PrefixDecides(parse: Parser, rest: string, id: string)
    ensures !Cited(parse, "memory:" + rest).Elsewhere?
    ensures |id| < 7 || id[..7] != "memory:" ==> Cited(parse, id).Elsewhere?
    ensures ':' !in rest ==> Cited(parse, "memory:" + rest).Malformed?
  {
    var full := "memory:" + rest;
    assert full[..7] == "memory:" && full[7..] == rest;
    var colon := LastColon(rest);
    if colon.Some? { LastColonIsOne(rest); }
  }

  lemma {:induction false} LastColonIsOne(s: string)
    requires LastColon(s).Some?
    ensures ':' in s
  {
    if s[|s| - 1] != ':' { LastColonIsOne(s[..|s| - 1]); }
  }

  // ---------- when an answer stands ----------

  predicate Timely(gap: Gap, e: Evidence, now: Time) {
    0 <= now - e.observedAt <= gap.maxAge
  }

  /** `is_current` for a citation of a stored memory: live, active, at the cited revision. */
  predicate StillCurrent(s: State, id: Id, revision: int) {
    id in s.rows && s.rows[id].memory.revision == revision && s.rows[id].memory.status == Active
  }

  /** Evidence accepted as current still names exactly the cited content. */
  lemma CurrentEvidenceIsTheCitedContent(states: seq<State>, i: nat, j: nat, id: Id, cited: Memory)
    requires Run(states) && i <= j < |states|
    requires id in states[i].rows && states[i].rows[id].memory == cited
    requires StillCurrent(states[j], id, cited.revision)
    ensures states[j].rows[id].memory == cited
  {
    hide Run;
    assert All(states[i])[id] == cited && All(states[j])[id] == states[j].rows[id].memory;
    RevisionNamesOnePayload(states, i, j, id);
  }

  lemma StaleStays(a: State, b: State, c: State, id: Id, revision: int)
    requires Keyed(b) && Typed(b) && Keyed(c) && Evolves(a, b) && Evolves(b, c)
    requires StillCurrent(a, id, revision) && !StillCurrent(b, id, revision)
    ensures !StillCurrent(c, id, revision)
  {
    hide Built, Normal;
    assert id in All(a) && id in All(b) && id in All(c);
  }

  /** Once stale, a citation never becomes current again. */
  lemma StalenessIsPermanent(states: seq<State>, i: nat, k: nat, j: nat, id: Id, revision: int)
    requires Run(states) && i <= k <= j < |states|
    requires StillCurrent(states[i], id, revision) && !StillCurrent(states[k], id, revision)
    ensures !StillCurrent(states[j], id, revision)
  {
    hide Run, Later, Evolves, Inv, StillCurrent, Keyed, Typed;
    RunAdvances(states, i, k);
    RunAdvances(states, k, j);
    RunInv(states, k);
    RunInv(states, j);
    InvParts(states[k]);
    InvParts(states[j]);
    StaleStays(states[i], states[k], states[j], id, revision);
  }

  /** One piece of evidence still stands: it cites something outside the store, or a memory that is still what it
      was. */
  predicate CitationStands(parse: Parser, s: State, id: string) {
    match Cited(parse, id)
    case Elsewhere => true
    case Malformed => false
    case Cites(memory, revision) => StillCurrent(s, memory, revision)
  }

  ghost predicate StillStands(parse: Parser, s: State, gap: Gap, answer: Option<Answer>, now: Time) {
    && answer.Some? && answer.value.Resolved?
    && (forall e :: e in answer.value.evidence ==> Timely(gap, e, now))
    && forall e :: e in answer.value.evidence ==> CitationStands(parse, s, e.id)
  }

  /** `is_fresh`. */
  method IsFresh(gap: Gap, answer: Option<Answer>, now: Time) returns (ok: bool)
    ensures ok <==>
      && answer.Some? && answer.value.Resolved?
      && forall e :: e in answer.value.evidence ==> e.observedAt <= now && now - e.observedAt <= gap.maxAge
  {
    if answer.None? || !answer.value.Resolved? { return false; }
    ok := forall e :: e in answer.value.evidence ==> Timely(gap, e, now);
  }

  /** `is_current`: fresh, and every citation of a memory names a live, active row at the revision cited. */
  method IsCurrent(parse: Parser, s: State, gap: Gap, answer: Option<Answer>, now: Time) returns (ok: bool)
    ensures ok <==> StillStands(parse, s, gap, answer, now)
  {
    var timely := IsFresh(gap, answer, now);
    if !timely { return false; }
    var evidence := answer.value.evidence;
    for i := 0 to |evidence|
      invariant forall j :: 0 <= j < i ==> CitationStands(parse, s, evidence[j].id)
    {
      var cited := Cited(parse, evidence[i].id);
      if cited.Elsewhere? { continue; }
      if cited.Malformed? { return false; }
      if cited.id !in s.rows { return false; }
      var memory := s.rows[cited.id].memory;
      if memory.revision != cited.revision || memory.status != Active { return false; }
    }
    ok := true;
  }

  /** An answer stands exactly while it is resolved, no piece of its evidence is from the future or older than the gap
      allows, and each piece that cites a memory cites a live, active row at its present revision. */
  lemma StandsMeaning(parse: Parser, s: State, gap: Gap, answer: Option<Answer>, now: Time)
    ensures StillStands(parse, s, gap, answer, now) <==>
      && answer.Some? && answer.value.Resolved?
      && forall e :: e in answer.value.evidence ==>
           && e.observedAt <= now <= e.observedAt + gap.maxAge && !Cited(parse, e.id).Malformed?
           && (Cited(parse, e.id).Cites? ==>
                 && var id := Cited(parse, e.id).id;
                 && id in s.rows && s.rows[id].memory.status == Active
                 && s.rows[id].memory.revision == Cited(parse, e.id).revision)
  {
  }

  /** What a task asks, with the answer recorded so far. */
  type Gaps = map<string, (Gap, Option<Answer>)>

  ghost predicate AllStand(parse: Parser, s: State, gaps: Gaps, now: Time) {
    forall id :: id in gaps ==> StillStands(parse, s, gaps[id].0, gaps[id].1, now)
  }

  /** `assert_gaps`: a task may be completed, and a guarded context handed out, only if every gap is current. */
  method AssertGaps(parse: Parser, s: State, gaps: Gaps, now: Time) returns (ok: bool)
    ensures ok <==> AllStand(parse, s, gaps, now)
  {
    var rest := gaps.Keys;
    while rest != {}
      invariant rest <= gaps.Keys
      invariant forall id :: id in gaps.Keys - rest ==> StillStands(parse, s, gaps[id].0, gaps[id].1, now)
      decreases rest
    {
      var id :| id in rest;
      var current := IsCurrent(parse, s, gaps[id].0, gaps[id].1, now);
      if !current { return false; }
      rest := rest - {id};
    }
    ok := true;
  }

  /** The check before an answer is recorded: none of the memories it was given has changed since they were recalled. */
  method Unchanged(s: State, candidates: seq<Memory>, evidence: seq<Evidence>) returns (ok: bool)
    requires forall m :: m in candidates ==> m.revision >= 0
    ensures ok <==> forall m, e ::
      m in candidates && e in evidence && e.id == CitationOf(m) ==> StillCurrent(s, m.id, m.revision)
  {
    hide Decimal;
    var snapshots: map<string, Memory> := map[];
    for i := 0 to |candidates|
      invariant forall j :: 0 <= j < i ==> CitationOf(candidates[j]) in snapshots
      invariant forall id :: id in snapshots ==> snapshots[id] in candidates && CitationOf(snapshots[id]) == id
    {
      snapshots := snapshots[CitationOf(candidates[i]) := candidates[i]];
    }
    for i := 0 to |evidence|
      invariant forall j :: 0 <= j < i && evidence[j].id in snapshots ==>
        StillCurrent(s, snapshots[evidence[j].id].id, snapshots[evidence[j].id].revision)
    {
      if evidence[i].id !in snapshots { continue; }
      var original := snapshots[evidence[i].id];
      if !StillCurrent(s, original.id, original.revision) {
        assert evidence[i] in evidence && evidence[i].id == CitationOf(original);
        return false;
      }
    }
    forall m, e | m in candidates && e in evidence && e.id == CitationOf(m) ensures StillCurrent(s, m.id, m.revision) {
      SameCitation(m, snapshots[e.id]);
    }
    ok := true;
  }

  lemma {:induction false} DecimalsDiffer(m: nat, n: nat)
    requires Decimal(m) == Decimal(n)
    ensures m == n
  {
    var x, y := Decimal(m), Decimal(n);
    assert m % 10 == n % 10 by {
      assert x[|x| - 1] == "0123456789"[m % 10] && y[|y| - 1] == "0123456789"[n % 10];
    }
    DecimalLength(m);
    DecimalLength(n);
    if m >= 10 && n >= 10 {
      assert x[..|x| - 1] == Decimal(m / 10) && y[..|y| - 1] == Decimal(n / 10);
      DecimalsDiffer(m / 10, n / 10);
    }
  }

  lemma DecimalLength(n: nat)
    ensures |Decimal(n)| == 1 <==> n < 10
  {
  }

  /** Memories with one citation are one version of one record. */
  lemma SameCitation(m: Memory, n: Memory)
    requires m.revision >= 0 && n.revision >= 0 && CitationOf(m) == CitationOf(n)
    ensures m.id == n.id && m.revision == n.revision
  {
    hide Decimal;
    var x, y := CitationOf(m)[7..], CitationOf(n)[7..];
    assert x == m.id + ":" + Decimal(m.revision) && y == n.id + ":" + Decimal(n.revision);
    LastColonAt(m.id, Decimal(m.revision));
    LastColonAt(n.id, Decimal(n.revision));
    assert x[..|m.id|] == m.id && y[..|n.id|] == n.id;
    assert x[|m.id| + 1..] == Decimal(m.revision) && y[|n.id| + 1..] == Decimal(n.revision);
    DecimalsDiffer(m.revision, n.revision);
  }

  // ---------- over a run ----------

  /** An answer that passes `is_current` stands on exactly what its citations named when they were made. */
  lemma CurrentAnswersStandOnCitedContent(parse: Parser, states: seq<State>, i: nat, j: nat, gap: Gap, answer: Answer,
                                          now: Time, m: Memory, e: Evidence)
    requires ReadsDecimals(parse) && Run(states) && i <= j < |states|
      && StillStands(parse, states[j], gap, Some(answer), now)
    requires m.id in states[i].rows && states[i].rows[m.id].memory == m && m.revision >= 0
    requires e in answer.evidence && e.id == CitationOf(m)
    ensures m.id in states[j].rows && states[j].rows[m.id].memory == m && m.status == Active
  {
    hide Run, Decimal, ReadsDecimals, Cited, CitationOf;
    CitationsReadBack(parse, m);
    assert CitationStands(parse, states[j], e.id);
    CurrentEvidenceIsTheCitedContent(states, i, j, m.id, m);
  }

  lemma FreshnessRunsOut(gap: Gap, e: Evidence, first: Time, middle: Time, last: Time)
    requires first <= middle <= last && Timely(gap, e, first) && !Timely(gap, e, middle)
    ensures !Timely(gap, e, last)
  {
  }

  /** An answer that stood and stands no more never does again, whatever is stored and however long one waits. */
  lemma StaleAnswersStayStale(parse: Parser, states: seq<State>, i: nat, k: nat, j: nat, gap: Gap, answer: Answer,
                              first: Time, middle: Time, last: Time)
    requires Run(states) && i <= k <= j < |states| && first <= middle <= last
    requires StillStands(parse, states[i], gap, Some(answer), first)
      && !StillStands(parse, states[k], gap, Some(answer), middle)
    ensures !StillStands(parse, states[j], gap, Some(answer), last)
  {
    hide Run, StillCurrent;
    if e :| e in answer.evidence && !Timely(gap, e, middle) {
      FreshnessRunsOut(gap, e, first, middle, last);
    } else {
      var e :| e in answer.evidence && !CitationStands(parse, states[k], e.id);
      var cited := Cited(parse, e.id);
      assert CitationStands(parse, states[i], e.id);
      StalenessIsPermanent(states, i, k, j, cited.id, cited.revision);
    }
  }
}
