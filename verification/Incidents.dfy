/** Executions of the maintenance protocol (`memory_core/runtime/dreams.py`, `memory_core/memory/dream.py`) in which
    something happens that one might not expect: the owner's scan cursor moves back, and a scan moves on with as much
    before it as it had. */
module Incidents {
  import opened Types
  import opened Ordering
  import opened Fields
  import opened Store
  import opened Jobs
  import opened Protocol
  import Dream
  import Reconciliation
  import Runs

  /** Two writes start a consolidation, and nothing is applied without review. */
  function Cautious(batchSize: nat): Policy {
    Policy(1, 10, 1, 2, batchSize, false, false)
  }

  function Noted(id: Id): Memory {
    Memory(id, UserScope, Active, "noted", ["source"], map[], 0, 0, 1, None, Observed("noted", 0))
  }

  function Embedding(): Vector { [1.0] }

  function NoFields(): Registry { Registry(map[], map[]) }

  // ---------- two records and a pinned scan ----------

  function Empty(): State {
    State(0, 0, Key(0, ""), 0, map[], map[], NoFields(), [])
  }

  function OneRecord(): State {
    Put(Bump(Empty(), "create", ["a"], true), Noted("a"), Some(Embedding()), 1)
  }

  function TwoRecords(): State {
    Put(Bump(OneRecord(), "create", ["b"], true), Noted("b"), Some(Embedding()), 2)
  }

  function Started(): System {
    System(Empty(), map[], map[], map[], map[], map[], map[], map[], map[], [], [])
  }

  function Waiting(): System {
    Started().(store := TwoRecords(), jobs := map["j" := Fresh(DreamJob, None, Consolidation(None, false), 0)])
  }

  function Running(p: Policy): System {
    var a := Waiting();
    a.(jobs := map["j" := Leased(a.jobs["j"], "t", 0, p)], claims := map["t" := Claim("j", 1, Blank, Stage.Started)])
  }

  function Window(): Scan { Pin(TwoRecords(), "j") }

  function Scanning(p: Policy): System {
    var a := Running(p);
    a.(jobs := map["j" := a.jobs["j"].(payload := Consolidation(Some(Window()), false))],
       claims := map["t" := a.claims["t"].(stage := Pinned(Window()))],
       pins := map["j" := Window()])
  }

  lemma Plain(s: State, id: Id)
    requires s.registry == NoFields()
    ensures Built(s.registry) && Normal(s.registry.fields, Noted(id))
  {
  }

  lemma Creating(s: State, id: Id)
    requires Keyed(s) && s.registry == NoFields() && !Contains(s, id) && id != ""
    ensures
      var e := Runs.Event.Remember(Noted(id), Embedding(), Reconciliation.Create, {}, 0);
      && Runs.Admissible(e)
      && Runs.Commit(s, e) == Ok(Put(Bump(s, "create", [id], true), Noted(id), Some(Embedding()), s.generation + 1))
  {
    hide Keyed, Built, Normal;
    Plain(s, id);
    Runs.CreatingStores(s, Noted(id), Embedding(), 0);
  }

  lemma FirstWrite(p: Policy)
    requires ValidPolicy(p) && p.dreamAfterWrites == 2
    ensures Reachable(p, Started().(store := OneRecord()))
  {
    hide Runs.Commit, Reachable;
    var a, b := Started(), Started().(store := OneRecord());
    assert Start(a);
    ReachableStart(p, a);
    Creating(Empty(), "a");
    var e := Runs.Event.Remember(Noted("a"), Embedding(), Reconciliation.Create, {}, 0);
    assert Foregrounds(p, a, e, "j", 0, b);
    ReachableNext(p, a, Foreground(e, "j", 0), b);
  }

  lemma WaitingIsReachable(p: Policy)
    requires ValidPolicy(p) && p.dreamAfterWrites == 2
    ensures Reachable(p, Waiting())
  {
    hide Runs.Commit, Reachable, Noted;
    var b, c := Started().(store := OneRecord()), Waiting();
    FirstWrite(p);
    assert Noted("a").id == "a" && Noted("b").id == "b" by { Ids(); }
    Creating(OneRecord(), "b");
    var f := Runs.Event.Remember(Noted("b"), Embedding(), Reconciliation.Create, {}, 0);
    assert Foregrounds(p, b, f, "j", 0, c);
    ReachableNext(p, b, Foreground(f, "j", 0), c);
  }

  lemma Ids()
    ensures forall id :: Noted(id).id == id
  {
  }

  lemma ScanningIsReachable(p: Policy)
    requires ValidPolicy(p) && p.dreamAfterWrites == 2
    ensures Reachable(p, Scanning(p))
  {
    hide Reachable;
    var a, b, c := Waiting(), Running(p), Scanning(p);
    WaitingIsReachable(p);
    assert Swept(a.jobs, 0, p.maxAttempts) == a.jobs;
    assert Leases(p, a, "j", "t", 0, b);
    ReachableNext(p, a, Lease("j", "t", 0), b);
    assert Pins(p, b, "t", 0, c);
    ReachableNext(p, b, PinScan("t", 0), c);
  }

  // ---------- the cursor moves back ----------

  function A(): Key { Key(1, "a") }

  function B(): Key { Key(2, "b") }

  lemma Windows(s: State)
    requires s.rows == TwoRecords().rows
    ensures WindowKeys(s, Key(0, ""), 2) == {A(), B()} && WindowKeys(s, A(), 2) == {B()} && WindowKeys(s, B(), 2) == {}
    ensures KeyBelow(Key(0, ""), A()) && KeyBelow(A(), B()) && KeyBelow(Key(0, ""), B())
  {
    assert s.rows.Keys == {"a", "b"};
    assert forall k :: k in WindowKeys(s, Key(0, ""), 2) ==> k == A() || k == B();
    assert s.rows["a"].generation == 1 && s.rows["b"].generation == 2;
    assert KeyBelow(Key(0, ""), A()) && KeyBelow(Key(0, ""), B());
    KeyTrichotomy(A(), B());
    KeyTrichotomy(A(), A());
    KeyTrichotomy(B(), B());
  }

  lemma FirstOfTwo()
    ensures FirstKeys({A(), B()}, 1) == [A()] && FirstKeys({A(), B()}, 2) == [A(), B()]
  {
    assert KeyBelow(A(), B());
    KeyTrichotomy(A(), B());
    assert Least({A(), B()}) == A();
    assert {A(), B()} - {A()} == {B()};
    assert Least({B()}) == B();
    assert FirstKeys({B()}, 1) == [B()] by { assert {B()} - {B()} == {}; }
  }

  /** A request drafts a plan over one record ... */
  function ByHand(): Dream.SavedPlan {
    Dream.SavedPlan(2, A(), 2, [], [], false)
  }

  function Drafted(p: Policy): System {
    var a := Scanning(p);
    a.(handmade := map["m" := ByHand()], store := a.store.(dreamWrites := 2))
  }

  /** ... while the worker plans over both, with a change that needs a review, */
  function WorkersPlan(s: State): Plan {
    Plan(2, B(), [], [Dream.Change(Noted("c"), Reconciliation.Create)], false, Window(), [A(), B()], s)
  }

  function Saved(p: Policy): System {
    var a := Drafted(p);
    a.(plans := map["w" := WorkersPlan(a.store)], claims := map["t" := a.claims["t"].(stage := Planned("w"))])
  }

  /** offers it and moves the cursor past both; */
  function Offered(p: Policy): System {
    var a := Saved(p);
    var left := Finished(a.jobs["j"], Proposed, PlanOffered("w", 2, false));
    var s := a.store.(cursor := B());
    a.(store := s, jobs := map["j" := left.(payload := Consolidation(Some(Window()), true))],
       advances := [Advance("j", Key(0, ""), B(), 2, [A(), B()], a.store, s, false)])
  }

  /** then the plan made by hand is applied, at the generation it was made at. */
  function SetBack(p: Policy): System {
    var a := Offered(p);
    a.(store := Bump(a.store, "dream_applied", [], false).(cursor := A()), handmade :=
      map["m" := ByHand().(applied := true)])
  }

  lemma DraftedIsReachable(p: Policy)
    requires ValidPolicy(p) && p.dreamAfterWrites == 2
    ensures Reachable(p, Drafted(p))
  {
    hide Reachable, FirstKeys, WindowKeys;
    var a, b := Scanning(p), Drafted(p);
    ScanningIsReachable(p);
    Windows(a.store);
    FirstOfTwo();
    assert IsHandmade(a.store, 1, ByHand());
    assert DraftsByHand(a, "m", 1, ByHand(), b);
    ReachableNext(p, a, DraftByHand("m", 1, ByHand()), b);
  }

  lemma SavedIsReachable(p: Policy)
    requires ValidPolicy(p) && p.dreamAfterWrites == 2 && p.batchSize == 2
    ensures Reachable(p, Saved(p))
  {
    hide Reachable, FirstKeys, WindowKeys;
    var a, b := Drafted(p), Saved(p);
    DraftedIsReachable(p);
    Windows(a.store);
    FirstOfTwo();
    assert IsPlan(a.store, Window(), 2, WorkersPlan(a.store));
    assert Saves(p, a, "t", "w", WorkersPlan(a.store), b);
    ReachableNext(p, a, SavePlan("t", "w", WorkersPlan(a.store)), b);
  }

  function Left(p: Policy): Job {
    Finished(Saved(p).jobs["j"], Proposed, PlanOffered("w", 2, false))
  }

  lemma ScanEnds(p: Policy)
    requires ValidPolicy(p) && p.dreamAfterWrites == 2
    ensures
      var a, b := Saved(p), Offered(p);
      && Advanced(map["j" := Left(p)], a.store, "j", B(), p, "s", 0) == Progress(b.jobs, b.store)
      && LogEntry(map["j" := Left(p)], "j", WorkersPlan(a.store), b.store) == b.advances
  {
    hide WindowKeys;
    var a := Saved(p);
    Windows(a.store);
    Windows(Offered(p).store);
    assert Window().end == 2 && Window().cursor == Key(0, "") && Window().pass == "j";
    assert !More(a.store, 2, B());
  }

  lemma OfferedIsReachable(p: Policy)
    requires ValidPolicy(p) && p.dreamAfterWrites == 2 && p.batchSize == 2 && !p.applyExact && !p.applySemantic
    ensures Reachable(p, Offered(p))
  {
    hide Reachable, WindowKeys, Advanced, LogEntry;
    var a, b := Saved(p), Offered(p);
    SavedIsReachable(p);
    ScanEnds(p);
    assert Holding(a, "t", 0) && !Approved(a.claims["t"].result);
    assert !Automatic(p, a.plans["w"]);
    assert a.jobs["j" := Left(p)] == map["j" := Left(p)];
    assert OffersPlan(p, a, "t", "s", 0, b);
    ReachableNext(p, a, OfferPlan("t", "s", 0), b);
  }

  lemma NothingToChange(s: State)
    requires Keyed(s)
    ensures Dream.ApplyPlan(s, [], [], [], 0) == Ok(Bump(s, "dream_applied", [], false))
  {
  }

  lemma OfferedStore(p: Policy)
    ensures
      var s := Offered(p).store;
      && s == State(2, 2, B(), 2, TwoRecords().rows, map[], NoFields(), TwoRecords().audit) && Keyed(s)
      && Offered(p).handmade == map["m" := ByHand()]
  {
  }

  /** The owner's scan cursor moves back: a plan made by hand is applied after a worker, at the same generation, has
      offered one and moved the cursor further. */
  lemma CursorMovesBack()
    ensures
      var p := Cautious(2);
      var a, b, step := Offered(p), SetBack(p), ApplyByHand("m", [], 0);
      && Reachable(p, a) && Transition(p, a, step, b) && a.store.generation == ByHand().generation
      && KeyBelow(b.store.cursor, a.store.cursor)
  {
    hide Reachable, Dream.ApplyPlan, Keyed, Offered;
    var p := Cautious(2);
    var a, b := Offered(p), SetBack(p);
    OfferedIsReachable(p);
    OfferedStore(p);
    NothingToChange(a.store);
    assert Dream.ApplyByHand(a.store, ByHand(), [], 0) == Ok(b.store);
    assert AppliesByHand(a, "m", [], 0, b);
  }

  // ---------- a scan that moves on with as much before it ----------

  /** The worker plans over one record, */
  function NarrowPlan(s: State): Plan {
    Plan(2, A(), [], [Dream.Change(Noted("c"), Reconciliation.Create)], false, Window(), [A()], s)
  }

  function Planning(p: Policy): System {
    var a := Scanning(p);
    a.(plans := map["w" := NarrowPlan(a.store)], claims := map["t" := a.claims["t"].(stage := Planned("w"))])
  }

  /** which is then written again by a request that attaches evidence to it, */
  function Rewritten(): State {
    Put(Bump(TwoRecords(), "attach_evidence", ["c", "a"], true),
        Reconciliation.WithEvidence(Noted("a"), ["source"], 0), Some(Embedding()), 3)
  }

  function Attached(p: Policy): System {
    Planning(p).(store := Rewritten())
  }

  function Passed(): Advance {
    var at := Rewritten().(cursor := A());
    Advance("j", Key(0, ""), A(), 2, [A()], TwoRecords(), at, true)
  }

  /** before the plan is offered. */
  function MovedOn(p: Policy): System {
    var a := Attached(p);
    var left := Finished(a.jobs["j"], Proposed, PlanOffered("w", 2, false));
    a.(store := Passed().at, advances := [Passed()],
       jobs := map["j" := left.(payload := Consolidation(Some(Window()), true)),
                   "s" := Fresh(DreamJob, None, Consolidation(Some(Window().(cursor := A())), false), 0)])
  }

  lemma RewrittenWindows(s: State)
    requires s.rows == Rewritten().rows
    ensures WindowKeys(s, Key(0, ""), 2) == {B()} && WindowKeys(s, A(), 2) == {B()}
  {
    hide Reconciliation.MergedRefs;
    assert KeyBelow(Key(0, ""), B()) && KeyBelow(A(), B());
    assert s.rows.Keys == {"a", "b"} && s.rows["a"].generation == 3 && s.rows["b"].generation == 2;
    assert "b" in s.rows && Key(s.rows["b"].generation, "b") == B();
  }

  lemma Attaching()
    ensures
      var e := Runs.Event.Remember(Noted("c"), Embedding(), Reconciliation.Attach("a", 1), {"a"}, 0);
      Keyed(TwoRecords()) && Runs.Admissible(e) && Runs.Commit(TwoRecords(), e) == Ok(Rewritten())
  {
    hide Built, Normal, NormalizeMemory, Reconciliation.MergedRefs;
    var s := TwoRecords();
    Plain(s, "c");
    NormalizeIsIdentityOnStored(s.registry.fields, s.registry, Noted("c"));
    Runs.VisibleIsBacked(s);
    assert Visible(s)["a"] == Noted("a");
  }

  lemma PlannedIsReachable(p: Policy)
    requires ValidPolicy(p) && p.dreamAfterWrites == 2 && p.batchSize == 1
    ensures Reachable(p, Planning(p))
  {
    hide Reachable, FirstKeys, WindowKeys;
    var a, b := Scanning(p), Planning(p);
    ScanningIsReachable(p);
    Windows(a.store);
    FirstOfTwo();
    assert IsPlan(a.store, Window(), 1, NarrowPlan(a.store));
    assert Saves(p, a, "t", "w", NarrowPlan(a.store), b);
    ReachableNext(p, a, SavePlan("t", "w", NarrowPlan(a.store)), b);
  }

  lemma AttachedIsReachable(p: Policy)
    requires ValidPolicy(p) && p.dreamAfterWrites == 2 && p.batchSize == 1
    ensures Reachable(p, Attached(p))
  {
    hide Reachable, Runs.Commit, WindowKeys, Rewritten, Noted;
    var a, b := Planning(p), Attached(p);
    PlannedIsReachable(p);
    Attaching();
    assert a.jobs["j"].status == JobStatus.Running;
    var e := Runs.Event.Remember(Noted("c"), Embedding(), Reconciliation.Attach("a", 1), {"a"}, 0);
    assert Foregrounds(p, a, e, "s", 0, b);
    ReachableNext(p, a, Foreground(e, "s", 0), b);
  }

  lemma ScanContinues(p: Policy)
    requires ValidPolicy(p)
    ensures
      var a, b := Attached(p), MovedOn(p);
      var left := map["j" := Finished(a.jobs["j"], Proposed, PlanOffered("w", 2, false))];
      && Advanced(left, a.store, "j", A(), p, "s", 0) == Progress(b.jobs, b.store)
      && LogEntry(left, "j", NarrowPlan(TwoRecords()), b.store) == [Passed()]
  {
    hide WindowKeys, Rewritten;
    RewrittenWindows(Rewritten());
    RewrittenWindows(Passed().at);
    assert Window().end == 2 && Window().cursor == Key(0, "") && Window().pass == "j";
    assert KeyBelow(Key(0, ""), A());
    assert Rewritten().cursor == Key(0, "") by { RewrittenCursor(); }
  }

  lemma RewrittenCursor()
    ensures Rewritten().cursor == Key(0, "")
  {
  }

  lemma MovedOnIsReachable(p: Policy)
    requires ValidPolicy(p) && p.dreamAfterWrites == 2 && p.batchSize == 1 && !p.applyExact && !p.applySemantic
    ensures Reachable(p, MovedOn(p))
  {
    hide Reachable, WindowKeys, Advanced, LogEntry, Rewritten, Window;
    var a, b := Attached(p), MovedOn(p);
    AttachedIsReachable(p);
    ScanContinues(p);
    assert Holding(a, "t", 0) && !Approved(a.claims["t"].result);
    assert !Automatic(p, a.plans["w"]);
    var left := Finished(a.jobs["j"], Proposed, PlanOffered("w", 2, false));
    assert a.jobs["j" := left] == map["j" := left];
    assert OffersPlan(p, a, "t", "s", 0, b);
    ReachableNext(p, a, OfferPlan("t", "s", 0), b);
  }

  /** A scan moves on, and has as much before it as before. */
  lemma ScanMovesOnUnchanged()
    ensures
      var p, e := Cautious(1), Passed();
      && Reachable(p, MovedOn(p)) && e in MovedOn(p).advances && e.from != e.to
      && WindowKeys(e.at, e.from, e.end) == WindowKeys(e.at, e.to, e.end) == {B()}
  {
    hide Reachable, WindowKeys, Rewritten;
    MovedOnIsReachable(Cautious(1));
    RewrittenWindows(Passed().at);
  }
}
