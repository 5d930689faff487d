/** Dream scans are finite and do not fork: the batches of one pass follow one another without gap or overlap, so every
    record that stays put is read exactly once, and no record is read twice. */
module Scans {
  import opened Types
  import opened Counting
  import opened Ordering
  import opened Store
  import opened Jobs
  import opened Protocol
  import opened Fencing
  import opened Reviews
  import Dream
  import Remember
  import Runs
  import Effects
  import Fields
  import Reconciliation

  // ---------- the history of one pass ----------

  function PassLog(log: seq<Advance>, pass: JobId): seq<Advance> {
    if log == [] then []
    else PassLog(log[..|log| - 1], pass) + (if log[|log| - 1].pass == pass then [log[|log| - 1]] else [])
  }

  lemma PassLogOneMore(log: seq<Advance>, e: Advance, pass: JobId)
    ensures PassLog(log + [e], pass) == PassLog(log, pass) + (if e.pass == pass then [e] else [])
  {
    assert (log + [e])[..|log + [e]| - 1] == log;
  }

  lemma {:induction false} PassLogMembers(log: seq<Advance>, pass: JobId, e: Advance)
    ensures e in PassLog(log, pass) <==> e in log && e.pass == pass
  {
    if log != [] {
      var n := |log| - 1;
      PassLogMembers(log[..n], pass, e);
      assert log == log[..n] + [log[n]];
    }
  }

  /** One batch: the first records of the window read at `basis`, the cursor at the last of them, and whether anything
      of the window was left when the scan moved on. */
  ghost predicate EntryOk(e: Advance, size: nat) {
    && e.batch == FirstKeys(WindowKeys(e.basis, e.from, e.end), size)
    && e.to == (if e.batch == [] then e.from else e.batch[|e.batch| - 1])
    && e.more == More(e.at, e.end, e.to)
    && e.end <= e.basis.generation
  }

  /** Each batch starts where the one before it ended, and only the last may find nothing left. */
  ghost predicate Chain(l: seq<Advance>, size: nat) {
    && (forall i :: 0 <= i < |l| ==> EntryOk(l[i], size))
    && (forall i :: 0 <= i < |l| - 1 ==> l[i + 1].from == l[i].to && l[i + 1].end == l[i].end && l[i].more)
  }

  /** An open window continues its pass: from the last batch, or from the pin if there was none yet. */
  ghost predicate Continues(l: seq<Advance>, scan: Scan, pin: Scan) {
    && (l != [] ==> l[|l| - 1].more && l[|l| - 1].to == scan.cursor && l[|l| - 1].end == scan.end)
    && (l == [] ==> scan == pin)
  }

  /** The first batch starts at what was pinned. */
  ghost predicate Begins(l: seq<Advance>, pin: Scan) {
    l != [] ==> l[0].from == pin.cursor && l[0].end == pin.end
  }

  /** Jobs that have pinned a window and not moved it on yet. */
  function Open(jobs: Table): map<JobId, Scan> {
    map id | id in jobs && jobs[id].payload.Consolidation? && jobs[id].payload.scan.Some?
      && !jobs[id].payload.continued ::
      jobs[id].payload.scan.value
  }

  /** Jobs that pinned a window of their own. */
  function Roots(jobs: Table): set<JobId> {
    set id | id in jobs && (jobs[id].payload.Compacted?
                            || (jobs[id].payload.Consolidation? && jobs[id].payload.scan.Some?
                              && jobs[id].payload.scan.value.pass == id))
  }

  ghost predicate Threaded(open: map<JobId, Scan>, log: seq<Advance>, pins: map<JobId, Scan>, size: nat) {
    && (forall pass :: Chain(PassLog(log, pass), size))
    && (forall pass :: pass in pins ==> Begins(PassLog(log, pass), pins[pass]))
    && (forall id :: id in open ==>
          open[id].pass in pins && Continues(PassLog(log, open[id].pass), open[id], pins[open[id].pass]))
    && (forall x, y :: x in open && y in open && open[x].pass == open[y].pass ==> x == y)
    && (forall i :: 0 <= i < |log| ==> log[i].pass in pins)
  }

  // ---------- three ways a step moves scans ----------

  lemma QuietMove(open: map<JobId, Scan>, log: seq<Advance>, pins: map<JobId, Scan>, size: nat, open': map<JobId, Scan>)
    requires Threaded(open, log, pins, size)
    requires forall id :: id in open' ==> id in open && open'[id] == open[id]
    ensures Threaded(open', log, pins, size)
  {
    hide Chain, Continues, Begins;
  }

  lemma NotInLog(log: seq<Advance>, pins: map<JobId, Scan>, pass: JobId)
    requires (forall i :: 0 <= i < |log| ==> log[i].pass in pins) && pass !in pins
    ensures PassLog(log, pass) == []
  {
    if PassLog(log, pass) != [] {
      var e := PassLog(log, pass)[0];
      PassLogMembers(log, pass, e);
    }
  }

  /** Pinning starts a pass that nothing belongs to yet. */
  lemma PinMove(open: map<JobId, Scan>, log: seq<Advance>, pins: map<JobId, Scan>, size: nat, id: JobId, scan: Scan,
                open': map<JobId, Scan>)
    requires Threaded(open, log, pins, size) && id !in pins && scan.pass == id
    requires forall x :: x in open' ==> if x == id then open'[x] == scan else x in open && open'[x] == open[x]
    ensures Threaded(open', log, pins[id := scan], size)
  {
    hide Chain;
    NotInLog(log, pins, id);
  }

  lemma ChainGrows(l: seq<Advance>, e: Advance, scan: Scan, pin: Scan, size: nat)
    requires Chain(l, size) && Continues(l, scan, pin) && EntryOk(e, size) && e.from == scan.cursor && e.end == scan.end
    requires Begins(l, pin)
    ensures Chain(l + [e], size) && Begins(l + [e], pin)
  {
    hide EntryOk;
  }

  /** Moving on closes the job, appends its batch to the pass, and opens at most one successor at the new cursor. */
  lemma AdvanceMove(open: map<JobId, Scan>, log: seq<Advance>, pins: map<JobId, Scan>, size: nat, id: JobId, e: Advance,
                    spare: JobId, open': map<JobId, Scan>)
    requires Threaded(open, log, pins, size) && id in open && spare !in open && spare != id
    requires EntryOk(e, size) && e.pass == open[id].pass && e.from == open[id].cursor && e.end == open[id].end
    requires forall x :: x in open' ==>
      if x == spare then e.more && open'[x] == open[id].(cursor := e.to)
          else x != id && x in open && open'[x] == open[x]
    ensures Threaded(open', log + [e], pins, size)
  {
    hide Chain, EntryOk, PassLog, Continues, Begins;
    forall pass
      ensures Chain(PassLog(log + [e], pass), size) && (pass in pins ==> Begins(PassLog(log + [e], pass), pins[pass]))
    {
      ChainAfter(open[id], log, size, e, pass, pins);
    }
    forall x | x in open'
      ensures open'[x].pass in pins && Continues(PassLog(log + [e], open'[x].pass), open'[x], pins[open'[x].pass])
    {
      PassLogOneMore(log, e, open'[x].pass);
      if x == spare {
        MovedContinues(PassLog(log, e.pass), e, open[id], pins[e.pass]);
      } else {
        assert open[x].pass != e.pass;
        assert PassLog(log + [e], open[x].pass) == PassLog(log, open[x].pass);
      }
    }
  }

  lemma ChainAfter(scan: Scan, log: seq<Advance>, size: nat, e: Advance, pass: JobId, pins: map<JobId, Scan>)
    requires Chain(PassLog(log, pass), size) && Chain(PassLog(log, e.pass), size) && e.pass in pins
    requires EntryOk(e, size) && e.from == scan.cursor && e.end == scan.end
    requires Continues(PassLog(log, e.pass), scan, pins[e.pass]) && Begins(PassLog(log, e.pass), pins[e.pass])
    requires pass in pins ==> Begins(PassLog(log, pass), pins[pass])
    ensures Chain(PassLog(log + [e], pass), size) && (pass in pins ==> Begins(PassLog(log + [e], pass), pins[pass]))
  {
    hide Chain, EntryOk, PassLog, Continues, Begins;
    PassLogOneMore(log, e, pass);
    ChainGrows(PassLog(log, e.pass), e, scan, pins[e.pass], size);
    if pass != e.pass { assert PassLog(log + [e], pass) == PassLog(log, pass); }
  }

  lemma MovedContinues(l: seq<Advance>, e: Advance, scan: Scan, pin: Scan)
    requires e.more && e.end == scan.end
    ensures Continues(l + [e], scan.(cursor := e.to), pin)
  {
  }

  ghost predicate SystemThreaded(p: Policy, a: System) {
    Threaded(Open(a.jobs), a.advances, a.pins, p.batchSize) && a.pins.Keys <= Roots(a.jobs)
  }

  // ---------- each step ----------

  /** No window opens, none moves, roots only grow. */
  lemma QuietStep(p: Policy, a: System, b: System)
    requires SystemThreaded(p, a) && Grows(a.jobs, b.jobs) && b.advances == a.advances && b.pins == a.pins
    requires forall id ::
      id in b.jobs && id !in a.jobs ==>
      b.jobs[id].payload.Evidence? || (b.jobs[id].payload.Consolidation? && b.jobs[id].payload.scan.None?)
    requires forall id ::
      id in a.jobs && id in b.jobs && a.jobs[id].payload.Consolidation? && a.jobs[id].payload.scan.None? ==>
      b.jobs[id].payload.Compacted? || (b.jobs[id].payload.Consolidation? && b.jobs[id].payload.scan.None?)
    ensures SystemThreaded(p, b)
  {
    hide Threaded;
    forall id | id in Open(b.jobs) ensures id in Open(a.jobs) && Open(b.jobs)[id] == Open(a.jobs)[id] {
      if id in a.jobs { assert RowGrows(a.jobs[id], b.jobs[id]); }
    }
    forall id | id in Roots(a.jobs) ensures id in Roots(b.jobs) { assert RowGrows(a.jobs[id], b.jobs[id]); }
    QuietMove(Open(a.jobs), a.advances, a.pins, p.batchSize, Open(b.jobs));
  }

  lemma PinThreads(p: Policy, a: System, token: Token, now: Time, b: System)
    requires SystemThreaded(p, a) && Pins(p, a, token, now, b)
    ensures SystemThreaded(p, b)
  {
    hide Threaded, Pin;
    var id := JobOf(a, token);
    var scan := b.jobs[id].payload.scan.value;
    assert b.jobs.Keys == a.jobs.Keys;
    if a.jobs[id].payload.scan.Some? {
      assert b.jobs == a.jobs;
    } else {
      PinsOwnPass(a.store, id);
      assert id in Roots(b.jobs) && id !in Roots(a.jobs);
      forall x | x in Roots(a.jobs) ensures x in Roots(b.jobs) { assert x != id; }
      PinMove(Open(a.jobs), a.advances, a.pins, p.batchSize, id, scan, Open(b.jobs));
    }
  }

  lemma PinsOwnPass(s: State, id: JobId)
    ensures Pin(s, id).pass == id
  {
  }

  lemma PlanEntry(plan: Plan, s: State, at: State, size: nat)
    requires PlanOk(plan, s, size)
    ensures EntryOk(Advance(plan.scan.pass, plan.scan.cursor, plan.cursor, plan.scan.end, plan.batch, plan.basis, at,
      More(at, plan.scan.end, plan.cursor)), size)
  {
    hide Inv, Store.Later, WindowKeys;
  }

  lemma AccountsKeepWindows(s: State, t: State, cursor: Key, end: nat)
    requires s.rows == t.rows
    ensures More(s, end, cursor) == More(t, end, cursor)
  {
    assert WindowKeys(s, cursor, end) == WindowKeys(t, cursor, end);
  }

  /** Finishing a dream job with `advance`, whichever way it finishes. */
  lemma AdvanceThreads(p: Policy, a: System, id: JobId, status: JobStatus, result: JobResult, plan: Plan, s: State,
                       spare: JobId, now: Time, b: System)
    requires SystemThreaded(p, a) && id in a.jobs && spare !in a.jobs && Fits(a.jobs[id], plan)
      && PlanOk(plan, a.store, p.batchSize)
    requires
      var finished := a.jobs[id := Finished(a.jobs[id], status, result)];
      var progress := Advanced(finished, s, id, plan.cursor, p, spare, now);
      b.jobs == progress.jobs && b.pins == a.pins
        && b.advances == a.advances + LogEntry(finished, id, plan, progress.store)
    ensures SystemThreaded(p, b)
  {
    hide Threaded, EntryOk, WindowKeys, PlanOk;
    var payload := a.jobs[id].payload;
    if payload.continued {
      assert b.advances == a.advances;
      assert Open(b.jobs) == Open(a.jobs) && Roots(b.jobs) == Roots(a.jobs);
    } else {
      var finished := a.jobs[id := Finished(a.jobs[id], status, result)];
      var progress := Advanced(finished, s, id, plan.cursor, p, spare, now);
      var e := LogEntry(finished, id, plan, progress.store)[0];
      PlanEntry(plan, a.store, progress.store, p.batchSize);
      AccountsKeepWindows(s, progress.store, plan.cursor, plan.scan.end);
      OpenAfterAdvance(p, a.jobs, id, status, result, plan, s, spare, now);
      AdvanceMove(Open(a.jobs), a.advances, a.pins, p.batchSize, id, e, spare, Open(b.jobs));
    }
  }

  lemma OpenAfterAdvance(p: Policy, jobs: Table, id: JobId, status: JobStatus, result: JobResult, plan: Plan, s: State,
                         spare: JobId, now: Time)
    requires id in jobs && spare !in jobs && jobs[id].payload == Consolidation(Some(plan.scan), false)
    ensures
      var after := Advanced(jobs[id := Finished(jobs[id], status, result)], s, id, plan.cursor, p, spare, now).jobs;
      && Roots(jobs) <= Roots(after)
      && (forall x :: x in Open(after) ==>
            if x == spare then More(s, plan.scan.end, plan.cursor)
                && Open(after)[x] == plan.scan.(cursor := plan.cursor)
            else x != id && x in Open(jobs) && Open(after)[x] == Open(jobs)[x])
  {
    hide More, DreamWaiting;
  }

  lemma ApplyThreads(p: Policy, a: System, token: Token, vectors: seq<Vector>, spare: JobId, now: Time, b: System)
    requires Guarded(p, a) && Reads(p, a) && SystemThreaded(p, a) && AppliesPlan(p, a, token, vectors, spare, now, b)
    ensures SystemThreaded(p, b)
  {
    hide Guarded, Inv, PlansOk, RowsRead, ClaimsRead, Advanced, Dream.ApplyPlan, Applies, LogEntry, SystemThreaded,
        PlanOk;
    var id :| AppliesThis(p, a, token, id, vectors, spare, now, b);
    var plan := a.plans[id];
    PlannerFits(p, a, token, now, id);
    PlanAt(a.plans, a.store, p.batchSize, id);
    AdvanceThreads(p, a, JobOf(a, token), Done, Consolidated(id), plan,
      Dream.ApplyPlan(a.store, plan.groups, plan.changes, vectors, now).value, spare, now, b);
  }

  lemma OfferThreads(p: Policy, a: System, token: Token, spare: JobId, now: Time, b: System)
    requires Guarded(p, a) && Reads(p, a) && SystemThreaded(p, a) && OffersPlan(p, a, token, spare, now, b)
    ensures SystemThreaded(p, b)
  {
    hide Guarded, Inv, PlansOk, RowsRead, ClaimsRead, Advanced, Applies, LogEntry, SystemThreaded, Automatic, PlanOk;
    var id := a.claims[token].stage.plan;
    var plan := a.plans[id];
    PlannerFits(p, a, token, now, id);
    PlanAt(a.plans, a.store, p.batchSize, id);
    AdvanceThreads(p, a, JobOf(a, token), Proposed, PlanOffered(id, plan.generation, false), plan, a.store, spare, now,
      b);
  }

  /** Steps other than pinning and moving on neither pin nor unpin anything. */
  lemma QuietRows(p: Policy, a: System, step: Step, b: System)
    requires Transition(p, a, step, b) && !step.PinScan? && !step.ApplyPlan? && !step.OfferPlan?
    ensures b.advances == a.advances && b.pins == a.pins
    ensures forall id ::
      id in b.jobs && id !in a.jobs ==>
      b.jobs[id].payload.Evidence? || (b.jobs[id].payload.Consolidation? && b.jobs[id].payload.scan.None?)
    ensures forall id ::
      id in a.jobs && id in b.jobs && a.jobs[id].payload.Consolidation? && a.jobs[id].payload.scan.None? ==>
      b.jobs[id].payload.Compacted? || (b.jobs[id].payload.Consolidation? && b.jobs[id].payload.scan.None?)
  {
    hide DraftsByHand, AppliesByHand;
    hide StoresCapture, DraftsCapture, Foregrounds, IsPlan, Leases, Sweeps, Captures, OffersCapture, GivesUp;
    match step
    case StoreCapture(_, _, _, _, _, _) => QuietStores(p, a, step, b);
    case DraftCapture(_, _, _, _, _) => QuietStores(p, a, step, b);
    case Foreground(_, _, _) => QuietStores(p, a, step, b);
    case Lease(_, _, _) => QuietLeases(p, a, step, b);
    case Sweep(_) => QuietLeases(p, a, step, b);
    case Capture(_, _, _, _, _) => QuietCaptures(p, a, step, b);
    case OfferCapture(_, _) => QuietCaptures(p, a, step, b);
    case GiveUp(_, _) => QuietCaptures(p, a, step, b);
    case DraftByHand(_, _, _) => ByHandKeepsTables(p, a, step, b);
    case ApplyByHand(_, _, _) => ByHandKeepsTables(p, a, step, b);
    case _ =>
  }

  lemma QuietCaptures(p: Policy, a: System, step: Step, b: System)
    requires Transition(p, a, step, b) && (step.Capture? || step.OfferCapture? || step.GiveUp?)
    ensures b.advances == a.advances && b.pins == a.pins && a.jobs.Keys <= b.jobs.Keys
    ensures forall id :: id in a.jobs ==> b.jobs[id].payload == a.jobs[id].payload
    ensures forall id :: id in b.jobs && id !in a.jobs ==> b.jobs[id].payload.Evidence?
  {
  }

  lemma QuietLeases(p: Policy, a: System, step: Step, b: System)
    requires Transition(p, a, step, b) && (step.Lease? || step.Sweep?)
    ensures b.advances == a.advances && b.pins == a.pins && b.jobs.Keys == a.jobs.Keys
    ensures forall id :: id in a.jobs ==> b.jobs[id].payload == a.jobs[id].payload
  {
  }

  lemma QuietStores(p: Policy, a: System, step: Step, b: System)
    requires Transition(p, a, step, b) && (step.StoreCapture? || step.DraftCapture? || step.Foreground?)
    ensures b.advances == a.advances && b.pins == a.pins && a.jobs.Keys <= b.jobs.Keys
    ensures forall id :: id in a.jobs ==> b.jobs[id].payload == a.jobs[id].payload
    ensures forall id :: id in b.jobs && id !in a.jobs ==> b.jobs[id].payload == Consolidation(None, false)
  {
    hide Persists, Permitted, Runs.Commit, DreamWaiting;
    if step.StoreCapture? {
      var t :| Persists(a, step.token, step.vector, step.inspection, step.decision, step.now, t)
            && StoresThis(p, a, step.token, step.inspection, step.decision, step.spare, step.now, t, b);
    }
  }

  lemma StepThreads(p: Policy, a: System, step: Step, b: System)
    requires ValidPolicy(p) && Guarded(p, a) && Reads(p, a) && SystemThreaded(p, a) && Transition(p, a, step, b)
    ensures SystemThreaded(p, b)
  {
    hide Guarded, Reads, SystemThreaded, Fencing.Kept, Pins, AppliesPlan, OffersPlan, StoresCapture, Grows, Leases,
         Foregrounds, Captures, Sweeps;
    if step.PinScan? {
      PinThreads(p, a, step.token, step.now, b);
    } else if step.ApplyPlan? {
      ApplyThreads(p, a, step.token, step.vectors, step.spare, step.now, b);
    } else if step.OfferPlan? {
      OfferThreads(p, a, step.token, step.spare, step.now, b);
    } else {
      StepKeeps(p, a, step, b);
      KeptGrows(p, a, b);
      QuietRows(p, a, step, b);
      QuietStep(p, a, b);
    }
  }

  lemma StartThreaded(p: Policy, a: System)
    requires Start(a)
    ensures SystemThreaded(p, a)
  {
    hide Runs.Initial;
  }

  lemma {:induction false} AlwaysThreaded(p: Policy, systems: seq<System>, steps: seq<Step>, k: nat)
    requires Execution(p, systems, steps) && k < |systems|
    ensures SystemThreaded(p, systems[k])
  {
    hide Transition, Start, SystemThreaded, Reads, Guarded;
    if k == 0 {
      StartThreaded(p, systems[0]);
    } else {
      AlwaysThreaded(p, systems, steps, k - 1);
      Effects.AlwaysGuarded(p, systems, steps, k - 1);
      AlwaysReads(p, systems, steps, k - 1);
      StepThreads(p, systems[k - 1], steps[k - 1], systems[k]);
    }
  }

  // ---------- every record once ----------

  lemma EntryMoves(e: Advance, size: nat)
    requires EntryOk(e, size)
    ensures AtOrAfter(e.from, e.to)
    ensures forall k ::
      k in e.batch ==> KeyBelow(e.from, k) && AtOrAfter(k, e.to) && k in WindowKeys(e.basis, e.from, e.end)
  {
    hide WindowKeys, FirstKeys;
    var keys := WindowKeys(e.basis, e.from, e.end);
    FirstKeysIsSegment(keys, size);
    assert forall k :: k in e.batch ==> k in keys;
    InWindow(e.basis, e.from, e.end);
    forall k | k in e.batch ensures KeyBelow(e.from, k) && AtOrAfter(k, e.to) {
      var i :| 0 <= i < |e.batch| && e.batch[i] == k;
    }
    if e.batch != [] { assert e.batch[|e.batch| - 1] in e.batch; }
  }

  lemma InWindow(s: State, from: Key, end: nat)
    ensures forall k :: k in WindowKeys(s, from, end) <==>
      k.id in s.rows && s.rows[k.id].generation == k.generation && k.generation <= end && KeyBelow(from, k)
  {
  }

  lemma AtOrAfterTransitive(a: Key, b: Key, c: Key)
    requires AtOrAfter(a, b) && AtOrAfter(b, c)
    ensures AtOrAfter(a, c)
  {
    if a != b && b != c { KeyTransitive(a, b, c); }
  }

  lemma {:induction false} CursorsAdvance(l: seq<Advance>, size: nat, i: nat, j: nat)
    requires Chain(l, size) && i < j < |l|
    ensures AtOrAfter(l[i].to, l[j].from) && l[j].end == l[i].end
    decreases j
  {
    hide EntryOk;
    assert l[(j - 1) + 1].from == l[j - 1].to;
    if i < j - 1 {
      CursorsAdvance(l, size, i, j - 1);
      EntryMoves(l[j - 1], size);
      AtOrAfterTransitive(l[i].to, l[j - 1].from, l[j - 1].to);
    }
  }

  /** A record read twice below the same bound has not changed in between. */
  lemma SameVersion(s: State, t: State, id: Id, end: nat)
    requires Store.Later(s, t) || Store.Later(t, s)
    requires end <= s.generation && end <= t.generation
    requires id in s.rows && s.rows[id].generation <= end && id in t.rows && t.rows[id].generation <= end
    ensures s.rows[id] == t.rows[id]
  {
  }

  /** No record lies in two batches of a pass: read once, it is either behind the cursor or changed, and so past the
      end. */
  lemma BatchesAreDisjoint(l: seq<Advance>, size: nat, i: nat, j: nat, id: Id)
    requires Chain(l, size) && i < j < |l| && id in Runs.Ids(l[i].batch)
    requires Store.Later(l[i].basis, l[j].basis) || Store.Later(l[j].basis, l[i].basis)
    ensures id !in Runs.Ids(l[j].batch)
  {
    hide Store.Later, WindowKeys;
    CursorsAdvance(l, size, i, j);
    EntryMoves(l[i], size);
    EntryMoves(l[j], size);
    InWindow(l[i].basis, l[i].from, l[i].end);
    InWindow(l[j].basis, l[j].from, l[j].end);
    var x :| 0 <= x < |l[i].batch| && l[i].batch[x].id == id;
    var k := l[i].batch[x];
    assert k in l[i].batch;
    if id in Runs.Ids(l[j].batch) {
      var y :| 0 <= y < |l[j].batch| && l[j].batch[y].id == id;
      var m := l[j].batch[y];
      assert m in l[j].batch;
      SameVersion(l[i].basis, l[j].basis, id, l[i].end);
      assert k == m;
      AtOrAfterTransitive(k, l[i].to, l[j].from);
      KeyTrichotomy(l[j].from, m);
      assert false;
    }
  }

  /** The record with this key is there, unmodified. */
  predicate Stays(s: State, k: Key) {
    k.id in s.rows && s.rows[k.id].generation == k.generation
  }

  lemma {:induction false} CoveredFrom(l: seq<Advance>, size: nat, k: Key, i: nat) returns (at: nat)
    requires Chain(l, size) && size > 0 && i < |l| && !l[|l| - 1].more
    requires KeyBelow(l[i].from, k) && k.generation <= l[i].end
    requires Stays(l[|l| - 1].at, k) && forall j :: 0 <= j < |l| ==> Stays(l[j].basis, k)
    ensures i <= at < |l| && k in l[at].batch
    decreases |l| - i
  {
    hide WindowKeys, FirstKeys;
    var e := l[i];
    var keys := WindowKeys(e.basis, e.from, e.end);
    InWindow(e.basis, e.from, e.end);
    FirstKeysIsSegment(keys, size);
    if k in e.batch { return i; }
    assert Stays(e.basis, k);
    assert k in keys;
    assert e.batch != [];
    assert e.to in e.batch;
    assert KeyBelow(e.to, k);
    if i == |l| - 1 {
      InWindow(e.at, e.to, e.end);
      assert false;
    } else {
      assert l[i + 1].from == l[i].to;
      at := CoveredFrom(l, size, k, i + 1);
    }
  }

  // ---------- bases are states of the execution ----------

  ghost predicate WasState(systems: seq<System>, k: nat, s: State) {
    exists i :: 0 <= i <= k && i < |systems| && systems[i].store == s
  }

  lemma BasesStep(p: Policy, a: System, step: Step, b: System)
    requires Transition(p, a, step, b)
    ensures forall id ::
      id in b.plans ==> b.plans[id].basis == a.store || (id in a.plans && a.plans[id].basis == b.plans[id].basis)
    ensures forall e ::
      e in b.advances ==>
      e in a.advances || (e.at == b.store && exists id :: id in a.plans && a.plans[id].basis == e.basis)
  {
    hide AppliesPlan, OffersPlan, StoresCapture, DraftsCapture, Foregrounds, Leases, Sweeps, Pins, Batch, DraftsByHand,
        AppliesByHand, Captures, OffersCapture, GivesUp;
    match step
    case ApplyPlan(_, _, _, _) => DreamBases(p, a, step, b);
    case OfferPlan(_, _, _) => DreamBases(p, a, step, b);
    case StoreCapture(_, _, _, _, _, _) => OtherBases(p, a, step, b);
    case DraftCapture(_, _, _, _, _) => OtherBases(p, a, step, b);
    case Foreground(_, _, _) => OtherBases(p, a, step, b);
    case Lease(_, _, _) => OtherBases(p, a, step, b);
    case Sweep(_) => OtherBases(p, a, step, b);
    case PinScan(_, _) => OtherBases(p, a, step, b);
    case DraftByHand(_, _, _) => ByHandKeepsTables(p, a, step, b);
    case ApplyByHand(_, _, _) => ByHandKeepsTables(p, a, step, b);
    case Capture(_, _, _, _, _) => OtherBases(p, a, step, b);
    case OfferCapture(_, _) => OtherBases(p, a, step, b);
    case GiveUp(_, _) => OtherBases(p, a, step, b);
    case _ =>
  }

  lemma DreamBases(p: Policy, a: System, step: Step, b: System)
    requires Transition(p, a, step, b) && (step.ApplyPlan? || step.OfferPlan?)
    ensures forall id :: id in b.plans ==> id in a.plans && a.plans[id].basis == b.plans[id].basis
    ensures forall e ::
      e in b.advances ==>
      e in a.advances || (e.at == b.store && exists id :: id in a.plans && a.plans[id].basis == e.basis)
  {
    hide Dream.ApplyPlan, Automatic, Advanced, Applies, More;
    if step.ApplyPlan? {
      var id :| AppliesThis(p, a, step.token, id, step.vectors, step.spare, step.now, b);
    }
  }

  lemma OtherBases(p: Policy, a: System, step: Step, b: System)
    requires Transition(p, a, step, b)
    requires step.StoreCapture? || step.DraftCapture? || step.Foreground? || step.Lease? || step.Sweep? || step.PinScan?
      || step.Capture? || step.OfferCapture? || step.GiveUp?
    ensures b.plans == a.plans && b.advances == a.advances
  {
    hide Persists, Permitted, Runs.Commit, Scheduled, Swept, FirstReady, Pin;
  }

  lemma {:induction false} BasesAreStates(p: Policy, systems: seq<System>, steps: seq<Step>, k: nat)
    requires Execution(p, systems, steps) && k < |systems|
    ensures forall id :: id in systems[k].plans ==> WasState(systems, k, systems[k].plans[id].basis)
    ensures forall e :: e in systems[k].advances ==> WasState(systems, k, e.basis)
  {
    hide Transition, Runs.Initial;
    if k > 0 {
      BasesAreStates(p, systems, steps, k - 1);
      BasesStep(p, systems[k - 1], steps[k - 1], systems[k]);
      assert WasState(systems, k, systems[k - 1].store);
      forall s | WasState(systems, k - 1, s) ensures WasState(systems, k, s) { }
      forall e | e in systems[k].advances ensures WasState(systems, k, e.basis) {
        if e !in systems[k - 1].advances {
          var id :| id in systems[k - 1].plans && systems[k - 1].plans[id].basis == e.basis;
        }
      }
    }
  }

  lemma StatesCompare(p: Policy, systems: seq<System>, steps: seq<Step>, k: nat, s: State, t: State)
    requires Execution(p, systems, steps) && k < |systems| && WasState(systems, k, s) && WasState(systems, k, t)
    ensures Store.Later(s, t) || Store.Later(t, s)
  {
    hide Execution, Store.Later;
    var i :| 0 <= i <= k && i < |systems| && systems[i].store == s;
    var j :| 0 <= j <= k && j < |systems| && systems[j].store == t;
    if i <= j { StoresAreLater(p, systems, steps, i, j); } else { StoresAreLater(p, systems, steps, j, i); }
  }

  /** A finite, non-forking scan: in every execution, no record is read by two batches of one pass. */
  lemma NoRecordIsReadTwice(p: Policy, systems: seq<System>, steps: seq<Step>, k: nat, pass: JobId, i: nat, j: nat,
                            id: Id)
    requires Execution(p, systems, steps) && k < |systems|
    requires i < |PassLog(systems[k].advances, pass)| && j < |PassLog(systems[k].advances, pass)|
    requires id in Runs.Ids(PassLog(systems[k].advances, pass)[i].batch)
      && id in Runs.Ids(PassLog(systems[k].advances, pass)[j].batch)
    ensures i == j
  {
    hide Execution, Store.Later, Chain, Runs.Ids;
    AlwaysThreaded(p, systems, steps, k);
    BasesAreStates(p, systems, steps, k);
    var l := PassLog(systems[k].advances, pass);
    PassLogMembers(systems[k].advances, pass, l[i]);
    PassLogMembers(systems[k].advances, pass, l[j]);
    StatesCompare(p, systems, steps, k, l[i].basis, l[j].basis);
    if i < j {
      BatchesAreDisjoint(l, p.batchSize, i, j, id);
    } else if j < i {
      BatchesAreDisjoint(l, p.batchSize, j, i, id);
    }
  }

  lemma StepPins(p: Policy, a: System, step: Step, b: System, pass: JobId)
    requires Transition(p, a, step, b) && pass in b.pins
    ensures (pass in a.pins && b.pins[pass] == a.pins[pass]) || b.pins[pass] == Pin(a.store, pass)
  {
    hide Leases, Sweeps, IsPlan, DraftsCapture, OffersCapture, GivesUp, Captures, Protocol.Reviews, Retries, Pin;
    hide Persists, Permitted, Runs.Commit, DreamWaiting, Advanced, Dream.ApplyPlan, Applies, LogEntry, Automatic,
        Scheduled;
    if !step.PinScan? && !step.ApplyPlan? && !step.OfferPlan? { QuietRows(p, a, step, b); }
  }

  /** What a pass pinned is the window of a state it was pinned in. */
  lemma {:induction false} PinsAreWindows(p: Policy, systems: seq<System>, steps: seq<Step>, k: nat, pass: JobId)
    requires Execution(p, systems, steps) && k < |systems| && pass in systems[k].pins
    ensures exists j: nat :: j <= k && systems[k].pins[pass] == Pin(systems[j].store, pass)
  {
    hide Transition, Pin, Runs.Initial;
    if k > 0 {
      StepPins(p, systems[k - 1], steps[k - 1], systems[k], pass);
      if pass in systems[k - 1].pins && systems[k].pins[pass] == systems[k - 1].pins[pass] {
        PinsAreWindows(p, systems, steps, k - 1, pass);
      } else {
        assert k - 1 <= k && systems[k].pins[pass] == Pin(systems[k - 1].store, pass);
      }
    }
  }

  lemma WindowMember(s: State, pass: JobId, key: Key)
    requires key in Pin(s, pass).window
    ensures KeyBelow(Pin(s, pass).cursor, key) && key.generation <= Pin(s, pass).end
  {
  }

  lemma PinnedWindow(p: Policy, systems: seq<System>, steps: seq<Step>, k: nat, pass: JobId, key: Key)
    requires Execution(p, systems, steps) && k < |systems| && PassLog(systems[k].advances, pass) != []
    requires pass in systems[k].pins ==> key in systems[k].pins[pass].window
    ensures
      var first := PassLog(systems[k].advances, pass)[0];
      KeyBelow(first.from, key) && key.generation <= first.end
  {
    hide Start, Transition, Chain, Pin, Open, Roots, Continues, PassLog;
    AlwaysThreaded(p, systems, steps, k);
    PassLogMembers(systems[k].advances, pass, PassLog(systems[k].advances, pass)[0]);
    PinsAreWindows(p, systems, steps, k, pass);
    var j: nat :| j <= k && systems[k].pins[pass] == Pin(systems[j].store, pass);
    WindowMember(systems[j].store, pass, key);
  }

  /** ... and when a pass has found nothing left, every record of the window it pinned that was still there, unmodified,
      whenever a batch was read and at the end, is in exactly one batch. */
  lemma EveryRecordIsReadOnce(p: Policy, systems: seq<System>, steps: seq<Step>, k: nat, pass: JobId, key: Key)
      returns (at: nat)
    requires Execution(p, systems, steps) && k < |systems| && pass in systems[k].pins
      && key in systems[k].pins[pass].window
    requires
      var l := PassLog(systems[k].advances, pass);
      && l != [] && !l[|l| - 1].more
      && Stays(l[|l| - 1].at, key) && forall j :: 0 <= j < |l| ==> Stays(l[j].basis, key)
    ensures
      var l := PassLog(systems[k].advances, pass);
      && at < |l| && key in l[at].batch
      && forall j :: 0 <= j < |l| && j != at ==> key.id !in Runs.Ids(l[j].batch)
  {
    hide Start, Transition, Chain, Stays, Pin, Open, Roots, Continues, PassLog;
    AlwaysThreaded(p, systems, steps, k);
    PinnedWindow(p, systems, steps, k, pass, key);
    var l := PassLog(systems[k].advances, pass);
    at := CoveredFrom(l, p.batchSize, key, 0);
    assert key.id in Runs.Ids(l[at].batch) by {
      var x :| 0 <= x < |l[at].batch| && l[at].batch[x] == key;
    }
    forall j | 0 <= j < |l| && j != at ensures key.id !in Runs.Ids(l[j].batch) {
      if key.id in Runs.Ids(l[j].batch) { NoRecordIsReadTwice(p, systems, steps, k, pass, at, j, key.id); }
    }
  }

  // ---------- what a scan still has before it ----------

  lemma EntriesStep(p: Policy, systems: seq<System>, steps: seq<Step>, k: nat, e: Advance)
    requires Execution(p, systems, steps) && k < |steps| && e in systems[k + 1].advances && e !in systems[k].advances
    ensures Store.Later(e.basis, e.at)
  {
    hide Start, Transition, Reads, Guarded, Store.Later, PlansOk, RowsRead, ClaimsRead, HandmadeOk;
    TransitionAt(p, systems, steps, k);
    BasesStep(p, systems[k], steps[k], systems[k + 1]);
    var id :| id in systems[k].plans && systems[k].plans[id].basis == e.basis;
    AlwaysReads(p, systems, steps, k);
    PlanIsLater(p, systems[k], id);
    StepIsLater(p, systems, steps, k);
    LaterTransitive(e.basis, systems[k].store, e.at);
  }

  lemma PlanIsLater(p: Policy, a: System, id: PlanId)
    requires Reads(p, a) && id in a.plans
    ensures Store.Later(a.plans[id].basis, a.store)
  {
    hide Inv, RowsRead, ClaimsRead, Store.Later, IsPlan, ScanOk;
    PlanAt(a.plans, a.store, p.batchSize, id);
  }

  lemma {:induction false} EntriesAreLater(p: Policy, systems: seq<System>, steps: seq<Step>, k: nat, e: Advance)
    requires Execution(p, systems, steps) && k < |systems| && e in systems[k].advances
    ensures Store.Later(e.basis, e.at)
  {
    hide Transition, Store.Later;
    if k > 0 {
      if e in systems[k - 1].advances {
        EntriesAreLater(p, systems, steps, k - 1, e);
      } else {
        EntriesStep(p, systems, steps, k - 1, e);
      }
    }
  }

  /** What the cursor passes is what is left of the batch. */
  lemma PassedIsBatch(e: Advance, size: nat, k: Key)
    requires EntryOk(e, size) && Store.Later(e.basis, e.at)
    ensures k in WindowKeys(e.at, e.from, e.end) && k !in WindowKeys(e.at, e.to, e.end)
      <==> k in e.batch && Stays(e.at, k)
  {
    hide Store.Later, FirstKeys;
    var window := WindowKeys(e.basis, e.from, e.end);
    FirstKeysIsSegment(window, size);
    WindowShrinks(e.basis, e.at, e.from, e.end);
    if k in WindowKeys(e.at, e.from, e.end) {
      assert Stays(e.at, k);
      KeyTrichotomy(e.to, k);
      if e.batch == [] {
        assert e.to == e.from;
      } else {
        assert e.to in e.batch;
        if k in e.batch { LastIsGreatest(e.batch, k); }
      }
    } else if k in e.batch {
      assert k in window;
    }
  }

  lemma LastIsGreatest(keys: seq<Key>, k: Key)
    requires Increasing(keys) && k in keys
    ensures k == keys[|keys| - 1] || KeyBelow(k, keys[|keys| - 1])
  {
  }

  /** In every execution: when a scan moves on, what it still has before it falls exactly when some record of the batch
      is still as it was read; a batch whose records have all been written or retired since leaves it as it was. */
  lemma LiveWindowFallsExactly(p: Policy, systems: seq<System>, steps: seq<Step>, k: nat, e: Advance)
    requires Execution(p, systems, steps) && k < |systems| && e in systems[k].advances
    ensures WindowKeys(e.at, e.to, e.end) <= WindowKeys(e.at, e.from, e.end)
    ensures |WindowKeys(e.at, e.to, e.end)| < |WindowKeys(e.at, e.from, e.end)| <==>
      exists key :: key in e.batch && Stays(e.at, key)
  {
    hide Execution, Store.Later, EntryOk, Stays, Chain, WindowKeys;
    EntriesAreLater(p, systems, steps, k, e);
    EntryIsOk(p, systems, steps, k, e);
    EntryNarrows(e, p.batchSize);
    var before, after := WindowKeys(e.at, e.from, e.end), WindowKeys(e.at, e.to, e.end);
    SubsetSize(after, before);
    if key :| key in e.batch && Stays(e.at, key) {
      PassedIsBatch(e, p.batchSize, key);
    } else {
      forall key | key in before ensures key in after { PassedIsBatch(e, p.batchSize, key); }
      assert before == after;
    }
  }

  lemma EntryIsOk(p: Policy, systems: seq<System>, steps: seq<Step>, k: nat, e: Advance)
    requires Execution(p, systems, steps) && k < |systems| && e in systems[k].advances
    ensures EntryOk(e, p.batchSize)
  {
    hide Execution, EntryOk, Continues, Begins, Open, Roots;
    AlwaysThreaded(p, systems, steps, k);
    PassLogMembers(systems[k].advances, e.pass, e);
    var l := PassLog(systems[k].advances, e.pass);
    var i :| 0 <= i < |l| && l[i] == e;
    assert Chain(l, p.batchSize);
  }

  lemma EntryNarrows(e: Advance, size: nat)
    requires EntryOk(e, size)
    ensures WindowKeys(e.at, e.to, e.end) <= WindowKeys(e.at, e.from, e.end)
  {
    hide FirstKeys;
    if e.batch != [] { assert e.to in WindowKeys(e.basis, e.from, e.end); }
    WindowNarrows(e.at, e.from, e.to, e.end);
  }

  /** However often a job is retried, reclaimed or approved late, at most one unfinished window exists per pass, and it
      continues where the pass stands. */
  lemma PassesDoNotFork(p: Policy, systems: seq<System>, steps: seq<Step>, k: nat, x: JobId, y: JobId)
    requires Execution(p, systems, steps) && k < |systems| && x in Open(systems[k].jobs) && y in Open(systems[k].jobs)
    requires Open(systems[k].jobs)[x].pass == Open(systems[k].jobs)[y].pass
    ensures x == y
    ensures
      var scan := Open(systems[k].jobs)[x];
      scan.pass in systems[k].pins
        && Continues(PassLog(systems[k].advances, scan.pass), scan, systems[k].pins[scan.pass])
  {
    hide Execution, Chain, Continues, Open, Roots;
    AlwaysThreaded(p, systems, steps, k);
  }

  lemma CommitKeepsCursor(s: State, e: Runs.Event)
    requires Inv(s) && Keyed(s) && Runs.Admissible(e) && Runs.Commit(s, e).Ok? && !e.Account?
    ensures Runs.Commit(s, e).value.cursor == s.cursor
  {
    hide Inv, Dream.ApplyPlan, Fields.NormalizeMemory, Fields.Register, Reconciliation.Objection, FirstKeys,
         Reconciliation.Kept, Runs.Expired;
    match e
    case Consolidate(groups, changes, vectors, now) => Dream.PlanKeeps(s, groups, changes, vectors, now);
    case _ =>
  }

  lemma AdvanceKeepsOrMoves(jobs: Table, s: State, id: JobId, cursor: Key, p: Policy, spare: JobId, now: Time)
    requires id in jobs
    ensures AtOrAfter(s.cursor, Advanced(jobs, s, id, cursor, p, spare, now).store.cursor)
  {
    hide More, Scheduled;
  }

  /** The owner's scan cursor moves back exactly when a plan that ends before it is applied by hand; no worker ever
      moves it back, nor does any other request. */
  lemma CursorMovesBackOnlyByHand(p: Policy, a: System, step: Step, b: System)
    requires Reads(p, a) && Transition(p, a, step, b)
    ensures step.ApplyByHand? ==> SavedAs(a, step.id).Some? && b.store.cursor == SavedAs(a, step.id).value.cursor
    ensures AtOrAfter(a.store.cursor, b.store.cursor) <==>
      !(step.ApplyByHand? && KeyBelow(SavedAs(a, step.id).value.cursor, a.store.cursor))
  {
    hide AtOrAfter, Transition;
    if step.ApplyByHand? {
      ByHandMovesCursor(p, a, step, b);
    } else {
      CursorMovesForward(p, a, step, b);
    }
  }

  lemma ByHandMovesCursor(p: Policy, a: System, step: Step, b: System)
    requires Transition(p, a, step, b) && step.ApplyByHand?
    ensures SavedAs(a, step.id).Some? && b.store.cursor == SavedAs(a, step.id).value.cursor
    ensures AtOrAfter(a.store.cursor, b.store.cursor) <==> !KeyBelow(SavedAs(a, step.id).value.cursor, a.store.cursor)
  {
    hide Dream.ApplyPlan, Keyed, SavedAs;
    KeyTrichotomy(SavedAs(a, step.id).value.cursor, a.store.cursor);
  }

  lemma CursorMovesForward(p: Policy, a: System, step: Step, b: System)
    requires Reads(p, a) && Transition(p, a, step, b) && !step.ApplyByHand?
    ensures AtOrAfter(a.store.cursor, b.store.cursor)
  {
    hide DraftsByHand, AppliesByHand;
    hide Scheduled, Swept, Permitted, MemoryOf, Automatic, Runs.Commit, Inv, Pin, IsPlan, Persists, Advanced,
         Dream.ApplyPlan, Store.Later;
    hide PlansOk, RowsRead, ClaimsRead, PlanOk, AppliesPlan, OffersPlan, LogEntry;
    match step
    case ApplyPlan(token, vectors, spare, now) => ApplyMovesForward(p, a, step, b);
    case OfferPlan(token, spare, now) => OfferMovesForward(p, a, step, b);
    case StoreCapture(token, vector, i, d, spare, now) =>
      var t :| Persists(a, token, vector, i, d, now, t) && StoresThis(p, a, token, i, d, spare, now, t, b);
      PersistsKeepsCursor(a, token, vector, i, d, now, t);
    case Foreground(e, spare, now) => CommitKeepsCursor(a.store, e);
    case DraftByHand(_, _, _) => ByHandKeepsTables(p, a, step, b);
    case ApplyByHand(_, _, _) => ByHandKeepsTables(p, a, step, b);
    case _ =>
  }

  lemma ApplyMovesForward(p: Policy, a: System, step: Step, b: System)
    requires Reads(p, a) && Transition(p, a, step, b) && step.ApplyPlan?
    ensures AtOrAfter(a.store.cursor, b.store.cursor)
  {
    hide Automatic, Inv, Advanced, Dream.ApplyPlan, Store.Later, PlansOk, RowsRead, ClaimsRead, PlanOk, Applies;
    var id :| AppliesThis(p, a, step.token, id, step.vectors, step.spare, step.now, b);
    var plan := a.plans[id];
    var job := JobOf(a, step.token);
    PlanAt(a.plans, a.store, p.batchSize, id);
    ApplyStore(plan, a.store, p.batchSize, step.vectors, step.now);
    AdvanceKeepsOrMoves(a.jobs[job := Finished(a.jobs[job], Done, Consolidated(id))],
      Dream.ApplyPlan(a.store, plan.groups, plan.changes, step.vectors, step.now).value, job, plan.cursor, p,
        step.spare, step.now);
  }

  lemma OfferMovesForward(p: Policy, a: System, step: Step, b: System)
    requires Transition(p, a, step, b) && step.OfferPlan?
    ensures AtOrAfter(a.store.cursor, b.store.cursor)
  {
    hide Automatic, Advanced;
    var claim := a.claims[step.token];
    var plan := a.plans[claim.stage.plan];
    var offered := Finished(a.jobs[claim.job], Proposed, PlanOffered(claim.stage.plan, plan.generation, false));
    AdvanceKeepsOrMoves(a.jobs[claim.job := offered], a.store, claim.job, plan.cursor, p, step.spare, step.now);
  }

  lemma PersistsKeepsCursor(a: System, token: Token, vector: Vector, i: Remember.Inspection, d: Reconciliation.Decision,
                            now: Time, t: State)
    requires Persists(a, token, vector, i, d, now, t)
    ensures t.cursor == a.store.cursor && t.dreamWrites == a.store.dreamWrites
  {
    hide Remember.Inspects, Remember.Decides, Remember.Persist, MemoryOf;
    PersistCounts(a.store, RequestOf(MemoryOf(a, token).value, vector, a.claims[token].result), i, d, now);
  }
}
