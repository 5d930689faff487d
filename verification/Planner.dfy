/** The local deterministic planner of `memory_core/memory/dream.py`: consolidate exact structured duplicates only.
    Its proposals always pass the validator, and applying them loses no evidence. */
module Planner {
  import opened Types
  import opened Ordering
  import opened Fields
  import opened Store
  import opened Reconciliation
  import opened Dream

  /** A change retires a scanned record into an exactly equivalent neighbour with a smaller id. */
  ghost predicate Retires(groups: seq<Group>, c: Change) {
    exists i, j :: 0 <= i < |groups| && 0 <= j < |groups[i].neighbors|
      && RetiresInto(groups[i].memory, groups[i].neighbors[j], c)
  }

  predicate RetiresInto(a: Memory, b: Memory, c: Change) {
    c == Change(a, Attach(b.id, b.revision)) && Equivalent(a, b) && Below(b.id, a.id)
  }

  ghost function Subjects(changes: seq<Change>): set<Id> {
    set i | 0 <= i < |changes| && !changes[i].decision.Create? :: changes[i].memory.id
  }

  ghost function Targets(changes: seq<Change>): set<Id> {
    set i | 0 <= i < |changes| && !changes[i].decision.Create? :: changes[i].decision.target
  }

  /** No id takes part in two changes. */
  ghost predicate DisjointIds(changes: seq<Change>) {
    forall i :: 0 <= i < |changes| ==>
      && !changes[i].decision.Create?
      && changes[i].memory.id !in Subjects(changes[..i]) + Targets(changes[..i])
      && changes[i].decision.target !in Subjects(changes[..i]) + Targets(changes[..i])
  }

  /** A duplicate pair was left alone only because one of the two was already taken. */
  ghost predicate Settled(g: Group, taken: set<Id>) {
    forall j ::
      0 <= j < |g.neighbors| && Below(g.neighbors[j].id, g.memory.id) && Equivalent(g.memory, g.neighbors[j]) ==>
      g.memory.id in taken || g.neighbors[j].id in taken
  }

  lemma OneMoreChange(changes: seq<Change>, c: Change)
    requires DisjointIds(changes) && !c.decision.Create?
    requires c.memory.id !in Subjects(changes) + Targets(changes)
    requires c.decision.target !in Subjects(changes) + Targets(changes)
    ensures DisjointIds(changes + [c])
    ensures Subjects(changes + [c]) == Subjects(changes) + {c.memory.id}
    ensures Targets(changes + [c]) == Targets(changes) + {c.decision.target}
  {
    var all := changes + [c];
    assert all[..|changes|] == changes;
    forall i | 0 <= i < |changes| ensures all[..i] == changes[..i] { }
    forall id | id in Subjects(changes) ensures id in Subjects(all) {
      var i :| 0 <= i < |changes| && !changes[i].decision.Create? && changes[i].memory.id == id;
      assert all[i] == changes[i];
    }
    forall id | id in Targets(changes) ensures id in Targets(all) {
      var i :| 0 <= i < |changes| && !changes[i].decision.Create? && changes[i].decision.target == id;
      assert all[i] == changes[i];
    }
    assert all[|changes|] == c;
  }

  lemma LastChange(changes: seq<Change>)
    requires DisjointIds(changes) && changes != []
    ensures
      var n := |changes| - 1;
      var c := changes[n];
      && DisjointIds(changes[..n]) && !c.decision.Create?
      && c.memory.id !in Subjects(changes[..n]) + Targets(changes[..n])
      && c.decision.target !in Subjects(changes[..n]) + Targets(changes[..n])
      && Subjects(changes) + Targets(changes)
        == Subjects(changes[..n]) + Targets(changes[..n]) + {c.memory.id, c.decision.target}
  {
    var n := |changes| - 1;
    var before := changes[..n];
    assert forall i :: 0 <= i < n ==> before[..i] == changes[..i] && before[i] == changes[i];
    assert changes == before + [changes[n]];
    OneMoreChange(before, changes[n]);
  }

  method PlanDuplicates(groups: seq<Group>) returns (changes: seq<Change>)
    ensures |changes| <= |groups|
    ensures forall i :: 0 <= i < |changes| ==> Retires(groups, changes[i])
    ensures DisjointIds(changes)
    ensures forall i :: 0 <= i < |groups| ==> Settled(groups[i], Subjects(changes) + Targets(changes))
  {
    changes := [];
    var consumed: set<Id> := {};
    for i := 0 to |groups|
      invariant |changes| <= i
      invariant consumed == Subjects(changes) + Targets(changes)
      invariant forall k :: 0 <= k < |changes| ==> Retires(groups, changes[k])
      invariant DisjointIds(changes)
      invariant forall k :: 0 <= k < i ==> Settled(groups[k], consumed)
    {
      var a := groups[i].memory;
      var j := 0;
      while j < |groups[i].neighbors|
        invariant 0 <= j <= |groups[i].neighbors|
        invariant forall k ::
          0 <= k < j && Below(groups[i].neighbors[k].id, a.id) && Equivalent(a, groups[i].neighbors[k]) ==>
            a.id in consumed || groups[i].neighbors[k].id in consumed
      {
        var b := groups[i].neighbors[j];
        // `a.id <= b.id` is skipped along with anything consumed.
        if a.id !in consumed && b.id !in consumed && Below(b.id, a.id) && Equivalent(a, b) {
          var c := Change(a, Attach(b.id, b.revision));
          assert RetiresInto(groups[i].memory, groups[i].neighbors[j], c);
          OneMoreChange(changes, c);
          changes := changes + [c];
          consumed := consumed + {a.id, b.id};
          break;
        }
        j := j + 1;
      }
    }
  }

  /** In detail: a planned change names the scanned record as it was read, a neighbour read with it that says the same,
      at the revision read, and of the two the one with the smaller id stays. */
  lemma RetirementMeaning(groups: seq<Group>, c: Change)
    requires Retires(groups, c)
    ensures c.decision.Attach? && Precedes(c.decision.target, c.memory.id)
    ensures exists i, j ::
      && 0 <= i < |groups| && 0 <= j < |groups[i].neighbors| && groups[i].memory == c.memory
      && groups[i].neighbors[j].id == c.decision.target && groups[i].neighbors[j].revision == c.decision.expected
      && SaysTheSame(c.memory, groups[i].neighbors[j])
  {
    hide Precedes;
    var i, j :| 0 <= i < |groups| && 0 <= j < |groups[i].neighbors|
      && RetiresInto(groups[i].memory, groups[i].neighbors[j], c);
    BelowMeaning(c.decision.target, c.memory.id);
    assert SaysTheSame(c.memory, groups[i].neighbors[j]);
  }

  /** And a pair it could have planned was left alone only because one of the two already took part. */
  lemma LeftAloneMeaning(g: Group, taken: set<Id>, j: nat)
    requires Settled(g, taken) && j < |g.neighbors| && SaysTheSame(g.memory, g.neighbors[j])
    requires Precedes(g.neighbors[j].id, g.memory.id)
    ensures g.memory.id in taken || g.neighbors[j].id in taken
  {
    hide Precedes;
    BelowMeaning(g.neighbors[j].id, g.memory.id);
    assert Equivalent(g.memory, g.neighbors[j]);
  }

  // ---------- the validator accepts every planned change ----------

  /** The groups were read from `s`: scanned records active, everything still visible as read. */
  ghost predicate ReadFrom(s: State, groups: seq<Group>) {
    forall i :: 0 <= i < |groups| ==>
      && Seen(s, groups[i].memory) && groups[i].memory.status == Active
      && forall j :: 0 <= j < |groups[i].neighbors| ==> Seen(s, groups[i].neighbors[j])
  }

  predicate Seen(s: State, m: Memory) {
    m.id in s.rows && s.rows[m.id].memory == m && m.status != Superseded
  }

  lemma PlannedPair(s: State, groups: seq<Group>, c: Change) returns (a: Memory, b: Memory)
    requires ReadFrom(s, groups) && Retires(groups, c)
    ensures Seen(s, a) && Seen(s, b) && RetiresInto(a, b, c) && a.status == Active && b.status == Active
    ensures a.id in Originals(groups) && b.id in Candidates(groups)
  {
    var i, j :| 0 <= i < |groups| && 0 <= j < |groups[i].neighbors|
      && RetiresInto(groups[i].memory, groups[i].neighbors[j], c);
    a, b := groups[i].memory, groups[i].neighbors[j];
  }

  lemma NormalizesToItself(s: State, m: Memory)
    requires Inv(s) && Seen(s, m)
    ensures NormalizeMemory(s.registry, m) == Ok(m)
  {
    NormalizeIsIdentityOnStored(s.registry.fields, s.registry, m);
  }

  lemma PlannedChangeApplies(start: State, p: Progressed, groups: seq<Group>, c: Change, v: Vector, now: int)
      returns (a: Memory, b: Memory)
    requires Inv(start) && Through(start, p) && ReadFrom(start, groups) && Retires(groups, c)
    requires c.memory.id !in p.touched && c.decision.target !in p.touched
    ensures Seen(start, a) && Seen(start, b) && RetiresInto(a, b, c) && a.status == Active && b.status == Active
    ensures a.id in p.state.rows && b.id in p.state.rows
    ensures ApplyChange(start, p.state, p.touched, Originals(groups), Candidates(groups), c, v, now)
         == Ok(Progressed(Merge(p.state, a, b, now), p.touched + {b.id, a.id}))
  {
    hide Inv, Kept, NormalizeMemory, Merge, Originals, Candidates, ReadFrom, Retires, Equivalent;
    a, b := PlannedPair(start, groups, c);
    NormalizesToItself(start, a);
  }

  // ---------- evidence is conserved ----------

  /** The sources of all live records with this content. */
  ghost function EvidenceFor(s: State, f: Fingerprint): set<string> {
    set id, r | id in s.rows && FingerprintOf(s.rows[id].memory) == f && r in s.rows[id].memory.sourceRefs :: r
  }

  lemma EvidenceMember(s: State, f: Fingerprint, id: Id, r: string)
    requires id in s.rows && FingerprintOf(s.rows[id].memory) == f && r in s.rows[id].memory.sourceRefs
    ensures r in EvidenceFor(s, f)
  {
  }

  lemma MergeConservesEvidence(s: State, a: Memory, b: Memory, now: int, f: Fingerprint)
    requires a.id in s.rows && s.rows[a.id].memory == a && a.status == Active
    requires b.id in s.rows && s.rows[b.id].memory == b && b.status == Active
    requires a.id != b.id && Equivalent(a, b) && f.status == Active
    ensures EvidenceFor(Merge(s, a, b, now), f) == EvidenceFor(s, f)
  {
    var t := Merge(s, a, b, now);
    assert t.rows[a.id].memory.status == Superseded;
    assert t.rows[b.id].memory == WithEvidence(b, a.sourceRefs, now);
    forall r | r in EvidenceFor(s, f) ensures r in EvidenceFor(t, f) {
      var id :| id in s.rows && FingerprintOf(s.rows[id].memory) == f && r in s.rows[id].memory.sourceRefs;
      if id == a.id || id == b.id { EvidenceMember(t, f, b.id, r); } else { EvidenceMember(t, f, id, r); }
    }
    forall r | r in EvidenceFor(t, f) ensures r in EvidenceFor(s, f) {
      var id :| id in t.rows && FingerprintOf(t.rows[id].memory) == f && r in t.rows[id].memory.sourceRefs;
      if id == b.id && r in a.sourceRefs { EvidenceMember(s, f, a.id, r); } else { EvidenceMember(s, f, id, r); }
    }
  }

  /** All planned changes pass the validator's loop, and after each the evidence for every active content is what it
      was. */
  lemma {:induction false} PlannedChangesApply(start: State, groups: seq<Group>, changes: seq<Change>,
                                               vectors: seq<Vector>, now: int, f: Fingerprint)
    requires Inv(start) && Keyed(start) && ReadFrom(start, groups) && |changes| == |vectors| && f.status == Active
    requires DisjointIds(changes) && forall i :: 0 <= i < |changes| ==> Retires(groups, changes[i])
    ensures
      var r := ApplyChanges(start, Progressed(start, {}), Originals(groups), Candidates(groups), changes, vectors, now);
      && r.Ok? && Through(start, r.value)
      && r.value.touched == Subjects(changes) + Targets(changes)
      && EvidenceFor(r.value.state, f) == EvidenceFor(start, f)
    decreases |changes|
  {
    hide Inv, Through, ApplyChange, ReadFrom, Retires, Originals, Candidates, EvidenceFor, DisjointIds, Subjects,
        Targets;
    StartIsThrough(start);
    if changes == [] {
      NoChanges();
    } else {
      var n := |changes| - 1;
      LastChange(changes);
      PlannedChangesApply(start, groups, changes[..n], vectors[..n], now, f);
      var p := ApplyChanges(start, Progressed(start, {}), Originals(groups), Candidates(groups), changes[..n],
        vectors[..n], now).value;
      PlannedStep(start, p, groups, changes[n], vectors[n], now, f);
    }
  }

  lemma NoChanges()
    ensures Subjects([]) == {} && Targets([]) == {}
  {
  }

  lemma PlannedStep(start: State, p: Progressed, groups: seq<Group>, c: Change, v: Vector, now: int, f: Fingerprint)
    requires Inv(start) && Keyed(start) && Through(start, p) && ReadFrom(start, groups) && Retires(groups, c)
      && f.status == Active
    requires !c.decision.Create? && c.memory.id !in p.touched && c.decision.target !in p.touched
    ensures
      var r := ApplyChange(start, p.state, p.touched, Originals(groups), Candidates(groups), c, v, now);
      && r.Ok? && Through(start, r.value)
      && r.value.touched == p.touched + {c.memory.id, c.decision.target}
      && EvidenceFor(r.value.state, f) == EvidenceFor(p.state, f)
  {
    hide Inv, Kept, ReadFrom, Retires, Originals, Candidates, Merge, EvidenceFor, ApplyChange;
    var a, b := PlannedChangeApplies(start, p, groups, c, v, now);
    UntouchedReadsAgree(start, p, a.id);
    UntouchedReadsAgree(start, p, b.id);
    MergeChange(start, p, a, b, now);
    BelowTrichotomy(a.id, b.id);
    MergeConservesEvidence(p.state, a, b, now, f);
  }

  /** The baseline planner and the validator agree: at the generation it was computed from, every plan of the built-in
      planner is applied in full, and no source of any active content is lost. */
  lemma PlannerAgreesWithValidator(start: State, groups: seq<Group>, changes: seq<Change>, vectors: seq<Vector>,
                                   now: int, f: Fingerprint)
    requires Inv(start) && Keyed(start) && ReadFrom(start, groups) && |changes| == |vectors| && f.status == Active
    requires DisjointIds(changes) && forall i :: 0 <= i < |changes| ==> Retires(groups, changes[i])
    ensures ApplyPlan(start, groups, changes, vectors, now).Ok?
    ensures EvidenceFor(ApplyPlan(start, groups, changes, vectors, now).value, f) == EvidenceFor(start, f)
  {
    hide Inv, Through, ApplyChanges, EvidenceFor, Originals, Candidates, ReadFrom, Retires;
    PlannedChangesApply(start, groups, changes, vectors, now, f);
    var s := ApplyChanges(start, Progressed(start, {}), Originals(groups), Candidates(groups), changes, vectors,
      now).value.state;
    SameRowsSameEvidence(s, Bump(s, "dream_applied", [], false), f);
  }

  lemma SameRowsSameEvidence(s: State, t: State, f: Fingerprint)
    requires s.rows == t.rows
    ensures EvidenceFor(s, f) == EvidenceFor(t, f)
  {
  }
}
