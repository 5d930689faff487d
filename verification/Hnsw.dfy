/** `HnswIndex` of `memory_core/indexing/semantic.py`: label bookkeeping around a graph whose neighbour search is an
    oracle, snapshots with compaction, and a filtered search that always answers in full. */
module Hnsw {
  import opened Types
  import opened Counting
  import opened Ordering
  import opened Fields
  import opened Scores
  import opened Rankings
  import opened Search

  /** The graph as the index uses it: vectors by label, and the labels marked deleted. */
  datatype Graph = Graph(items: map<nat, Vector>, deleted: set<nat>)

  /** `add_items`: new or replaced, and no longer deleted. */
  function AddItem(g: Graph, slot: nat, v: Vector): Graph {
    Graph(g.items[slot := v], g.deleted - {slot})
  }

  function MarkDeleted(g: Graph, slot: nat): Graph {
    g.(deleted := g.deleted + {slot})
  }

  /** What is written to the owner's snapshot row, beside the graph itself. */
  datatype Manifest = Manifest(version: nat, labels: map<Id, nat>, active: set<Id>, capacity: nat, digest: string)

  /** The manifest describes this graph: what every snapshot taken satisfies. */
  ghost predicate Genuine(m: Manifest, graph: Graph) {
    exists reverse :: Bijection(m.labels, reverse) && GraphHolds(m.labels, m.active, m.capacity, graph)
  }

  datatype Mode = Nothing | Exact | Approximate | FilteredExact

  /** Labels and their reverse are a bijection between the known ids and 0 .. n-1. */
  ghost predicate Bijection(labels: map<Id, nat>, reverse: map<nat, Id>) {
    && (forall id :: id in labels ==> labels[id] in reverse && reverse[labels[id]] == id)
    && (forall l: nat :: l in reverse <==> l < |labels|)
    && (forall l: nat :: l in reverse ==> reverse[l] in labels && labels[reverse[l]] == l)
  }

  /** The graph holds exactly the labels in use, within capacity, and marks the inactive ones. */
  ghost predicate GraphHolds(labels: map<Id, nat>, active: set<Id>, capacity: nat, graph: Graph) {
    && active <= labels.Keys && 0 < capacity && |labels| <= capacity
    && Filled(graph.items, |labels|)
    && Marks(labels, active, graph.deleted)
  }

  ghost predicate Filled(items: map<nat, Vector>, n: nat) {
    forall l: nat :: l in items <==> l < n
  }

  ghost predicate Marks(labels: map<Id, nat>, active: set<Id>, deleted: set<nat>) {
    forall id :: id in labels ==> (labels[id] in deleted <==> id !in active)
  }

  /** The vectors a search may find. */
  ghost function StoredIn(labels: map<Id, nat>, active: set<Id>, graph: Graph): map<Id, Vector> {
    map id | id in active && id in labels && labels[id] in graph.items :: graph.items[labels[id]]
  }

  // ---------- upkeep ----------

  lemma LabelAdded(labels: map<Id, nat>, reverse: map<nat, Id>, id: Id)
    requires Bijection(labels, reverse) && id !in labels
    ensures Bijection(labels[id := |labels|], reverse[|labels| := id])
  {
  }

  lemma NewLabelHeld(labels: map<Id, nat>, reverse: map<nat, Id>, active: set<Id>, capacity: nat, graph: Graph, id: Id,
                     v: Vector)
    requires Bijection(labels, reverse) && GraphHolds(labels, active, capacity, graph) && id !in labels
      && |labels| < capacity
    ensures GraphHolds(labels[id := |labels|], active + {id}, capacity, AddItem(graph, |labels|, v))
  {
    hide Bijection;
    LabelsBelow(labels, reverse);
    hide Marks, Filled;
    Grown(labels, id, |labels|);
    OneMoreItem(graph.items, |labels|, v);
    NewLabelMarked(labels, active, graph.deleted, id, |labels|);
  }

  lemma OneMoreItem(items: map<nat, Vector>, n: nat, v: Vector)
    requires Filled(items, n)
    ensures Filled(items[n := v], n + 1)
  {
  }

  lemma NewLabelMarked(labels: map<Id, nat>, active: set<Id>, deleted: set<nat>, id: Id, n: nat)
    requires Marks(labels, active, deleted) && id !in labels && forall x :: x in labels ==> labels[x] < n
    ensures Marks(labels[id := n], active + {id}, deleted - {n})
  {
  }

  lemma Grown(labels: map<Id, nat>, id: Id, n: nat)
    requires id !in labels
    ensures |labels[id := n]| == |labels| + 1 && labels[id := n].Keys == labels.Keys + {id}
  {
    assert labels[id := n].Keys == labels.Keys + {id};
  }

  lemma LabelsBelow(labels: map<Id, nat>, reverse: map<nat, Id>)
    requires Bijection(labels, reverse)
    ensures forall x :: x in labels ==> labels[x] < |labels|
  {
    assert forall x :: x in labels ==> labels[x] in reverse;
  }

  lemma NewLabelStored(labels: map<Id, nat>, reverse: map<nat, Id>, active: set<Id>, capacity: nat, graph: Graph,
                       id: Id, v: Vector)
    requires Bijection(labels, reverse) && GraphHolds(labels, active, capacity, graph) && id !in labels
    ensures StoredIn(labels[id := |labels|], active + {id}, AddItem(graph, |labels|, v))
      == StoredIn(labels, active, graph)[id := v]
  {
    assert forall x :: x in labels ==> labels[x] in reverse;
  }

  lemma LabelReused(labels: map<Id, nat>, reverse: map<nat, Id>, active: set<Id>, capacity: nat, graph: Graph, id: Id,
                    v: Vector)
    requires Bijection(labels, reverse) && GraphHolds(labels, active, capacity, graph) && id in labels
    ensures GraphHolds(labels, active + {id}, capacity, AddItem(graph, labels[id], v))
  {
    forall x | x in labels && labels[x] == labels[id] ensures x == id {
      assert reverse[labels[x]] == x;
    }
    assert labels[id] in reverse;
  }

  lemma ReusedStored(labels: map<Id, nat>, reverse: map<nat, Id>, active: set<Id>, capacity: nat, graph: Graph, id: Id,
                     v: Vector)
    requires Bijection(labels, reverse) && GraphHolds(labels, active, capacity, graph) && id in labels
    ensures StoredIn(labels, active + {id}, AddItem(graph, labels[id], v)) == StoredIn(labels, active, graph)[id := v]
  {
    forall x | x in labels && labels[x] == labels[id] ensures x == id {
      assert reverse[labels[x]] == x;
    }
  }

  lemma LabelDeleted(labels: map<Id, nat>, reverse: map<nat, Id>, active: set<Id>, capacity: nat, graph: Graph, id: Id)
    requires Bijection(labels, reverse) && GraphHolds(labels, active, capacity, graph) && id in active
    ensures GraphHolds(labels, active - {id}, capacity, MarkDeleted(graph, labels[id]))
    ensures StoredIn(labels, active - {id}, MarkDeleted(graph, labels[id])) == StoredIn(labels, active, graph) - {id}
  {
    forall x | x in labels && labels[x] == labels[id] ensures x == id {
      assert reverse[labels[x]] == x;
    }
  }

  /** `{label: uid for uid, label in labels.items()}`. */
  method Reversed(labels: map<Id, nat>) returns (reverse: map<nat, Id>)
    ensures Reverses(labels, reverse)
  {
    reverse := map[];
    var rest := labels.Keys;
    while rest != {}
      invariant rest <= labels.Keys
      invariant forall l: nat :: l in reverse ==> reverse[l] in labels && labels[reverse[l]] == l
      invariant forall id :: id in labels.Keys - rest ==> labels[id] in reverse
      decreases rest
    {
      var id :| id in rest;
      reverse := reverse[labels[id] := id];
      rest := rest - {id};
    }
  }

  ghost predicate Reverses(labels: map<Id, nat>, reverse: map<nat, Id>) {
    && (forall l: nat :: l in reverse ==> reverse[l] in labels && labels[reverse[l]] == l)
    && (forall id :: id in labels ==> labels[id] in reverse)
  }

  /** Of a bijection there is one reverse. */
  lemma OneReverse(labels: map<Id, nat>, known: map<nat, Id>, reverse: map<nat, Id>)
    requires Bijection(labels, known) && Reverses(labels, reverse)
    ensures reverse == known
  {
    forall l: nat | l in known ensures l in reverse { assert labels[known[l]] == l; }
  }

  /** Fresh labels for the first n ids ... */
  ghost predicate Numbered(ids: seq<Id>, n: nat, labels: map<Id, nat>)
    requires n <= |ids|
  {
    && (forall id :: id in labels <==> id in ids[..n]) && |labels| == n
    && (forall i :: 0 <= i < n ==> ids[i] in labels && labels[ids[i]] == i)
  }

  /** ... with the vectors they had. */
  ghost predicate Copied(ids: seq<Id>, n: nat, was: map<Id, nat>, source: Graph, graph: Graph)
    requires n <= |ids|
  {
    && graph.deleted == {} && (forall l: nat :: l in graph.items <==> l < n)
    && (forall i :: 0 <= i < n ==> ids[i] in was && was[ids[i]] in source.items
                                   && graph.items[i] == source.items[was[ids[i]]])
  }

  lemma NumberOneMore(ids: seq<Id>, n: nat, labels: map<Id, nat>)
    requires n < |ids| && StrictlySorted(ids) && Numbered(ids, n, labels)
    ensures Numbered(ids, n + 1, labels[ids[n] := n])
  {
    hide StrictlySorted;
    NotBefore(ids, n);
    EarlierNames(ids, n);
    Grown(labels, ids[n], n);
  }

  lemma CopyOneMore(ids: seq<Id>, n: nat, was: map<Id, nat>, source: Graph, graph: Graph)
    requires n < |ids| && Copied(ids, n, was, source, graph) && ids[n] in was && was[ids[n]] in source.items
    ensures Copied(ids, n + 1, was, source, AddItem(graph, n, source.items[was[ids[n]]]))
  {
  }

  lemma EarlierNames(ids: seq<Id>, n: nat)
    requires n < |ids| && StrictlySorted(ids)
    ensures forall i :: 0 <= i < n ==> ids[i] != ids[n]
  {
    hide StrictlySorted;
    forall i | 0 <= i < n ensures ids[i] != ids[n] { SortedBelow(ids, i, n); }
  }

  lemma NotBefore(ids: seq<Id>, n: nat)
    requires n < |ids| && StrictlySorted(ids)
    ensures ids[n] !in ids[..n] && forall x :: x in ids[..n + 1] <==> x in ids[..n] || x == ids[n]
  {
    forall i | 0 <= i < n ensures ids[i] != ids[n] { SortedBelow(ids, i, n); }
    assert ids[..n + 1] == ids[..n] + [ids[n]];
  }

  lemma RelabelledHolds(ids: seq<Id>, was: map<Id, nat>, source: Graph, labels: map<Id, nat>, graph: Graph,
                        active: set<Id>, capacity: nat) returns (reverse: map<nat, Id>)
    requires StrictlySorted(ids) && (forall id :: id in ids <==> id in active) && active <= was.Keys
    requires Numbered(ids, |ids|, labels) && Copied(ids, |ids|, was, source, graph) && 0 < capacity && |ids| <= capacity
    ensures Bijection(labels, reverse) && GraphHolds(labels, active, capacity, graph)
    ensures StoredIn(labels, active, graph) == StoredIn(was, active, source)
  {
    assert ids[..|ids|] == ids;
    reverse := map l: nat | 0 <= l < |ids| :: ids[l];
    assert forall l: nat :: l in reverse <==> l < |labels|;
    forall id | id in labels ensures exists i :: 0 <= i < |ids| && ids[i] == id && labels[id] == i {
      var i :| 0 <= i < |ids| && ids[i] == id;
    }
  }

  /** Nothing deleted is left, labels run in id order, and there is room for twice the active vectors. */
  ghost predicate Compacted(labels: map<Id, nat>, active: set<Id>, capacity: nat, graph: Graph) {
    && labels.Keys == active && graph.deleted == {} && capacity == (if |active| <= 512 then 1024 else 2 * |active|)
    && forall a, b :: a in labels && b in labels && Below(a, b) ==> labels[a] < labels[b]
  }

  lemma RelabelledIsCompact(ids: seq<Id>, was: map<Id, nat>, source: Graph, labels: map<Id, nat>, graph: Graph,
                            active: set<Id>, capacity: nat)
    requires StrictlySorted(ids) && (forall id :: id in ids <==> id in active)
    requires Numbered(ids, |ids|, labels) && Copied(ids, |ids|, was, source, graph)
      && capacity == Max(1024, |active| * 2)
    ensures Compacted(labels, active, capacity, graph)
  {
    hide StrictlySorted;
    assert ids[..|ids|] == ids;
    forall a, b | a in labels && b in labels && Below(a, b) ensures labels[a] < labels[b] {
      var i :| 0 <= i < |ids| && ids[i] == a;
      var j :| 0 <= j < |ids| && ids[j] == b;
      BelowTrichotomy(a, b);
      if j < i { SortedBelow(ids, j, i); }
    }
  }

  class HnswIndex {
    const dim: nat
    const root: real -> real
    const efSearch: nat
    const exactThreshold: nat
    const maxCandidates: nat
    var labels: map<Id, nat>
    var reverse: map<nat, Id>
    var active: set<Id>
    var capacity: nat
    var graph: Graph
    var updates: nat

    ghost predicate Valid()
      reads this
    {
      Bijection(labels, reverse) && GraphHolds(labels, active, capacity, graph)
    }

    ghost function Stored(): map<Id, Vector>
      reads this
    {
      StoredIn(labels, active, graph)
    }

    constructor (dim: nat, root: real -> real, efSearch: nat, exactThreshold: nat, maxCandidates: nat)
      ensures Valid() && Stored() == map[] && this.dim == dim && this.root == root
      ensures this.efSearch == efSearch && this.exactThreshold == exactThreshold && this.maxCandidates == maxCandidates
    {
      this.dim, this.root := dim, root;
      this.efSearch, this.exactThreshold, this.maxCandidates := efSearch, exactThreshold, maxCandidates;
      labels, reverse, active, capacity, graph, updates := map[], map[], {}, 1024, Graph(map[], {}), 0;
    }

    /** `upsert`: a vector of the wrong dimension or of norm zero is refused and changes nothing; any other is stored
        normalised. */
    method Upsert(id: Id, vector: Vector) returns (ok: bool)
      requires Valid()
      modifies this
      ensures Valid()
      ensures ok <==> Normalized(vector, dim, false, root).Some?
      ensures Stored() == if ok then old(Stored())[id := Normalized(vector, dim, false, root).value] else old(Stored())
      ensures !ok ==> labels == old(labels) && active == old(active) && graph == old(graph) && updates == old(updates)
      ensures ok ==>
        && active == old(active) + {id} && updates == old(updates) + 1
        && labels == (if id in old(labels) then old(labels) else old(labels)[id := |old(labels)|])
        && capacity == if id !in old(labels) && |old(labels)| >= old(capacity) then 2 * old(capacity) else old(capacity)
    {
      hide Bijection, GraphHolds, StoredIn, Normalized;
      var normalized := Normalized(vector, dim, false, root);
      if normalized.None? { return false; }
      var v := normalized.value;
      if id !in labels {
        CapacityBounds(labels, active, capacity, graph);
        if |labels| >= capacity {
          Resized(labels, active, capacity, capacity * 2, graph);
          capacity := capacity * 2;
        }
        NewLabelHeld(labels, reverse, active, capacity, graph, id, v);
        NewLabelStored(labels, reverse, active, capacity, graph, id, v);
        LabelAdded(labels, reverse, id);
        var slot := |labels|;
        labels := labels[id := slot];
        reverse := reverse[slot := id];
      } else {
        LabelReused(labels, reverse, active, capacity, graph, id, v);
        ReusedStored(labels, reverse, active, capacity, graph, id, v);
      }
      graph := AddItem(graph, labels[id], v);
      active := active + {id};
      updates := updates + 1;
      ok := true;
    }

    method Remove(id: Id) returns (existed: bool)
      requires Valid()
      modifies this
      ensures Valid() && Stored() == old(Stored()) - {id} && existed == (id in old(Stored()))
      ensures labels == old(labels) && active == old(active) - {id}
        && updates == old(updates) + (if existed then 1 else 0)
    {
      hide Bijection, GraphHolds, StoredIn;
      ActiveIsStored(labels, reverse, active, capacity, graph);
      if id !in active { return false; }
      LabelDeleted(labels, reverse, active, capacity, graph, id);
      ActiveIsLabelled(labels, active, capacity, graph);
      graph := MarkDeleted(graph, labels[id]);
      active := active - {id};
      updates := updates + 1;
      existed := true;
    }

    /** `snapshot`: rebuild without tombstones when there are many, then write everything out. */
    method TakeSnapshot(hash: Graph -> string) returns (m: Manifest, blob: Graph)
      requires Valid()
      modifies this
      ensures Valid() && Stored() == old(Stored()) && active == old(active)
      ensures m == Manifest(1, labels, active, capacity, hash(blob)) && blob == graph && Genuine(m, blob)
      ensures
        var known, gone := |old(labels)|, |old(labels)| - |active|;
        if gone > 32 && gone > known / 5 then Compacted(labels, active, capacity, graph)
        else labels == old(labels) && capacity == old(capacity) && graph == old(graph)
    {
      hide Bijection, GraphHolds, StoredIn, Compacted;
      ghost var known := reverse;
      ActiveIsLabelled(labels, active, capacity, graph);
      if |labels| - |active| > Max(32, |labels| / 5) {
        known := Compact();
      }
      reverse := Reversed(labels);
      OneReverse(labels, known, reverse);
      m, blob := Manifest(1, labels, active, capacity, hash(graph)), graph;
      assert Bijection(m.labels, reverse);
    }

    /** The rebuild: room for twice the active vectors, and new labels in id order. */
    method Compact() returns (ghost known: map<nat, Id>)
      requires Valid()
      modifies this`labels, this`capacity, this`graph
      ensures Bijection(labels, known) && GraphHolds(labels, active, capacity, graph) && Stored() == old(Stored())
      ensures Compacted(labels, active, capacity, graph)
    {
      hide Bijection, GraphHolds, StoredIn, Numbered, Copied, StrictlySorted, Compacted;
      var source, was := graph, labels;
      ActiveIsLabelled(labels, active, capacity, graph);
      ActiveHasItem(labels, reverse, active, capacity, graph);
      capacity := Max(1024, |active| * 2);
      var ids := SortNames(active);
      Relabel(ids, was, source);
      NumberedCount(ids, labels, active);
      known := RelabelledHolds(ids, was, source, labels, graph, active, capacity);
      RelabelledIsCompact(ids, was, source, labels, graph, active, capacity);
    }

    /** Copy the vectors into an empty graph, in blocks of 256. */
    method Relabel(ids: seq<Id>, was: map<Id, nat>, source: Graph)
      requires StrictlySorted(ids) && forall i :: 0 <= i < |ids| ==> ids[i] in was && was[ids[i]] in source.items
      modifies this`labels, this`graph
      ensures Numbered(ids, |ids|, labels) && Copied(ids, |ids|, was, source, graph)
    {
      hide Numbered, Copied, StrictlySorted;
      graph, labels := Graph(map[], {}), map[];
      NothingCopied(ids, was, source);
      var start := 0;
      while start < |ids|
        invariant 0 <= start <= |ids|
        invariant Numbered(ids, start, labels) && Copied(ids, start, was, source, graph)
      {
        var stop := Min(start + 256, |ids|);
        var i := start;
        while i < stop
          invariant start <= i <= stop
          invariant Numbered(ids, i, labels) && Copied(ids, i, was, source, graph)
        {
          NumberOneMore(ids, i, labels);
          CopyOneMore(ids, i, was, source, graph);
          graph := AddItem(graph, i, source.items[was[ids[i]]]);
          labels := labels[ids[i] := i];
          i := i + 1;
        }
        start := stop;
      }
    }

    /** `restore`: another version, a damaged graph or labels that are not the graph's are refused and change nothing; a
        genuine snapshot brings back everything a search can see. */
    method Restore(m: Manifest, blob: Graph, hash: Graph -> string) returns (ok: bool)
      requires Valid()
      modifies this
      ensures ok <==>
        && m.version == 1 && hash(blob) == m.digest
        && blob.items.Keys == (set id | id in m.labels :: m.labels[id])
      ensures !ok ==>
        && labels == old(labels) && reverse == old(reverse) && active == old(active) && capacity == old(capacity)
        && graph == old(graph) && updates == old(updates)
      ensures Genuine(m, blob) && m.version == 1 && hash(blob) == m.digest ==>
        ok && Valid() && Stored() == StoredIn(m.labels, m.active, blob) && active == m.active
    {
      hide Bijection, GraphHolds, StoredIn;
      GenuineLabels(m, blob);
      if m.version != 1 || hash(blob) != m.digest { return false; }
      if blob.items.Keys != (set id | id in m.labels :: m.labels[id]) { return false; }
      graph, capacity, labels, active := blob, m.capacity, m.labels, m.active;
      reverse := Reversed(labels);
      updates := 0;
      ok := true;
      if Genuine(m, blob) {
        ghost var known :| Bijection(m.labels, known) && GraphHolds(m.labels, m.active, m.capacity, blob);
        OneReverse(labels, known, reverse);
      }
    }

    /** `_exact`: blocks of 1024, keeping the best k so far. */
    method ExactSearch(q: Vector, ids: seq<Id>, k: nat) returns (best: seq<Hit>)
      requires Valid() && forall id :: id in ids ==> id in active
      ensures best == Best(HitsFor(Stored(), q, ids), k)
    {
      hide Bijection, GraphHolds, StoredIn, Best, HitsFor;
      ghost var stored := Stored();
      ActiveHasItem(labels, reverse, active, capacity, graph);
      ReadsStored(labels, active, graph);
      best := [];
      NoHits(stored, q, k);
      var start := 0;
      while start < |ids|
        invariant 0 <= start <= |ids|
        invariant best == Best(HitsFor(stored, q, ids[..start]), k)
      {
        var stop := Min(start + 1024, |ids|);
        var batch := ids[start..stop];
        var values := seq(|batch|,
          i requires 0 <= i < |batch| && batch[i] in labels && labels[batch[i]] in graph.items reads this =>
          Hit(batch[i], Real(Dot(graph.items[labels[batch[i]]], q)), 0));
        BatchHits(stored, q, batch, values);
        BestFolds(HitsFor(stored, q, ids[..start]), values, k);
        assert ids[..stop] == ids[..start] + batch;
        HitsForConcat(stored, q, ids[..start], batch);
        best := Best(best + values, k);
        start := stop;
      }
      assert ids[..|ids|] == ids;
    }

    /** The body of `search`: exact when few are eligible; otherwise ask the graph for more and more neighbours until
        enough of them are eligible, and fall back to the exact scan at the ceiling. `knn(count)` is the graph's
        answer. */
    method FindNormalized(q: Vector, wanted: set<Id>, k: nat, knn: nat -> seq<nat>)
      returns (r: seq<Hit>, mode: Mode, ghost asked: nat)
      requires Valid() && forall n: nat :: n <= |active| ==> Neighbours(labels, active, knn(n), n)
      ensures Answers(Stored(), q, wanted, k, r) && Sorted(r)
      ensures mode != Approximate ==> r == Top(Similar(Stored(), q, wanted), k)
      ensures mode == Approximate ==>
        asked <= |active| && r == Top(Similar(Stored(), q, wanted * Known(labels, knn(asked))), k)
      ensures Chosen(labels, active, wanted, k, exactThreshold, maxCandidates, mode, knn)
    {
      asked := 0;
      hide Bijection, GraphHolds, StoredIn, Best, HitsFor, Answers, Lists, Similar, Sorted, Neighbours, Known, Top,
          Chosen;
      var eligible := active * wanted;
      ChosenDirectly(labels, active, wanted, k, exactThreshold, maxCandidates, knn);
      ActiveIsStored(labels, reverse, active, capacity, graph);
      EligibleScores(Stored(), q, active, wanted);
      var need := Min(k, |eligible|);
      if need == 0 {
        NothingToFind(Stored(), q, wanted, k);
        return [], Nothing, 0;
      }
      if |eligible| <= Max(exactThreshold, need) {
        r := FindExactly(q, wanted, k, need, eligible);
        return r, Exact, 0;
      }
      var count := Min(|active|, Max(need * 4, efSearch));
      var ceiling := Min(|active|, Max(need, maxCandidates));
      NonEmptyBounds(active, eligible);
      while true
        invariant 0 < count && 0 < ceiling <= |active|
        decreases if count < ceiling then ceiling - count else 0
      {
        if count > ceiling { count := ceiling; }
        var found := Eligible(q, knn(count), eligible, count);
        if |found| >= need {
          EnoughFound(Stored(), q, wanted, k, need, found);
          AmongNeighbours(Stored(), q, active, wanted, Known(labels, knn(count)), k, need, found);
          return Best(found, need), Approximate, count;
        }
        if count >= ceiling {
          FoundKnown(Stored(), q, active * wanted, Known(labels, knn(count)), found);
          ChosenAfterAll(labels, active, wanted, k, exactThreshold, maxCandidates, knn);
          r := FindExactly(q, wanted, k, need, eligible);
          return r, FilteredExact, 0;
        }
        count := count * 2;
      }
    }

    /** `search`: a query that cannot be normalised is refused. */
    method Find(query: Vector, wanted: set<Id>, k: nat, knn: nat -> seq<nat>)
      returns (r: Option<seq<Hit>>, mode: Mode, ghost asked: nat)
      requires Valid() && forall n: nat :: n <= |active| ==> Neighbours(labels, active, knn(n), n)
      ensures r.Some? <==> Normalized(query, dim, false, root).Some?
      ensures r.Some? ==> Chosen(labels, active, wanted, k, exactThreshold, maxCandidates, mode, knn)
      ensures r.Some? ==>
        var q := Normalized(query, dim, false, root).value;
        && Answers(Stored(), q, wanted, k, r.value) && Sorted(r.value)
        && (mode != Approximate ==> r.value == Top(Similar(Stored(), q, wanted), k))
        && (mode == Approximate ==>
              asked <= |active| && r.value == Top(Similar(Stored(), q, wanted * Known(labels, knn(asked))), k))
    {
      hide Bijection, GraphHolds, StoredIn, Answers, Similar, Sorted, Neighbours, Known, Top, Normalized, Chosen;
      var normalized := Normalized(query, dim, false, root);
      if normalized.None? { return None, Nothing, 0; }
      var hits;
      hits, mode, asked := FindNormalized(normalized.value, wanted, k, knn);
      r := Some(hits);
    }

    method FindExactly(q: Vector, wanted: set<Id>, k: nat, need: nat, eligible: set<Id>) returns (r: seq<Hit>)
      requires Valid() && eligible == active * wanted && need == if k < |eligible| then k else |eligible|
      ensures Answers(Stored(), q, wanted, k, r) && Sorted(r)
      ensures r == Top(Similar(Stored(), q, wanted), k)
    {
      hide Bijection, GraphHolds, StoredIn, Best, HitsFor, Answers, Lists, Similar, Sorted, Top;
      var ids := SortNames(eligible);
      r := ExactSearch(q, ids, need);
      ActiveIsStored(labels, reverse, active, capacity, graph);
      EligibleScores(Stored(), q, active, wanted);
      ExactAnswers(Stored(), q, wanted, k, need, ids);
    }

    /** `[(reverse[label], 1 - distance) ... if reverse[label] in eligible]`. */
    method Eligible(q: Vector, neighbours: seq<nat>, eligible: set<Id>, ghost count: nat) returns (found: seq<Hit>)
      requires Valid() && eligible <= active && Neighbours(labels, active, neighbours, count)
      ensures forall h ::
        h in found ==> h.id in eligible && h.id in Stored() && h == Hit(h.id, Real(Dot(Stored()[h.id], q)), 0)
      ensures forall i, j :: 0 <= i < j < |found| ==> found[i].id != found[j].id
      ensures Lists(found, Similar(Stored(), q, eligible * Known(labels, neighbours)))
    {
      hide Dot, GraphHolds, StoredIn;
      ActiveHasItem(labels, reverse, active, capacity, graph);
      ReadsStored(labels, active, graph);
      found := [];
      for i := 0 to |neighbours|
        invariant forall h ::
          h in found ==> h.id in eligible && h.id in Stored() && h == Hit(h.id, Real(Dot(Stored()[h.id], q)), 0)
        invariant forall h :: h in found ==> h.id in labels && labels[h.id] in neighbours[..i]
        invariant forall id :: id in eligible && id in labels && labels[id] in neighbours[..i] ==> id in IdsOf(found)
        invariant forall x, y :: 0 <= x < y < |found| ==> found[x].id != found[y].id
      {
        var slot := neighbours[i];
        NeighbourIsKnown(labels, reverse, active, neighbours, count, i);
        var id := reverse[slot];
        assert neighbours[..i + 1] == neighbours[..i] + [slot];
        if id in eligible {
          assert labels[id] == slot;
          found := found + [Hit(id, Real(Dot(graph.items[slot], q)), 0)];
        }
      }
      assert neighbours[..|neighbours|] == neighbours;
      FoundLists(Stored(), q, labels, neighbours, eligible, found);
    }
  }

  /** How a search was answered: not at all if nothing is asked for or eligible; exactly if few are eligible; else from
      the graph's neighbours, or exactly after all if at the ceiling too few of those are eligible. */
  ghost predicate Chosen(labels: map<Id, nat>, active: set<Id>, wanted: set<Id>, k: nat, threshold: nat, most: nat,
                         mode: Mode, knn: nat -> seq<nat>) {
    var eligible := active * wanted;
    var need := Min(k, |eligible|);
    && (mode == Nothing <==> k == 0 || eligible == {})
    && (mode == Exact <==> need > 0 && (|eligible| <= threshold || |eligible| <= k))
    && (mode == FilteredExact ==> |eligible * Known(labels, knn(Min(|active|, Max(need, most))))| < need)
  }

  lemma ChosenDirectly(labels: map<Id, nat>, active: set<Id>, wanted: set<Id>, k: nat, threshold: nat, most: nat,
                       knn: nat -> seq<nat>)
    ensures
      var need := Min(k, |active * wanted|);
      && (need == 0 ==> Chosen(labels, active, wanted, k, threshold, most, Nothing, knn))
      && (need > 0 && |active * wanted| <= Max(threshold, need) ==>
            Chosen(labels, active, wanted, k, threshold, most, Exact, knn))
      && (need > 0 && |active * wanted| > Max(threshold, need) ==>
            Chosen(labels, active, wanted, k, threshold, most, Approximate, knn))
  {
    hide Known;
  }

  lemma ChosenAfterAll(labels: map<Id, nat>, active: set<Id>, wanted: set<Id>, k: nat, threshold: nat, most: nat,
                       knn: nat -> seq<nat>)
    requires
      var need := Min(k, |active * wanted|);
      && need > 0 && |active * wanted| > Max(threshold, need)
      && |active * wanted * Known(labels, knn(Min(|active|, Max(need, most))))| < need
    ensures Chosen(labels, active, wanted, k, threshold, most, FilteredExact, knn)
  {
    hide Known;
  }

  /** The ids behind the labels of an answer. */
  function Known(labels: map<Id, nat>, answer: seq<nat>): set<Id> {
    set id | id in labels && labels[id] in answer
  }

  lemma FoundLists(stored: map<Id, Vector>, q: Vector, labels: map<Id, nat>, neighbours: seq<nat>, eligible: set<Id>,
                   found: seq<Hit>)
    requires forall h ::
      h in found ==> h.id in eligible && h.id in stored && h == Hit(h.id, Real(Dot(stored[h.id], q)), 0)
    requires forall h :: h in found ==> h.id in labels && labels[h.id] in neighbours
    requires forall id :: id in eligible && id in labels && labels[id] in neighbours ==> id in IdsOf(found)
    requires forall i, j :: 0 <= i < j < |found| ==> found[i].id != found[j].id
    ensures Lists(found, Similar(stored, q, eligible * Known(labels, neighbours)))
  {
    hide Dot;
    var scores := Similar(stored, q, eligible * Known(labels, neighbours));
    forall id | id in scores ensures Hit(id, Real(scores[id]), 0) in found {
      var h :| h in found && h.id == id;
    }
  }

  lemma FoundKnown(stored: map<Id, Vector>, q: Vector, eligible: set<Id>, known: set<Id>, found: seq<Hit>)
    requires eligible <= stored.Keys && Lists(found, Similar(stored, q, eligible * known))
    ensures |found| == |eligible * known|
  {
    hide Lists, Dot;
    ListCount(found, Similar(stored, q, eligible * known));
    assert Similar(stored, q, eligible * known).Keys == eligible * known;
  }

  lemma AmongNeighbours(stored: map<Id, Vector>, q: Vector, active: set<Id>, wanted: set<Id>, known: set<Id>, k: nat,
                        need: nat, found: seq<Hit>)
    requires stored.Keys == active && Lists(found, Similar(stored, q, active * wanted * known))
    requires need == (if k < |Similar(stored, q, wanted)| then k else |Similar(stored, q, wanted)|) && need <= |found|
    ensures Best(found, need) == Top(Similar(stored, q, wanted * known), k)
  {
    hide Best, Lists, Dot, Top;
    var scores := Similar(stored, q, wanted * known);
    assert scores == Similar(stored, q, active * wanted * known);
    ListCount(found, scores);
    SubsetSize(scores.Keys, Similar(stored, q, wanted).Keys);
    CappedBest(found, k, need);
    TopIsBest(found, scores, k);
  }

  /** What `knn_query` promises for a count within the active labels: that many distinct labels in use and not
      deleted. */
  ghost predicate Neighbours(labels: map<Id, nat>, active: set<Id>, answer: seq<nat>, count: nat) {
    && |answer| == count && Distinct(answer)
    && forall i :: 0 <= i < |answer| ==> InUse(labels, active, answer[i])
  }

  ghost predicate InUse(labels: map<Id, nat>, active: set<Id>, slot: nat) {
    exists id :: id in active && id in labels && labels[id] == slot
  }

  lemma NeighbourIsKnown(labels: map<Id, nat>, reverse: map<nat, Id>, active: set<Id>, answer: seq<nat>, count: nat,
                         i: nat)
    requires Bijection(labels, reverse) && Neighbours(labels, active, answer, count) && i < |answer|
    ensures answer[i] in reverse && reverse[answer[i]] in labels && labels[reverse[answer[i]]] == answer[i]
      && answer[i] !in answer[..i]
  {
    assert InUse(labels, active, answer[i]);
  }

  lemma NoHits(stored: map<Id, Vector>, q: Vector, k: nat)
    ensures Best(HitsFor(stored, q, []), k) == []
  {
  }

  lemma {:induction false} BatchHits(stored: map<Id, Vector>, q: Vector, batch: seq<Id>, values: seq<Hit>)
    requires |values| == |batch|
    requires forall i ::
      0 <= i < |batch| ==> batch[i] in stored && values[i] == Hit(batch[i], Real(Dot(stored[batch[i]], q)), 0)
    ensures HitsFor(stored, q, batch) == values
  {
    if batch != [] {
      var n := |batch| - 1;
      BatchHits(stored, q, batch[..n], values[..n]);
      assert values == values[..n] + [values[n]];
    }
  }

  lemma ReadsStored(labels: map<Id, nat>, active: set<Id>, graph: Graph)
    requires forall id :: id in active ==> id in labels && labels[id] in graph.items
    ensures forall id ::
      id in active ==>
      id in StoredIn(labels, active, graph) && StoredIn(labels, active, graph)[id] == graph.items[labels[id]]
  {
  }

  lemma EligibleScores(stored: map<Id, Vector>, q: Vector, active: set<Id>, wanted: set<Id>)
    requires stored.Keys == active
    ensures Similar(stored, q, wanted).Keys == active * wanted && |Similar(stored, q, wanted)| == |active * wanted|
  {
    assert Similar(stored, q, wanted).Keys == active * wanted;
  }

  lemma NothingToFind(stored: map<Id, Vector>, q: Vector, wanted: set<Id>, k: nat)
    requires k == 0 || |Similar(stored, q, wanted)| == 0
    ensures Answers(stored, q, wanted, k, []) && Sorted([])
    ensures Top(Similar(stored, q, wanted), k) == []
  {
    TopShape(Similar(stored, q, wanted), k);
  }

  lemma NonEmptyBounds(active: set<Id>, eligible: set<Id>)
    requires eligible <= active && eligible != {}
    ensures 0 < |active|
  {
  }

  lemma SortedIsDistinct(ids: seq<Id>)
    requires StrictlySorted(ids)
    ensures Distinct(ids)
  {
    forall i, j | 0 <= i < j < |ids| ensures ids[i] != ids[j] { SortedBelow(ids, i, j); }
  }

  lemma ExactAnswers(stored: map<Id, Vector>, q: Vector, wanted: set<Id>, k: nat, need: nat, ids: seq<Id>)
    requires StrictlySorted(ids) && forall x :: x in ids <==> x in Similar(stored, q, wanted)
    requires need == if k < |Similar(stored, q, wanted)| then k else |Similar(stored, q, wanted)|
    ensures Answers(stored, q, wanted, k, Best(HitsFor(stored, q, ids), need))
      && Sorted(Best(HitsFor(stored, q, ids), need))
    ensures Best(HitsFor(stored, q, ids), need) == Top(Similar(stored, q, wanted), k)
  {
    hide Best, Lists, HitsFor, Answers, Sorted, Top;
    var scores := Similar(stored, q, wanted);
    SortedIsDistinct(ids);
    HitsForLists(stored, q, ids);
    assert Similar(stored, q, Members(ids)) == scores;
    var hits := HitsFor(stored, q, ids);
    ListCount(hits, scores);
    BestIsAnswer(stored, q, wanted, k, hits);
    BestIsSorted(hits, need);
    CappedBest(hits, k, need);
    TopIsBest(hits, scores, k);
  }

  lemma CappedBest(hits: seq<Hit>, k: nat, need: nat)
    requires need == if k < |hits| then k else |hits|
    ensures Best(hits, need) == Best(hits, k)
  {
  }

  lemma EnoughFound(stored: map<Id, Vector>, q: Vector, wanted: set<Id>, k: nat, need: nat, found: seq<Hit>)
    requires need == (if k < |Similar(stored, q, wanted)| then k else |Similar(stored, q, wanted)|) && need <= |found|
    requires forall h ::
      h in found ==> h.id in wanted && h.id in stored && h == Hit(h.id, Real(Dot(stored[h.id], q)), 0)
    requires forall i, j :: 0 <= i < j < |found| ==> found[i].id != found[j].id
    ensures Answers(stored, q, wanted, k, Best(found, need)) && Sorted(Best(found, need))
  {
    hide Dot;
    BestKeepsDistinct(found, need);
    BestIsSorted(found, need);
  }

  lemma CapacityBounds(labels: map<Id, nat>, active: set<Id>, capacity: nat, graph: Graph)
    requires GraphHolds(labels, active, capacity, graph)
    ensures 0 < capacity && |labels| <= capacity
  {
  }

  lemma Resized(labels: map<Id, nat>, active: set<Id>, capacity: nat, larger: nat, graph: Graph)
    requires GraphHolds(labels, active, capacity, graph) && capacity <= larger
    ensures GraphHolds(labels, active, larger, graph)
  {
  }

  lemma ActiveIsLabelled(labels: map<Id, nat>, active: set<Id>, capacity: nat, graph: Graph)
    requires GraphHolds(labels, active, capacity, graph)
    ensures active <= labels.Keys
  {
  }

  lemma ActiveHasItem(labels: map<Id, nat>, reverse: map<nat, Id>, active: set<Id>, capacity: nat, graph: Graph)
    requires Bijection(labels, reverse) && GraphHolds(labels, active, capacity, graph)
    ensures forall id :: id in active ==> id in labels && labels[id] in graph.items
  {
    assert forall id :: id in labels ==> labels[id] in reverse;
  }

  lemma ActiveIsStored(labels: map<Id, nat>, reverse: map<nat, Id>, active: set<Id>, capacity: nat, graph: Graph)
    requires Bijection(labels, reverse) && GraphHolds(labels, active, capacity, graph)
    ensures StoredIn(labels, active, graph).Keys == active
  {
    ActiveHasItem(labels, reverse, active, capacity, graph);
  }

  lemma NothingCopied(ids: seq<Id>, was: map<Id, nat>, source: Graph)
    ensures Numbered(ids, 0, map[]) && Copied(ids, 0, was, source, Graph(map[], {}))
  {
  }

  lemma NumberedCount(ids: seq<Id>, labels: map<Id, nat>, active: set<Id>)
    requires Numbered(ids, |ids|, labels) && forall id :: id in ids <==> id in active
    ensures |ids| == |active|
  {
    assert ids[..|ids|] == ids;
    assert labels.Keys == active;
  }

  lemma GenuineLabels(m: Manifest, graph: Graph)
    ensures Genuine(m, graph) ==> graph.items.Keys == set id | id in m.labels :: m.labels[id]
  {
    hide Bijection, GraphHolds;
    if Genuine(m, graph) {
      var reverse :| Bijection(m.labels, reverse) && GraphHolds(m.labels, m.active, m.capacity, graph);
      LabelsAreItems(m.labels, reverse, m.active, m.capacity, graph);
    }
  }

  lemma LabelsAreItems(labels: map<Id, nat>, reverse: map<nat, Id>, active: set<Id>, capacity: nat, graph: Graph)
    requires Bijection(labels, reverse) && GraphHolds(labels, active, capacity, graph)
    ensures graph.items.Keys == set id | id in labels :: labels[id]
  {
    forall l: nat | l in graph.items ensures exists id :: id in labels && labels[id] == l {
      assert l in reverse;
      assert labels[reverse[l]] == l;
    }
    assert forall id :: id in labels ==> labels[id] in reverse;
  }
}
