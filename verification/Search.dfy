/** Exact vector ranking (`src/ranking.rs`, `src/vector_index.rs`) and the hybrid search of
    `memory_core/memory/cache.py`. */
module Search {
  import opened Types
  import opened Counting
  import opened Ordering
  import opened Rankings
  import opened Fields
  import opened Scores
  import opened Shortlist
  import opened Postings
  import opened Cache

  // ---------- top_k ----------

  /** What `select_nth_unstable_by(k - 1)` leaves: the k best in front, in any order. */
  ghost predicate Selects(items: seq<Hit>, k: nat, selected: seq<Hit>) {
    && multiset(selected) == multiset(items) && k <= |selected|
    && forall x, y :: x in selected[..k] && y in selected[k..] ==> !Before(y, x)
  }

  class Ranking {
    var items: seq<Hit>

    constructor (items: seq<Hit>)
      ensures this.items == items
    {
      this.items := items;
    }

    /** `top_k`: partial selection, truncation and a sort of what is left give the prefix of the full sort. */
    method TopK(k: nat, selected: seq<Hit>)
      requires 0 < k < |items| ==> Selects(items, k, selected)
      modifies this
      ensures items == Best(old(items), k)
    {
      hide SortHits, Best;
      if k == 0 {
        NoneAreBest(items);
        items := [];
        return;
      }
      if |items| > k {
        SelectedIsBest(items, k, selected);
        items := selected[..k];
      } else {
        AllAreBest(items, k);
      }
      items := SortHits(items);
    }
  }

  lemma SelectedIsBest(items: seq<Hit>, k: nat, selected: seq<Hit>)
    requires Selects(items, k, selected)
    ensures SortHits(selected[..k]) == Best(items, k)
  {
    hide SortHits, Best, Before;
    var head, tail := selected[..k], selected[k..];
    assert selected == head + tail;
    SortHitsSorted(head);
    SameMembers(SortHits(head), head);
    BestOfSplit(SortHits(head), tail, items);
  }

  lemma AllAreBest(items: seq<Hit>, k: nat)
    requires |items| <= k
    ensures SortHits(items) == Best(items, k)
  {
  }

  lemma NoneAreBest(items: seq<Hit>)
    ensures Best(items, 0) == []
  {
  }

  // ---------- the exact index ----------

  /** `normalized`; `root` of the square norm is the norm. */
  function Normalized(v: Vector, dim: nat, allowZero: bool, root: real -> real): Option<Vector> {
    if |v| != dim then None
    else
      var norm := root(Dot(v, v));
      if norm == 0.0 then (if allowZero then Some(v) else None)
      else Some(Divided(v, norm))
  }

  function Divided(v: Vector, norm: real): (r: Vector)
    requires norm != 0.0
    ensures |r| == |v| && forall i :: 0 <= i < |v| ==> r[i] == v[i] / norm
  {
    seq(|v|, i requires 0 <= i < |v| => v[i] / norm)
  }

  lemma {:induction false} DotOfDivided(v: Vector, norm: real)
    requires norm > 0.0
    ensures Times(norm * norm, Dot(Divided(v, norm), Divided(v, norm))) == Dot(v, v)
  {
    if v != [] {
      var n := |v| - 1;
      DotOfDivided(v[..n], norm);
      var d := Divided(v, norm);
      assert d[..n] == Divided(v[..n], norm);
      var x := v[n] / norm;
      Quotient(v[n], norm);
      assert Times(norm * norm, x * x) == v[n] * v[n] by { SquareOfProduct(1.0, norm, x); }
      assert Times(norm * norm, Dot(d[..n], d[..n]) + x * x)
        == Times(norm * norm, Dot(d[..n], d[..n])) + Times(norm * norm, x * x);
    }
  }

  /** A stored vector has norm one, unless zero vectors are allowed and it is one. */
  lemma RootOfZero(x: real, root: real -> real)
    requires IsRoot(root) && x >= 0.0
    ensures root(x) >= 0.0 && (root(x) == 0.0 <==> x == 0.0)
  {
    assert Times(root(x), root(x)) == x;
  }

  predicate Along(v: Vector, norm: real, u: Vector) {
    |u| == |v| && forall i :: 0 <= i < |v| ==> v[i] == norm * u[i]
  }

  /** What is stored points the way the embedding did: the embedding is the stored vector times its own norm. */
  lemma NormalizedKeepsDirection(v: Vector, dim: nat, allowZero: bool, root: real -> real)
    requires IsRoot(root)
    ensures
      var u := Normalized(v, dim, allowZero, root);
      && (u.None? <==> |v| != dim || (Dot(v, v) == 0.0 && !allowZero))
      && (u.Some? ==> exists norm: real :: norm > 0.0 && Along(v, norm, u.value))
  {
    hide Dot;
    DotSelf(v);
    var norm := root(Dot(v, v));
    RootOfZero(Dot(v, v), root);
    var u := Normalized(v, dim, allowZero, root);
    if u.Some? {
      if norm == 0.0 {
        assert Along(v, 1.0, u.value);
      } else {
        forall i | 0 <= i < |v| ensures v[i] == norm * u.value[i] { Cancels(v[i], norm); }
        assert Along(v, norm, u.value);
      }
    }
  }

  lemma NormalizedHasUnitNorm(v: Vector, dim: nat, allowZero: bool, root: real -> real)
    requires IsRoot(root) && Normalized(v, dim, allowZero, root).Some?
    ensures
      var u := Normalized(v, dim, allowZero, root).value;
      |u| == dim && (Dot(u, u) == 1.0 || (allowZero && u == v && Dot(v, v) == 0.0))
  {
    DotSelf(v);
    var norm := root(Dot(v, v));
    if norm != 0.0 {
      DotOfDivided(v, norm);
      var u := Divided(v, norm);
      assert Square(norm) == Dot(v, v);
      OneSolution(norm * norm, Dot(u, u));
    }
  }

  lemma OneSolution(k: real, x: real)
    requires k > 0.0 && Times(k, x) == k
    ensures x == 1.0
  {
    ByOne(k);
    if x < 1.0 { TimesStrict(k, x, 1.0); }
    if x > 1.0 { TimesStrict(k, 1.0, x); }
  }

  /** The product of two stored vectors is a cosine. */
  lemma UnitProducts(a: Vector, b: Vector)
    requires |a| == |b| && Dot(a, a) <= 1.0 && Dot(b, b) <= 1.0
    ensures -1.0 <= Dot(a, b) <= 1.0
  {
    CauchySchwarz(a, b);
    DotSelf(a);
    DotSelf(b);
    ProductOfNorms(Dot(a, b), Dot(a, a), Dot(b, b));
  }

  lemma ProductOfNorms(d: real, x: real, y: real)
    requires d * d <= x * y && 0.0 <= x <= 1.0 && 0.0 <= y <= 1.0
    ensures -1.0 <= d <= 1.0
  {
    TimesWithin(x, y, 0.0, 1.0);
    ByOne(x);
    assert Square(d) <= Square(1.0);
    SquareRootMonotone(d, 1.0);
  }

  // ---------- what an index answers ----------

  /** The similarity of each stored vector to the query, among the given ids. */
  function Similar(vectors: map<Id, Vector>, q: Vector, ids: set<Id>): map<Id, real> {
    map id | id in vectors && id in ids :: Dot(vectors[id], q)
  }

  /** What every backend promises: as many distinct eligible ids as asked for and available, with their true
      similarity. */
  ghost predicate Answers(vectors: map<Id, Vector>, q: Vector, ids: set<Id>, k: nat, r: seq<Hit>) {
    var scores := Similar(vectors, q, ids);
    && (forall i, j :: 0 <= i < j < |r| ==> r[i].id != r[j].id)
    && (forall h :: h in r ==> h.id in scores && h == Hit(h.id, Real(scores[h.id]), 0))
    && |r| == if |scores| < k then |scores| else k
  }

  function Members(ids: seq<Id>): set<Id> { set id | id in ids }

  /** Asked for enough, an index answers with every eligible vector. */
  lemma AnswersEverything(vectors: map<Id, Vector>, q: Vector, ids: set<Id>, k: nat, r: seq<Hit>)
    requires Answers(vectors, q, ids, k, r) && |ids| <= k
    ensures IdsOf(r) == Similar(vectors, q, ids).Keys
  {
    var scores := Similar(vectors, q, ids);
    SubsetSize(scores.Keys, ids);
    DistinctIds(r);
    SubsetSize(IdsOf(r), scores.Keys);
  }

  /** The best of a full listing is an answer. */
  lemma BestIsAnswer(vectors: map<Id, Vector>, q: Vector, ids: set<Id>, k: nat, hits: seq<Hit>)
    requires Lists(hits, Similar(vectors, q, ids))
    ensures Answers(vectors, q, ids, k, Best(hits, k))
  {
    ListCount(hits, Similar(vectors, q, ids));
    BestKeepsDistinct(hits, k);
  }

  /** Exact scores of the stored ids among those given, in order. */
  function HitsFor(stored: map<Id, Vector>, q: Vector, ids: seq<Id>): seq<Hit> {
    if ids == [] then []
    else
      var n := |ids| - 1;
      HitsFor(stored, q, ids[..n]) + (if ids[n] in stored then [Hit(ids[n], Real(Dot(stored[ids[n]], q)), 0)] else [])
  }

  lemma {:induction false} HitsForConcat(stored: map<Id, Vector>, q: Vector, a: seq<Id>, b: seq<Id>)
    ensures HitsFor(stored, q, a + b) == HitsFor(stored, q, a) + HitsFor(stored, q, b)
  {
    if b == [] {
      assert a + b == a;
    } else {
      var n := |b| - 1;
      assert (a + b)[..|a + b| - 1] == a + b[..n];
      HitsForConcat(stored, q, a, b[..n]);
    }
  }

  lemma {:induction false} HitsForLists(stored: map<Id, Vector>, q: Vector, ids: seq<Id>)
    requires Distinct(ids)
    ensures Lists(HitsFor(stored, q, ids), Similar(stored, q, Members(ids)))
    ensures (forall id :: id in ids ==> id in stored) ==> |HitsFor(stored, q, ids)| == |ids|
  {
    hide Dot, Lists, Similar, Members;
    if ids == [] {
      NothingListed(stored, q);
    } else {
      var n := |ids| - 1;
      HitsForLists(stored, q, ids[..n]);
      assert ids == ids[..n] + [ids[n]];
      SimilarOneMore(stored, q, ids);
      if ids[n] in stored {
        ListOneMore(HitsFor(stored, q, ids[..n]), Similar(stored, q, Members(ids[..n])), ids[n],
          Dot(stored[ids[n]], q));
      } else {
        assert HitsFor(stored, q, ids) == HitsFor(stored, q, ids[..n]);
      }
    }
  }

  lemma NothingListed(stored: map<Id, Vector>, q: Vector)
    ensures Lists([], Similar(stored, q, Members([])))
  {
  }

  lemma SimilarOneMore(stored: map<Id, Vector>, q: Vector, ids: seq<Id>)
    requires Distinct(ids) && ids != []
    ensures
      var n := |ids| - 1;
      var before := Similar(stored, q, Members(ids[..n]));
      && ids[n] !in before
      && Similar(stored, q, Members(ids))
        == if ids[n] in stored then before[ids[n] := Dot(stored[ids[n]], q)] else before
  {
    hide Dot;
    var n := |ids| - 1;
    assert ids == ids[..n] + [ids[n]];
    assert Members(ids) == Members(ids[..n]) + {ids[n]};
  }

  class VectorIndex {
    const dim: nat
    const allowZero: bool
    const root: real -> real
    var vectors: map<Id, Vector>

    constructor (dim: nat, allowZero: bool, root: real -> real)
      ensures vectors == map[] && this.dim == dim && this.allowZero == allowZero && this.root == root
    {
      this.dim, this.allowZero, this.root, this.vectors := dim, allowZero, root, map[];
    }

    method Upsert(id: Id, vector: Vector) returns (ok: bool)
      modifies this
      ensures ok <==> Normalized(vector, dim, allowZero, root).Some?
      ensures vectors == if ok then old(vectors)[id := Normalized(vector, dim, allowZero, root).value] else old(vectors)
    {
      var normalized := Normalized(vector, dim, allowZero, root);
      ok := normalized.Some?;
      if ok { vectors := vectors[id := normalized.value]; }
    }

    method Remove(id: Id) returns (existed: bool)
      modifies this
      ensures existed == (id in old(vectors)) && vectors == old(vectors) - {id}
    {
      existed := id in vectors;
      vectors := vectors - {id};
    }

    /** `search`: the k best of the stored vectors among the given ids. */
    method Search(query: Vector, ids: seq<Id>, k: nat, selected: seq<Hit> -> seq<Hit>) returns (r: Option<seq<Hit>>)
      requires forall s: seq<Hit> :: 0 < k < |s| ==> Selects(s, k, selected(s))
      ensures r == match Normalized(query, dim, allowZero, root)
                   case None => None
                   case Some(q) => Some(Best(HitsFor(vectors, q, ids), k))
    {
      hide Best, Selects;
      var normalized := Normalized(query, dim, allowZero, root);
      if normalized.None? { return None; }
      var q := normalized.value;
      var scores: seq<Hit> := [];
      for i := 0 to |ids|
        invariant scores == HitsFor(vectors, q, ids[..i])
      {
        assert ids[..i + 1][..i] == ids[..i];
        if ids[i] in vectors {
          scores := scores + [Hit(ids[i], Real(Dot(vectors[ids[i]], q)), 0)];
        }
      }
      assert ids[..|ids|] == ids;
      var ranking := new Ranking(scores);
      ranking.TopK(k, selected(scores));
      r := Some(ranking.items);
    }
  }

  /** Whatever order distinct ids come in, the answer is the best of the stored vectors among them, in full. */
  lemma AnswerIgnoresOrder(vectors: map<Id, Vector>, q: Vector, a: seq<Id>, b: seq<Id>, k: nat)
    requires Distinct(a) && Distinct(b) && Members(a) == Members(b)
    ensures Best(HitsFor(vectors, q, a), k) == Best(HitsFor(vectors, q, b), k)
    ensures Answers(vectors, q, Members(a), k, Best(HitsFor(vectors, q, a), k))
  {
    hide Best, HitsFor, Lists, Answers, Members;
    HitsForLists(vectors, q, a);
    HitsForLists(vectors, q, b);
    SameListing(HitsFor(vectors, q, a), HitsFor(vectors, q, b), Similar(vectors, q, Members(a)));
    BestIgnoresOrder(HitsFor(vectors, q, a), HitsFor(vectors, q, b), k);
    BestIsAnswer(vectors, q, Members(a), k, HitsFor(vectors, q, a));
  }

  // ---------- hybrid search ----------

  /** How many words of the query each record among `ids` has, where it has any. */
  ghost predicate CountsWords(headers: map<Id, Header>, ids: set<Id>, words: set<string>, counts: map<Id, nat>) {
    && (forall id :: id in counts <==> id in ids && id in headers && words * headers[id].words != {})
    && (forall id :: id in counts ==> counts[id] == |words * headers[id].words|)
  }

  lemma CountWordOneMore(headers: map<Id, Header>, ids: set<Id>, done: set<string>, counts: map<Id, nat>, word: string,
                         hits: set<Id>)
    requires CountsWords(headers, ids, done, counts) && word !in done
    requires hits == set id | id in ids && id in headers && word in headers[id].words
    ensures CountsWords(headers, ids, done + {word},
      map id | id in counts.Keys + hits :: (if id in counts then counts[id] else 0) + (if id in hits then 1 else 0))
  {
    forall id | id in ids && id in headers
      ensures
        var before, after := done * headers[id].words, (done + {word}) * headers[id].words;
        |after| == |before| + (if id in hits then 1 else 0) && (after != {} <==> before != {} || id in hits)
    {
      OneMoreWord(done, word, headers[id].words);
    }
  }

  lemma OneMoreWord(done: set<string>, word: string, words: set<string>)
    requires word !in done
    ensures |(done + {word}) * words| == |done * words| + (if word in words then 1 else 0)
    ensures (done + {word}) * words != {} <==> done * words != {} || word in words
  {
    assert (done + {word}) * words == if word in words then done * words + {word} else done * words;
    if word in words { assert word in (done + {word}) * words; }
  }

  /** The eligible records as the search sees them. */
  ghost function PoolOf(headers: map<Id, Header>, vectors: map<Id, Vector>, words: set<string>, q: Vector,
                        ids: set<Id>): Pool
  {
    map id | id in ids && id in headers ::
      Candidate(if id in vectors then Some(Dot(vectors[id], q)) else None, |words * headers[id].words|)
  }

  /** The counting loop: only postings of the query's words are visited. */
  method CountWords(ghost headers: map<Id, Header>, lexical: map<string, set<Id>>, words: set<string>, ids: set<Id>)
    returns (counts: map<Id, nat>)
    requires Inverse(lexical, Per(headers, Words))
    ensures CountsWords(headers, ids, words, counts)
  {
    hide CountsWords, Inverse, At, Per;
    counts := map[];
    NoWords(headers, ids);
    var rest := words;
    while rest != {}
      invariant rest <= words && CountsWords(headers, ids, words - rest, counts)
      decreases rest
    {
      var word :| word in rest;
      var hits := At(lexical, word) * ids;
      WordPosting(headers, lexical, word);
      CountWordOneMore(headers, ids, words - rest, counts, word, hits);
      counts := map id | id in counts.Keys + hits ::
        (if id in counts then counts[id] else 0) + (if id in hits then 1 else 0);
      assert words - (rest - {word}) == (words - rest) + {word};
      rest := rest - {word};
    }
    assert words - rest == words;
  }

  lemma NoWords(headers: map<Id, Header>, ids: set<Id>)
    ensures forall words: set<string> :: CountsWords(headers, ids, words - words, map[])
  {
  }

  lemma WordPosting(headers: map<Id, Header>, lexical: map<string, set<Id>>, word: string)
    requires Inverse(lexical, Per(headers, Words))
    ensures forall id :: id in At(lexical, word) <==> id in headers && word in headers[id].words
  {
  }

  function CountScores(counts: map<Id, nat>): map<Id, real> {
    map id | id in counts :: counts[id] as real
  }

  lemma CountsAreLexical(headers: map<Id, Header>, vectors: map<Id, Vector>, words: set<string>, q: Vector,
                         ids: set<Id>, counts: map<Id, nat>)
    requires CountsWords(headers, ids, words, counts)
    ensures CountScores(counts) == Lexical(PoolOf(headers, vectors, words, q, ids))
    ensures counts.Keys <= ids
  {
    hide Dot;
    var cs := PoolOf(headers, vectors, words, q, ids);
    forall id | id in ids && id in headers ensures id in counts <==> cs[id].overlap > 0 { }
  }

  /** Every entry is the true similarity of an eligible stored vector. */
  ghost predicate True(vectors: map<Id, Vector>, q: Vector, ids: set<Id>, cosines: map<Id, real>) {
    forall id :: id in cosines ==> id in vectors && id in ids && cosines[id] == Dot(vectors[id], q)
  }

  /** `dict(...)` of the first answer, updated with the scores of every lexical candidate it missed. */
  method Gather(vectors: map<Id, Vector>, q: Vector, ids: set<Id>, found: seq<Hit>, lexical: set<Id>)
    returns (semantic: map<Id, real>)
    requires lexical <= ids
    requires forall h :: h in found ==> h.id in vectors && h.id in ids && Value(h) == Dot(vectors[h.id], q)
    ensures True(vectors, q, ids, semantic)
    ensures semantic.Keys == IdsOf(found) + lexical * vectors.Keys
  {
    hide Dot;
    semantic := map[];
    for i := 0 to |found|
      invariant semantic.Keys == IdsOf(found[..i]) && True(vectors, q, ids, semantic)
    {
      assert found[..i + 1] == found[..i] + [found[i]];
      assert found[i] in found;
      semantic := semantic[found[i].id := Value(found[i])];
    }
    assert found[..|found|] == found;
    var missing := lexical - semantic.Keys;
    semantic := semantic + map id | id in missing && id in vectors :: Dot(vectors[id], q);
  }

  /** `nsmallest(budget, counts)`: the ids with the most query words. */
  method TopWords(counts: map<Id, nat>, budget: nat) returns (lexical: set<Id>)
    ensures lexical == IdsOf(Top(CountScores(counts), budget)) && lexical <= counts.Keys
  {
    hide Best, Lists, Top, IdsOf;
    var ranked := SortNames(counts.Keys);
    ListedLists(ranked, CountScores(counts));
    TopIsBest(Listed(ranked, CountScores(counts)), CountScores(counts), budget);
    TopShape(CountScores(counts), budget);
    lexical := IdsOf(Best(Listed(ranked, CountScores(counts)), budget));
  }

  /** Score, sort, drop what does not exceed the minimum and cut. */
  method Rank(scores: map<Id, real>, minimum: real, limit: nat) returns (r: seq<Hit>)
    ensures r == Top(map id | id in scores && scores[id] > minimum :: scores[id], limit)
  {
    hide Best, Lists, Top;
    var kept := map id | id in scores && scores[id] > minimum :: scores[id];
    var names := SortNames(kept.Keys);
    ListedLists(names, kept);
    TopIsBest(Listed(names, kept), kept, limit);
    r := Best(Listed(names, kept), limit);
  }

  function FirstAsk(p: Policy, ids: set<Id>, limit: nat): nat {
    Min(|ids|, Budget(p, limit))
  }

  function Value(h: Hit): real { if h.score.Real? then h.score.value else 0.0 }

  lemma FoundIsTrue(vectors: map<Id, Vector>, q: Vector, ids: set<Id>, k: nat, found: seq<Hit>)
    requires Answers(vectors, q, ids, k, found)
    ensures forall h :: h in found ==> h.id in vectors && h.id in ids && Value(h) == Dot(vectors[h.id], q)
  {
  }

  method ScoreAll(ghost headers: map<Id, Header>, ghost vectors: map<Id, Vector>, ghost q: Vector, p: Policy,
                  words: set<string>, ghost ids: set<Id>, counts: map<Id, nat>, semantic: map<Id, real>)
    returns (scores: map<Id, real>)
    requires ValidPolicy(p) && ids <= headers.Keys && True(vectors, q, ids, semantic)
    requires CountsWords(headers, ids, words, counts)
    ensures (map id | id in scores && scores[id] > p.minimum :: scores[id])
         == Scored(p, |words|, PoolOf(headers, vectors, words, q, ids), semantic.Keys)
  {
    hide Hybrid, Dot, True, CountsWords, PoolOf;
    scores := map id | id in semantic :: Hybrid(p, semantic[id], if id in counts then counts[id] else 0, |words|);
    ScoresAgree(headers, vectors, q, p, words, ids, counts, semantic, scores);
  }

  lemma ScoreAgrees(headers: map<Id, Header>, vectors: map<Id, Vector>, q: Vector, words: set<string>, ids: set<Id>,
                    counts: map<Id, nat>, semantic: map<Id, real>, id: Id)
    requires ids <= headers.Keys && True(vectors, q, ids, semantic) && CountsWords(headers, ids, words, counts)
      && id in semantic
    ensures
      var cs := PoolOf(headers, vectors, words, q, ids);
      id in cs && cs[id] == Candidate(Some(semantic[id]), if id in counts then counts[id] else 0)
  {
    hide Dot;
  }

  lemma ScoresAgree(headers: map<Id, Header>, vectors: map<Id, Vector>, q: Vector, p: Policy, words: set<string>,
                    ids: set<Id>, counts: map<Id, nat>, semantic: map<Id, real>, scores: map<Id, real>)
    requires ValidPolicy(p) && ids <= headers.Keys && True(vectors, q, ids, semantic)
      && CountsWords(headers, ids, words, counts)
    requires scores
      == map id | id in semantic :: Hybrid(p, semantic[id], if id in counts then counts[id] else 0, |words|)
    ensures (map id | id in scores && scores[id] > p.minimum :: scores[id])
         == Scored(p, |words|, PoolOf(headers, vectors, words, q, ids), semantic.Keys)
  {
    hide Hybrid, True, CountsWords, PoolOf;
    var cs := PoolOf(headers, vectors, words, q, ids);
    forall id | id in semantic ensures id in cs && cs[id].cosine.Some? && scores[id] == ScoreOf(p, |words|, cs[id]) {
      ScoreAgrees(headers, vectors, q, words, ids, counts, semantic, id);
    }
  }

  /** `search` over the word postings and vectors of some records. `found` is what the vector index answered to the
      first query; the second asks for every missing lexical candidate, so its answer is determined. */
  method SearchIndexes(ghost headers: map<Id, Header>, lexical: map<string, set<Id>>, vectors: map<Id, Vector>,
                       p: Policy, words: set<string>, q: Vector, ids: set<Id>, limit: nat, found: seq<Hit>)
      returns (r: seq<Hit>)
    requires ValidPolicy(p) && ids <= headers.Keys && Inverse(lexical, Per(headers, Words))
    requires Answers(vectors, q, ids, FirstAsk(p, ids, limit), found)
    ensures r == AnswerFrom(p, |words|, PoolOf(headers, vectors, words, q, ids), IdsOf(found), limit)
  {
    hide CountsWords, Inverse, Answers, Dot, True, IdsOf, Value, Budget, FirstAsk, Top, Hybrid, Scored, PoolOf, Lexical;
    hide CountScores;
    FoundIsTrue(vectors, q, ids, FirstAsk(p, ids, limit), found);
    var counts := CountWords(headers, lexical, words, ids);
    CountsAreLexical(headers, vectors, words, q, ids, counts);
    var most := TopWords(counts, Budget(p, limit));
    var semantic := Gather(vectors, q, ids, found, most);
    var scores := ScoreAll(headers, vectors, q, p, words, ids, counts, semantic);
    r := Rank(scores, p.minimum, limit);
    VectorlessScoreNothing(p, |words|, headers, vectors, words, q, ids, IdsOf(found), most);
  }

  /** Asking for the lexical candidates with a vector, or for all of them, scores the same. */
  lemma VectorlessScoreNothing(p: Policy, n: nat, headers: map<Id, Header>, vectors: map<Id, Vector>,
                               words: set<string>, q: Vector, ids: set<Id>, first: set<Id>, most: set<Id>)
    requires ValidPolicy(p)
    ensures
      var cs := PoolOf(headers, vectors, words, q, ids);
      Scored(p, n, cs, first + most * vectors.Keys) == Scored(p, n, cs, first + most)
  {
    hide Hybrid, Dot;
  }

  /** `OwnerCache.search`. */
  method HybridSearch(cache: OwnerCache, p: Policy, words: set<string>, q: Vector, ids: set<Id>, limit: nat,
                      found: seq<Hit>)
    returns (r: seq<Hit>)
    requires cache.Valid() && ValidPolicy(p) && ids <= cache.headers.Keys
    requires Answers(cache.vectors, q, ids, FirstAsk(p, ids, limit), found)
    ensures r == AnswerFrom(p, |words|, PoolOf(cache.headers, cache.vectors, words, q, ids), IdsOf(found), limit)
  {
    hide Inverse, Per, Answers, AnswerFrom, PoolOf, IdsOf;
    r := SearchIndexes(cache.headers, cache.lexical, cache.vectors, p, words, q, ids, limit, found);
  }

  // ---------- what the search answers ----------

  lemma SemanticIsSimilar(headers: map<Id, Header>, vectors: map<Id, Vector>, words: set<string>, q: Vector,
                          ids: set<Id>)
    requires ids <= headers.Keys
    ensures Semantic(PoolOf(headers, vectors, words, q, ids)) == Similar(vectors, q, ids)
    ensures PoolOf(headers, vectors, words, q, ids).Keys == ids
  {
    hide Dot;
  }

  /** Stored unit vectors of one dimension, and such a query. */
  ghost predicate Unit(vectors: map<Id, Vector>, q: Vector) {
    Dot(q, q) <= 1.0 && forall id :: id in vectors ==> |vectors[id]| == |q| && Dot(vectors[id], vectors[id]) <= 1.0
  }

  /** Over stored unit vectors the pool holds only what a search can meet. */
  lemma PoolIsSane(headers: map<Id, Header>, vectors: map<Id, Vector>, words: set<string>, q: Vector, ids: set<Id>)
    requires Unit(vectors, q)
    ensures Sane(|words|, PoolOf(headers, vectors, words, q, ids))
  {
    hide Dot;
    forall id | id in headers ensures |words * headers[id].words| <= |words| {
      SubsetSize(words * headers[id].words, words);
    }
    forall id | id in vectors ensures Dot(vectors[id], q) <= 1.0 { UnitProducts(vectors[id], q); }
  }

  /** Over the exact index the search is `Answer`. */
  lemma ExactBackendAnswers(headers: map<Id, Header>, vectors: map<Id, Vector>, p: Policy, words: set<string>,
                            q: Vector, ids: set<Id>, limit: nat, hits: seq<Hit>)
    requires ValidPolicy(p) && ids <= headers.Keys && Lists(hits, Similar(vectors, q, ids))
    ensures
      var cs := PoolOf(headers, vectors, words, q, ids);
      AnswerFrom(p, |words|, cs, IdsOf(Best(hits, FirstAsk(p, ids, limit))), limit) == Answer(p, |words|, cs, limit)
  {
    hide Best, Lists, Top, Dot, Similar, Scored;
    var scores := Similar(vectors, q, ids);
    SemanticIsSimilar(headers, vectors, words, q, ids);
    TopIsBest(hits, scores, FirstAsk(p, ids, limit));
    SimilarIsAmong(vectors, q, ids);
    TopBeyond(scores, FirstAsk(p, ids, limit), Budget(p, limit));
  }

  lemma SimilarIsAmong(vectors: map<Id, Vector>, q: Vector, ids: set<Id>)
    ensures |Similar(vectors, q, ids)| <= |ids|
  {
    SubsetSize(Similar(vectors, q, ids).Keys, ids);
  }

  /** With a budget that covers the eligible ids the answer does not depend on the index: whatever two backends answered
      first, each within its contract, the searches are equal, and equal to scoring every eligible record. */
  lemma CoveredSearchIgnoresBackend(headers: map<Id, Header>, vectors: map<Id, Vector>, p: Policy, words: set<string>,
                                    q: Vector, ids: set<Id>, limit: nat, a: seq<Hit>, b: seq<Hit>)
    requires ValidPolicy(p) && ids <= headers.Keys && |ids| <= Budget(p, limit)
    requires Answers(vectors, q, ids, FirstAsk(p, ids, limit), a)
      && Answers(vectors, q, ids, FirstAsk(p, ids, limit), b)
    ensures
      var cs := PoolOf(headers, vectors, words, q, ids);
      && AnswerFrom(p, |words|, cs, IdsOf(a), limit) == AnswerFrom(p, |words|, cs, IdsOf(b), limit)
      && AnswerFrom(p, |words|, cs, IdsOf(a), limit) == FullAnswer(p, |words|, cs, limit)
  {
    hide Answers, Top, Dot, Similar, Hybrid;
    AnswersEverything(vectors, q, ids, |ids|, a);
    AnswersEverything(vectors, q, ids, |ids|, b);
    SemanticIsSimilar(headers, vectors, words, q, ids);
    var cs := PoolOf(headers, vectors, words, q, ids);
    assert Scored(p, |words|, cs, Semantic(cs).Keys + MostWords(p, cs, limit)) == Scored(p, |words|, cs, cs.Keys);
  }

  /** Over the exact index, the search is as good as scoring every eligible record whenever
      the policy covers their number. */
  lemma CoveredSearchIsExact(headers: map<Id, Header>, vectors: map<Id, Vector>, p: Policy, words: set<string>,
                             q: Vector, ids: set<Id>, limit: nat, hits: seq<Hit>)
    requires ValidPolicy(p) && ids <= headers.Keys && Lists(hits, Similar(vectors, q, ids)) && Unit(vectors, q)
    requires Suffices(p, limit, PoolOf(headers, vectors, words, q, ids))
    ensures
      var cs := PoolOf(headers, vectors, words, q, ids);
      && AnswerFrom(p, |words|, cs, IdsOf(Best(hits, FirstAsk(p, ids, limit))), limit)
         == FullAnswer(p, |words|, cs, limit)
      && forall h :: h in FullAnswer(p, |words|, cs, limit) ==> h.score.Real? && p.minimum < h.score.value <= 1.0
  {
    hide Best, Lists, Answer, AnswerFrom, PoolOf, FullAnswer, Dot, IdsOf, FirstAsk, Suffices, Similar, ScoreOf;
    var cs := PoolOf(headers, vectors, words, q, ids);
    ExactBackendAnswers(headers, vectors, p, words, q, ids, limit, hits);
    PoolIsSane(headers, vectors, words, q, ids);
    SemanticIsSimilar(headers, vectors, words, q, ids);
    ShortlistIsExact(p, |words|, cs, limit);
    FullIsFrom(p, |words|, cs, limit);
    AnswerIsScored(p, |words|, cs, cs.Keys, limit);
  }

  lemma FullIsFrom(p: Policy, words: nat, cs: Pool, limit: nat)
    requires ValidPolicy(p)
    ensures AnswerFrom(p, words, cs, cs.Keys, limit) == FullAnswer(p, words, cs, limit)
  {
    hide Hybrid, Top, MostWords;
    assert Scored(p, words, cs, cs.Keys + MostWords(p, cs, limit)) == Scored(p, words, cs, cs.Keys);
  }
}
