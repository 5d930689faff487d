/** The candidate shortlist of `OwnerCache.search` in `memory_core/memory/cache.py`: what it answers, and exactly when
    answering from it is as good as scoring everything. */
module Shortlist {
  import opened Types
  import opened Counting
  import opened Ordering
  import opened Rankings
  import opened Scores

  /** An eligible record as the search sees it: its cosine if it has a vector, and how many query words it has. */
  datatype Candidate = Candidate(cosine: Option<real>, overlap: nat)

  type Pool = map<Id, Candidate>

  /** `max(limit * candidate_multiplier, candidate_floor)`. */
  function Budget(p: Policy, limit: nat): nat {
    Max(limit * p.multiplier, p.floor)
  }

  function Semantic(cs: Pool): map<Id, real> {
    map id | id in cs && cs[id].cosine.Some? :: cs[id].cosine.value
  }

  function Lexical(cs: Pool): map<Id, real> {
    map id | id in cs && cs[id].overlap > 0 :: cs[id].overlap as real
  }

  function ScoreOf(p: Policy, words: nat, c: Candidate): real
    requires ValidPolicy(p) && c.cosine.Some?
  {
    Hybrid(p, c.cosine.value, c.overlap, words)
  }

  /** The scores above the minimum of the chosen candidates that have a vector. */
  function Scored(p: Policy, words: nat, cs: Pool, chosen: set<Id>): map<Id, real>
    requires ValidPolicy(p)
  {
    map id | id in cs && id in chosen && cs[id].cosine.Some? && ScoreOf(p, words, cs[id]) > p.minimum ::
      ScoreOf(p, words, cs[id])
  }

  ghost function MostWords(p: Policy, cs: Pool, limit: nat): set<Id> {
    IdsOf(Top(Lexical(cs), Budget(p, limit)))
  }

  /** What `search` answers when the vector index's first answer named the ids in `first`. */
  ghost function AnswerFrom(p: Policy, words: nat, cs: Pool, first: set<Id>, limit: nat): seq<Hit>
    requires ValidPolicy(p)
  {
    Top(Scored(p, words, cs, first + MostWords(p, cs, limit)), limit)
  }

  /** What it answers over the exact index, whose first answer is the best of the cosines within the budget. */
  ghost function Answer(p: Policy, words: nat, cs: Pool, limit: nat): seq<Hit>
    requires ValidPolicy(p)
  {
    AnswerFrom(p, words, cs, IdsOf(Top(Semantic(cs), Budget(p, limit))), limit)
  }

  /** Scoring every candidate. */
  ghost function FullAnswer(p: Policy, words: nat, cs: Pool, limit: nat): seq<Hit>
    requires ValidPolicy(p)
  {
    Top(Scored(p, words, cs, cs.Keys), limit)
  }

  /** What scoring everything answers: of any two candidates with a vector that score above the minimum, the one that
      scores higher, or the same under the smaller id, is answered whenever the other is; all of them are, up to the
      limit. */
  lemma FullAnswerMeaning(p: Policy, words: nat, cs: Pool, limit: nat, x: Id)
    requires ValidPolicy(p) && x in cs
    ensures
      var c, answered := cs[x], IdsOf(FullAnswer(p, words, cs, limit));
      && answered <= cs.Keys && |answered| <= limit
      && (x in answered ==> c.cosine.Some? && ScoreOf(p, words, c) > p.minimum)
      && (c.cosine.Some? && ScoreOf(p, words, c) > p.minimum && x !in answered ==>
            && |answered| == limit
            && forall d :: d in answered ==>
                 && cs[d].cosine.Some?
                 && (ScoreOf(p, words, cs[d]) > ScoreOf(p, words, c)
                     || (ScoreOf(p, words, cs[d]) == ScoreOf(p, words, c) && Precedes(d, x))))
  {
    hide Top, ScoreOf, Before, IdsOf, Precedes;
    var scores := Scored(p, words, cs, cs.Keys);
    TopShape(scores, limit);
    if x in scores && x !in IdsOf(Top(scores, limit)) {
      TopMissing(scores, limit, x);
      forall d | d in IdsOf(Top(scores, limit))
        ensures d in scores && (scores[d] > scores[x] || (scores[d] == scores[x] && Precedes(d, x)))
      {
        BeforeMeaning(HitAt(scores, d), HitAt(scores, x));
      }
    }
  }

  /** Values a search can meet: cosines at most 1, no more words than the query has. */
  ghost predicate Sane(words: nat, cs: Pool) {
    forall id :: id in cs ==> cs[id].overlap <= words && (cs[id].cosine.Some? ==> cs[id].cosine.value <= 1.0)
  }

  /** What comes back is sorted, at most `limit`, and carries true scores above the minimum and at most 1. */
  lemma AnswerIsScored(p: Policy, words: nat, cs: Pool, first: set<Id>, limit: nat)
    requires ValidPolicy(p) && Sane(words, cs)
    ensures Sorted(AnswerFrom(p, words, cs, first, limit)) && |AnswerFrom(p, words, cs, first, limit)| <= limit
    ensures forall h :: h in AnswerFrom(p, words, cs, first, limit) ==>
      && h.id in cs && cs[h.id].cosine.Some? && h == Hit(h.id, Real(ScoreOf(p, words, cs[h.id])), 0)
      && p.minimum < ScoreOf(p, words, cs[h.id]) <= 1.0
  {
    hide Top, Hybrid;
    TopShape(Scored(p, words, cs, first + MostWords(p, cs, limit)), limit);
    forall id | id in cs && cs[id].cosine.Some? ensures ScoreOf(p, words, cs[id]) <= 1.0 {
      HybridInUnit(p, cs[id].cosine.value, cs[id].overlap, words);
    }
  }

  // ---------- dominance ----------

  lemma HybridSteps(p: Policy, x: real, y: real, m: nat, n: nat, words: nat)
    requires ValidPolicy(p) && x <= y && m <= n
    ensures Hybrid(p, x, m, words) <= Hybrid(p, y, n, words)
    ensures x < y && y > 0.0 && p.semanticWeight > 0.0 ==> Hybrid(p, x, m, words) < Hybrid(p, y, n, words)
    ensures m < n && p.lexicalWeight > 0.0 ==> Hybrid(p, x, m, words) < Hybrid(p, y, n, words)
  {
    hide Times;
    var s, l, d := p.semanticWeight, p.lexicalWeight, (if words > 1 then words else 1) as real;
    TimesMonotone(s, Floored(x), Floored(y));
    TimesMonotone(l, m as real, n as real);
    QuotientMonotone(Times(l, m as real), Times(l, n as real), d);
    if x < y && y > 0.0 && s > 0.0 { TimesStrict(s, Floored(x), Floored(y)); }
    if m < n && l > 0.0 {
      TimesStrict(l, m as real, n as real);
      QuotientStrict(Times(l, m as real), Times(l, n as real), d);
    }
    var a := Times(s, Floored(x)) + Times(l, m as real) / d;
    var b := Times(s, Floored(y)) + Times(l, n as real) / d;
    QuotientMonotone(a, b, s + l);
    if a < b { QuotientStrict(a, b, s + l); }
  }

  lemma QuotientStrict(n: real, m: real, d: real)
    requires d > 0.0 && n < m
    ensures n / d < m / d
  {
    Quotient(n, d);
    Quotient(m, d);
    if m / d <= n / d { TimesMonotone(d, m / d, n / d); }
  }

  /** A score without query words comes from a positive cosine. */
  lemma PositiveScore(p: Policy, x: real, words: nat)
    requires ValidPolicy(p) && Hybrid(p, x, 0, words) > 0.0
    ensures x > 0.0 && p.semanticWeight > 0.0
  {
    hide Times;
    ByOne(p.lexicalWeight);
    assert Times(p.semanticWeight, Floored(x)) != 0.0 by {
      if Times(p.semanticWeight, Floored(x)) == 0.0 { ZeroQuotient(p.semanticWeight + p.lexicalWeight); }
    }
  }

  lemma ZeroQuotient(d: real)
    requires d != 0.0
    ensures 0.0 / d == 0.0
  {
  }

  lemma OverlapIgnored(p: Policy, x: real, m: nat, n: nat, words: nat)
    requires ValidPolicy(p) && p.lexicalWeight == 0.0
    ensures Hybrid(p, x, m, words) == Hybrid(p, x, n, words)
  {
    hide Times;
    NoWeight(m as real);
    NoWeight(n as real);
  }

  lemma NoWeight(x: real)
    ensures Times(0.0, x) == 0.0
  {
  }

  /** Why a candidate with a smaller cosine cannot make up for it. */
  predicate Outdone(p: Policy, cs: Pool, d: Id, c: Id) {
    Ahead(Lexical(cs), d, c) || (c in cs && cs[c].overlap == 0) || p.lexicalWeight == 0.0
  }

  lemma SemanticOrder(cs: Pool, d: Id, c: Id)
    requires Ahead(Semantic(cs), d, c)
    ensures d in cs && c in cs && cs[d].cosine.Some? && cs[c].cosine.Some?
    ensures cs[d].cosine.value > cs[c].cosine.value || (cs[d].cosine.value == cs[c].cosine.value && Below(d, c))
  {
  }

  lemma LexicalOrder(cs: Pool, d: Id, c: Id)
    requires Ahead(Lexical(cs), d, c)
    ensures d in cs && c in cs
    ensures cs[d].overlap > cs[c].overlap || (cs[d].overlap == cs[c].overlap && Below(d, c))
  {
  }

  lemma BySize(scores: map<Id, real>, d: Id, c: Id)
    requires d in scores && c in scores && (scores[d] > scores[c] || (scores[d] == scores[c] && Below(d, c)))
    ensures Ahead(scores, d, c)
  {
  }

  /** Ahead in both lists means ahead in the hybrid order, ties included. */
  lemma Dominates(p: Policy, words: nat, cs: Pool, d: Id, c: Id)
    requires ValidPolicy(p) && Ahead(Semantic(cs), d, c) && Outdone(p, cs, d, c)
    requires c in Scored(p, words, cs, cs.Keys)
    ensures Ahead(Scored(p, words, cs, cs.Keys), d, c)
  {
    hide Hybrid, Ahead, Semantic, Lexical;
    SemanticOrder(cs, d, c);
    var x, y, m, n := cs[c].cosine.value, cs[d].cosine.value, cs[c].overlap, cs[d].overlap;
    if Ahead(Lexical(cs), d, c) { LexicalOrder(cs, d, c); }
    if p.lexicalWeight == 0.0 {
      OverlapIgnored(p, x, m, 0, words);
      OverlapIgnored(p, y, n, 0, words);
      HybridSteps(p, x, y, 0, 0, words);
      PositiveScore(p, x, words);
    } else {
      HybridSteps(p, x, y, m, n, words);
      if m == 0 { PositiveScore(p, x, words); }
    }
    BySize(Scored(p, words, cs, cs.Keys), d, c);
  }

  // ---------- exactly when the shortlist suffices ----------

  /** The budget covers `n` eligible records, or words have no weight, or nothing can be answered. */
  predicate CoversAny(p: Policy, limit: nat, n: nat) {
    n + limit <= 2 * Budget(p, limit) + 1 || p.lexicalWeight == 0.0 || p.minimum >= 1.0 || limit == 0
  }

  /** Every eligible record has a vector, as every record the operations store has. */
  ghost predicate Vectored(cs: Pool) {
    forall id :: id in cs ==> cs[id].cosine.Some?
  }

  /** Known before the search of a vectored pool: all that, or cosines have no weight. */
  predicate Covers(p: Policy, limit: nat, n: nat) {
    CoversAny(p, limit, n) || p.semanticWeight == 0.0
  }

  /** The shortlist of this pool cannot miss anything. */
  ghost predicate Suffices(p: Policy, limit: nat, cs: Pool) {
    CoversAny(p, limit, |cs|) || (p.semanticWeight == 0.0 && Vectored(cs))
  }

  lemma BudgetCoversLimit(p: Policy, limit: nat)
    requires ValidPolicy(p)
    ensures limit <= Budget(p, limit)
  {
  }

  lemma NothingAboveOne(p: Policy, words: nat, cs: Pool, chosen: set<Id>)
    requires ValidPolicy(p) && Sane(words, cs) && p.minimum >= 1.0
    ensures Scored(p, words, cs, chosen) == map[]
  {
    hide Hybrid;
    forall id | id in cs && cs[id].cosine.Some? ensures ScoreOf(p, words, cs[id]) <= 1.0 {
      HybridInUnit(p, cs[id].cosine.value, cs[id].overlap, words);
    }
  }

  lemma Overlapping(s: set<Id>, l: set<Id>, all: set<Id>, c: Id)
    requires s <= all && l <= all && c in all && c !in s && c !in l
    ensures |s * l| + |all| >= |s| + |l| + 1
  {
    SubsetSize(s + l, all - {c});
    assert |s + l| == |s| + |l| - |s * l| by {
      assert s + l == s + (l - s * l);
      assert l == s * l + (l - s * l);
    }
  }

  /** Nothing of the full answer is missing from the shortlist. */
  lemma ShortlistKeeps(p: Policy, words: nat, cs: Pool, limit: nat, c: Id)
    requires ValidPolicy(p) && Sane(words, cs) && CoversAny(p, limit, |cs|)
    requires c in IdsOf(FullAnswer(p, words, cs, limit))
    ensures c in IdsOf(Top(Semantic(cs), Budget(p, limit))) + MostWords(p, cs, limit)
  {
    hide Top, Semantic, Lexical, Scored, Ahead, IdsOf, Budget;
    var b := Budget(p, limit);
    var all := Scored(p, words, cs, cs.Keys);
    var s, l := IdsOf(Top(Semantic(cs), b)), MostWords(p, cs, limit);
    BudgetCoversLimit(p, limit);
    InFullAnswer(p, words, cs, limit, c);
    if c !in s + l {
      TopShape(Semantic(cs), b);
      TopMissing(Semantic(cs), b, c);
      var crowd := s;
      if cs[c].overlap > 0 && p.lexicalWeight != 0.0 {
        HasOverlap(cs, c);
        TopShape(Lexical(cs), b);
        TopMissing(Lexical(cs), b, c);
        KeysOfLists(cs);
        Overlapping(s, l, cs.Keys, c);
        crowd := s * l;
      }
      forall d | d in crowd ensures Ahead(all, d, c) { Dominates(p, words, cs, d, c); }
      TopCrowded(all, limit, c, crowd);
    }
  }

  lemma CosineIgnored(p: Policy, x: real, y: real, m: nat, words: nat)
    requires ValidPolicy(p) && p.semanticWeight == 0.0
    ensures Hybrid(p, x, m, words) == Hybrid(p, y, m, words)
  {
    hide Times;
    NoWeight(Floored(x));
    NoWeight(Floored(y));
  }

  /** Without weight on cosines, more words mean a better score, and no words none. */
  lemma WordsDecide(p: Policy, words: nat, cs: Pool, c: Id)
    requires ValidPolicy(p) && p.semanticWeight == 0.0 && Vectored(cs) && c in Scored(p, words, cs, cs.Keys)
    ensures c in Lexical(cs)
    ensures forall d :: Ahead(Lexical(cs), d, c) ==> Ahead(Scored(p, words, cs, cs.Keys), d, c)
  {
    hide Hybrid, Ahead, Lexical;
    var all, x, m := Scored(p, words, cs, cs.Keys), cs[c].cosine.value, cs[c].overlap;
    if m == 0 { PositiveScore(p, x, words); }
    HasOverlap(cs, c);
    forall d | Ahead(Lexical(cs), d, c) ensures Ahead(all, d, c) {
      LexicalOrder(cs, d, c);
      CosineIgnored(p, x, cs[d].cosine.value, m, words);
      HybridSteps(p, cs[d].cosine.value, cs[d].cosine.value, m, cs[d].overlap, words);
      BySize(all, d, c);
    }
  }

  lemma WordsKeep(p: Policy, words: nat, cs: Pool, limit: nat, c: Id)
    requires ValidPolicy(p) && Sane(words, cs) && p.semanticWeight == 0.0 && Vectored(cs)
    requires c in IdsOf(FullAnswer(p, words, cs, limit))
    ensures c in MostWords(p, cs, limit)
  {
    hide Top, Lexical, Scored, Ahead, IdsOf, Budget, Vectored;
    InFullAnswer(p, words, cs, limit, c);
    WordsDecide(p, words, cs, c);
    BudgetCoversLimit(p, limit);
    if c !in MostWords(p, cs, limit) {
      TopMissing(Lexical(cs), Budget(p, limit), c);
      TopCrowded(Scored(p, words, cs, cs.Keys), limit, c, MostWords(p, cs, limit));
    }
  }

  lemma HasOverlap(cs: Pool, c: Id)
    requires c in cs && cs[c].overlap > 0
    ensures c in Lexical(cs)
  {
  }

  lemma KeysOfLists(cs: Pool)
    ensures Semantic(cs).Keys <= cs.Keys && Lexical(cs).Keys <= cs.Keys && |cs.Keys| == |cs|
  {
  }

  lemma InFullAnswer(p: Policy, words: nat, cs: Pool, limit: nat, c: Id)
    requires ValidPolicy(p) && Sane(words, cs) && c in IdsOf(FullAnswer(p, words, cs, limit))
    ensures c in Scored(p, words, cs, cs.Keys) && c in cs && c in Semantic(cs)
    ensures limit > 0 && p.minimum < 1.0
  {
    hide Top, Hybrid;
    TopMember(Scored(p, words, cs, cs.Keys), limit, c);
    TopShape(Scored(p, words, cs, cs.Keys), limit);
    if p.minimum >= 1.0 { NothingAboveOne(p, words, cs, cs.Keys); }
  }

  /** Searching the shortlist gives the best of all eligible records whenever the budget covers them, or only words
      count. */
  lemma ShortlistIsExact(p: Policy, words: nat, cs: Pool, limit: nat)
    requires ValidPolicy(p) && Sane(words, cs) && Suffices(p, limit, cs)
    ensures Answer(p, words, cs, limit) == FullAnswer(p, words, cs, limit)
  {
    hide Top, Semantic, Lexical, IdsOf, MostWords, Hybrid, CoversAny, Vectored;
    var chosen := IdsOf(Top(Semantic(cs), Budget(p, limit))) + MostWords(p, cs, limit);
    var all, part := Scored(p, words, cs, cs.Keys), Scored(p, words, cs, chosen);
    forall c | c in IdsOf(Top(all, limit)) ensures c in part {
      if CoversAny(p, limit, |cs|) {
        ShortlistKeeps(p, words, cs, limit, c);
      } else {
        WordsKeep(p, words, cs, limit, c);
      }
      TopMember(all, limit, c);
    }
    TopOfPart(all, part, limit);
  }

  // ---------- a pool beyond the budget ----------

  /** The i-th of ever longer ids, which sort in order of length. */
  function Name(i: nat): Id { seq(i + 1, _ => 'a') }

  lemma {:induction false} NamesInOrder(i: nat, j: nat)
    requires i < j
    ensures Below(Name(i), Name(j)) && Name(i) != Name(j)
  {
    assert Name(j)[1..] == Name(j - 1);
    if i > 0 {
      assert Name(i)[1..] == Name(i - 1);
      NamesInOrder(i - 1, j - 1);
    } else {
      assert Name(0)[1..] == "";
    }
  }

  function Names(lo: nat, hi: nat): (r: set<Id>)
    requires lo <= hi
    ensures forall id :: id in r <==> 0 < |id| && lo <= |id| - 1 < hi && id == Name(|id| - 1)
    ensures |r| == hi - lo
    decreases hi
  {
    if lo == hi then {}
    else
      var r := Names(lo, hi - 1);
      assert |Name(hi - 1)| == hi;
      assert Name(hi - 1) !in r;
      r + {Name(hi - 1)}
  }

  /** One more eligible record than the budget covers. */
  function Overflow(p: Policy, limit: nat): nat
    requires ValidPolicy(p)
  {
    BudgetCoversLimit(p, limit);
    2 * Budget(p, limit) + 2 - limit
  }

  /** On a one-word query: a few records with cosine 1 and the word, many with only the cosine, as many with only the
      word, and one last record with both, whose id sorts after the rest. */
  function CandidateAt(p: Policy, limit: nat, i: nat): Candidate {
    var b := Budget(p, limit);
    if i < limit - 1 || i > 2 * b - limit then Candidate(Some(1.0), 1)
    else if i < b then Candidate(Some(1.0), 0)
    else Candidate(Some(0.0), 1)
  }

  function Witness(p: Policy, limit: nat): Pool
    requires ValidPolicy(p)
  {
    map id | id in Names(0, Overflow(p, limit)) :: CandidateAt(p, limit, |id| - 1)
  }

  lemma WitnessScores(p: Policy)
    requires ValidPolicy(p) && p.lexicalWeight > 0.0
    ensures Hybrid(p, 1.0, 1, 1) == 1.0 && Hybrid(p, 1.0, 0, 1) < 1.0
    ensures p.semanticWeight > 0.0 ==> Hybrid(p, 0.0, 1, 1) < 1.0
  {
    hide Times;
    var s, l := p.semanticWeight, p.lexicalWeight;
    ByOne(s);
    ByOne(l);
    assert l / 1.0 == l;
    OverItself(s + l);
    HybridSteps(p, 1.0, 1.0, 0, 1, 1);
    HybridSteps(p, 0.0, 1.0, 1, 1, 1);
  }

  lemma OverItself(x: real)
    requires x != 0.0
    ensures x / x == 1.0
  {
  }

  lemma WitnessAt(p: Policy, limit: nat, i: nat)
    requires ValidPolicy(p) && i < Overflow(p, limit)
    ensures Name(i) in Witness(p, limit) && Witness(p, limit)[Name(i)] == CandidateAt(p, limit, i)
  {
    assert |Name(i)| == i + 1;
  }

  lemma WitnessIsSane(p: Policy, limit: nat)
    requires ValidPolicy(p)
    ensures Sane(1, Witness(p, limit)) && Vectored(Witness(p, limit)) && |Witness(p, limit)| == Overflow(p, limit)
  {
    assert Witness(p, limit).Keys == Names(0, Overflow(p, limit));
  }

  /** The last record: as good as any, and in neither list. */
  function LastOf(p: Policy, limit: nat): Id
    requires ValidPolicy(p)
  {
    BudgetCoversLimit(p, limit);
    Name(Overflow(p, limit) - 1)
  }

  lemma LastIsLast(p: Policy, limit: nat)
    requires ValidPolicy(p) && limit >= 1
    ensures LastOf(p, limit) in Witness(p, limit) && Witness(p, limit)[LastOf(p, limit)] == Candidate(Some(1.0), 1)
  {
    BudgetCoversLimit(p, limit);
    WitnessAt(p, limit, Overflow(p, limit) - 1);
  }

  /** The ids that crowd the last record out of the semantic list. */
  lemma SemanticCrowd(p: Policy, limit: nat)
    requires ValidPolicy(p) && limit >= 1
    ensures LastOf(p, limit) !in IdsOf(Top(Semantic(Witness(p, limit)), Budget(p, limit)))
  {
    hide Top, IdsOf, Witness;
    var b, cs, last := Budget(p, limit), Witness(p, limit), LastOf(p, limit);
    BudgetCoversLimit(p, limit);
    LastIsLast(p, limit);
    var crowd := Names(0, b);
    forall d | d in crowd ensures Ahead(Semantic(cs), d, last) {
      var i := |d| - 1;
      WitnessAt(p, limit, i);
      NamesInOrder(i, Overflow(p, limit) - 1);
      BySize(Semantic(cs), d, last);
    }
    TopCrowded(Semantic(cs), b, last, crowd);
  }

  lemma LexicalAhead(p: Policy, limit: nat, i: nat)
    requires ValidPolicy(p) && limit >= 1
    requires i < limit - 1 || Budget(p, limit) <= i < 2 * Budget(p, limit) - limit + 1
    ensures Ahead(Lexical(Witness(p, limit)), Name(i), LastOf(p, limit))
  {
    hide Witness;
    BudgetCoversLimit(p, limit);
    LastIsLast(p, limit);
    WitnessAt(p, limit, i);
    NamesInOrder(i, Overflow(p, limit) - 1);
    BySize(Lexical(Witness(p, limit)), Name(i), LastOf(p, limit));
  }

  function WordCrowd(p: Policy, limit: nat): set<Id>
    requires ValidPolicy(p) && limit >= 1
  {
    BudgetCoversLimit(p, limit);
    Names(0, limit - 1) + Names(Budget(p, limit), 2 * Budget(p, limit) - limit + 1)
  }

  lemma WordCrowdSize(p: Policy, limit: nat)
    requires ValidPolicy(p) && limit >= 1
    ensures |WordCrowd(p, limit)| == Budget(p, limit)
  {
    BudgetCoversLimit(p, limit);
    assert Names(0, limit - 1) !! Names(Budget(p, limit), 2 * Budget(p, limit) - limit + 1);
  }

  lemma WordCrowdAhead(p: Policy, limit: nat, d: Id)
    requires ValidPolicy(p) && limit >= 1 && d in WordCrowd(p, limit)
    ensures Ahead(Lexical(Witness(p, limit)), d, LastOf(p, limit))
  {
    hide Ahead, Lexical, Witness, LastOf;
    LexicalAhead(p, limit, |d| - 1);
  }

  lemma LexicalCrowd(p: Policy, limit: nat)
    requires ValidPolicy(p) && limit >= 1
    ensures LastOf(p, limit) !in MostWords(p, Witness(p, limit), limit)
  {
    hide Top, IdsOf, Witness, Lexical, Ahead, Budget, WordCrowd, LastOf;
    WordCrowdSize(p, limit);
    forall d | d in WordCrowd(p, limit) ensures Ahead(Lexical(Witness(p, limit)), d, LastOf(p, limit)) {
      WordCrowdAhead(p, limit, d);
    }
    TopCrowded(Lexical(Witness(p, limit)), Budget(p, limit), LastOf(p, limit), WordCrowd(p, limit));
  }

  /** Only the few with both can be ahead of it in the full order. */
  lemma FewAreAhead(p: Policy, limit: nat, d: Id)
    requires ValidPolicy(p) && limit >= 1 && p.semanticWeight > 0.0 && p.lexicalWeight > 0.0 && p.minimum < 1.0
    requires Ahead(Scored(p, 1, Witness(p, limit), Witness(p, limit).Keys), d, LastOf(p, limit))
    ensures d in Names(0, limit - 1)
  {
    hide Hybrid;
    WitnessScores(p);
    LastIsLast(p, limit);
    BudgetCoversLimit(p, limit);
    var i := |d| - 1;
    BelowTrichotomy(d, d);
    assert d in Witness(p, limit);
    WitnessAt(p, limit, i);
  }

  lemma LastIsInFull(p: Policy, limit: nat)
    requires ValidPolicy(p) && limit >= 1 && p.semanticWeight > 0.0 && p.lexicalWeight > 0.0 && p.minimum < 1.0
    ensures LastOf(p, limit) in IdsOf(FullAnswer(p, 1, Witness(p, limit), limit))
  {
    hide Top, IdsOf, Hybrid, Witness, Ahead;
    var cs, last := Witness(p, limit), LastOf(p, limit);
    var all := Scored(p, 1, cs, cs.Keys);
    WitnessScores(p);
    LastIsLast(p, limit);
    assert last in all;
    if last !in IdsOf(Top(all, limit)) {
      TopMissing(all, limit, last);
      var ids := IdsOf(Top(all, limit));
      forall d | d in ids ensures d in Names(0, limit - 1) { FewAreAhead(p, limit, d); }
      SubsetSize(ids, Names(0, limit - 1));
    }
  }

  lemma LastIsNotAnswered(p: Policy, limit: nat)
    requires ValidPolicy(p) && limit >= 1
    ensures LastOf(p, limit) !in IdsOf(Answer(p, 1, Witness(p, limit), limit))
  {
    hide Top, IdsOf, Hybrid, Witness, MostWords, Semantic;
    var cs, last := Witness(p, limit), LastOf(p, limit);
    SemanticCrowd(p, limit);
    LexicalCrowd(p, limit);
    var chosen := IdsOf(Top(Semantic(cs), Budget(p, limit))) + MostWords(p, cs, limit);
    if last in IdsOf(Answer(p, 1, cs, limit)) { TopMember(Scored(p, 1, cs, chosen), limit, last); }
  }

  /** The condition is exact: a policy and a limit answer in full on every pool of at most `n` eligible records with
      vectors if and only if they cover `n`. */
  lemma CoversExactly(p: Policy, limit: nat, n: nat)
    requires ValidPolicy(p)
    ensures Covers(p, limit, n) <==>
      forall words, cs ::
        Sane(words, cs) && Vectored(cs) && |cs| <= n ==> Answer(p, words, cs, limit) == FullAnswer(p, words, cs, limit)
  {
    hide Answer, FullAnswer, Witness, Vectored;
    if Covers(p, limit, n) {
      forall words, cs | Sane(words, cs) && Vectored(cs) && |cs| <= n
        ensures Answer(p, words, cs, limit) == FullAnswer(p, words, cs, limit)
      {
        ShortlistIsExact(p, words, cs, limit);
      }
    } else {
      WitnessIsSane(p, limit);
      LastIsInFull(p, limit);
      LastIsNotAnswered(p, limit);
      assert Answer(p, 1, Witness(p, limit), limit) != FullAnswer(p, 1, Witness(p, limit), limit);
    }
  }

  /** With both weights in play: exactly as far as twice the floor, or twice the limit times the multiplier, reaches,
      one more, the limit included. */
  lemma ReachOfTheBudget(p: Policy, limit: nat, n: nat)
    requires ValidPolicy(p) && limit > 0 && p.semanticWeight > 0.0 && p.lexicalWeight > 0.0 && p.minimum < 1.0
    ensures
      (n + limit <= 2 * p.floor + 1 || n + limit <= 2 * (limit * p.multiplier) + 1) <==>
      forall words, cs ::
        Sane(words, cs) && Vectored(cs) && |cs| <= n ==> Answer(p, words, cs, limit) == FullAnswer(p, words, cs, limit)
  {
    hide Answer, FullAnswer, Vectored, Sane;
    CoversExactly(p, limit, n);
  }
}
