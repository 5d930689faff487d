/** Hits as listings of scored sets, and the best of them. */
module Rankings {
  import opened Types
  import opened Counting
  import opened Ordering

  lemma SameMembers(a: seq<Hit>, b: seq<Hit>)
    requires multiset(a) == multiset(b)
    ensures forall x :: x in a <==> x in b
  {
    forall x ensures x in a <==> x in b {
      assert x in a <==> x in multiset(a);
      assert x in b <==> x in multiset(b);
    }
  }

  /** Ids with their scores, in the given order. */
  function Listed(ids: seq<Id>, scores: map<Id, real>): (r: seq<Hit>)
    requires forall i :: 0 <= i < |ids| ==> ids[i] in scores
    ensures |r| == |ids| && forall i :: 0 <= i < |ids| ==> r[i] == Hit(ids[i], Real(scores[ids[i]]), 0)
  {
    seq(|ids|, i requires 0 <= i < |ids| => Hit(ids[i], Real(scores[ids[i]]), 0))
  }

  /** Hits for exactly the ids in `scores`, one each. */
  ghost predicate Lists(hits: seq<Hit>, scores: map<Id, real>) {
    && (forall i, j :: 0 <= i < j < |hits| ==> hits[i].id != hits[j].id)
    && (forall h :: h in hits ==> h.id in scores && h == Hit(h.id, Real(scores[h.id]), 0))
    && (forall id :: id in scores ==> Hit(id, Real(scores[id]), 0) in hits)
  }

  function IdsOf(hits: seq<Hit>): set<Id> { set h | h in hits :: h.id }

  lemma {:induction false} DistinctIds(hits: seq<Hit>)
    requires forall i, j :: 0 <= i < j < |hits| ==> hits[i].id != hits[j].id
    ensures |IdsOf(hits)| == |hits|
  {
    if hits != [] {
      var n := |hits| - 1;
      DistinctIds(hits[..n]);
      assert hits == hits[..n] + [hits[n]];
      assert IdsOf(hits) == IdsOf(hits[..n]) + {hits[n].id};
      assert hits[n].id !in IdsOf(hits[..n]);
    }
  }

  lemma ListedLists(ids: seq<Id>, scores: map<Id, real>)
    requires StrictlySorted(ids) && forall x :: x in ids <==> x in scores
    ensures Lists(Listed(ids, scores), scores)
  {
    var hits := Listed(ids, scores);
    forall i, j | 0 <= i < j < |hits| ensures hits[i].id != hits[j].id { SortedBelow(ids, i, j); }
    forall id | id in scores ensures Hit(id, Real(scores[id]), 0) in hits {
      var i :| 0 <= i < |ids| && ids[i] == id;
      assert hits[i] == Hit(id, Real(scores[id]), 0);
    }
  }

  lemma MultiplicityOne(s: seq<Hit>, i: nat)
    requires i < |s| && forall a, b :: 0 <= a < b < |s| ==> s[a].id != s[b].id
    ensures multiset(s)[s[i]] == 1
  {
    assert s == s[..i] + [s[i]] + s[i + 1..];
    assert s[i] !in s[..i] && s[i] !in s[i + 1..];
    assert multiset(s) == multiset(s[..i]) + multiset{s[i]} + multiset(s[i + 1..]);
  }

  lemma SortedKeepsDistinct(s: seq<Hit>)
    requires forall a, b :: 0 <= a < b < |s| ==> s[a].id != s[b].id
    ensures forall a, b :: 0 <= a < b < |SortHits(s)| ==> SortHits(s)[a].id != SortHits(s)[b].id
  {
    hide SortHits;
    var t := SortHits(s);
    SameMembers(t, s);
    forall a, b | 0 <= a < b < |t| ensures t[a].id != t[b].id {
      if t[a].id == t[b].id {
        assert t[a] in s && t[b] in s;
        var i :| 0 <= i < |s| && s[i] == t[a];
        var j :| 0 <= j < |s| && s[j] == t[b];
        MultiplicityOne(s, i);
        assert i == j;
        Twice(t, a, b);
      }
    }
  }

  lemma Twice(t: seq<Hit>, a: nat, b: nat)
    requires a < b < |t| && t[a] == t[b]
    ensures multiset(t)[t[a]] >= 2
  {
    assert t == t[..b] + [t[b]] + t[b + 1..];
    assert t[..b][a] == t[a];
    assert t[a] in multiset(t[..b]);
    assert multiset(t) == multiset(t[..b]) + multiset{t[b]} + multiset(t[b + 1..]);
  }

  lemma BestKeepsDistinct(s: seq<Hit>, k: nat)
    requires forall a, b :: 0 <= a < b < |s| ==> s[a].id != s[b].id
    ensures forall a, b :: 0 <= a < b < |Best(s, k)| ==> Best(s, k)[a].id != Best(s, k)[b].id
  {
    SortedKeepsDistinct(s);
  }

  lemma ListCount(hits: seq<Hit>, scores: map<Id, real>)
    requires Lists(hits, scores)
    ensures |hits| == |scores|
  {
    DistinctIds(hits);
    assert IdsOf(hits) == scores.Keys;
  }

  lemma ListOneMore(hits: seq<Hit>, scores: map<Id, real>, id: Id, x: real)
    requires Lists(hits, scores) && id !in scores
    ensures Lists(hits + [Hit(id, Real(x), 0)], scores[id := x])
  {
    var more := hits + [Hit(id, Real(x), 0)];
    forall i, j | 0 <= i < j < |more| ensures more[i].id != more[j].id {
      assert more[i] in hits;
    }
    var after := scores[id := x];
    forall y | y in after ensures Hit(y, Real(after[y]), 0) in more {
      if y == id { assert more[|hits|] == Hit(id, Real(x), 0); }
    }
  }

  /** Two listings of the same scores are permutations of each other. */
  lemma SameListing(a: seq<Hit>, b: seq<Hit>, scores: map<Id, real>)
    requires Lists(a, scores) && Lists(b, scores)
    ensures multiset(a) == multiset(b)
  {
    forall h ensures h in a <==> h in b { }
    forall h ensures multiset(a)[h] == multiset(b)[h] {
      if h in a {
        var i :| 0 <= i < |a| && a[i] == h;
        var j :| 0 <= j < |b| && b[j] == h;
        MultiplicityOne(a, i);
        MultiplicityOne(b, j);
      }
    }
  }

  // ---------- the best of a scored set ----------

  function HitAt(scores: map<Id, real>, id: Id): Hit
    requires id in scores
  {
    Hit(id, Real(scores[id]), 0)
  }

  predicate Ahead(scores: map<Id, real>, a: Id, b: Id) {
    a in scores && b in scores && Before(HitAt(scores, a), HitAt(scores, b))
  }

  lemma {:induction false} ListingExists(scores: map<Id, real>)
    ensures exists hits :: Lists(hits, scores)
    decreases |scores|
  {
    hide Lists;
    if scores == map[] {
      NothingToList();
    } else {
      var id :| id in scores;
      var rest := scores - {id};
      ListingExists(rest);
      var hits :| Lists(hits, rest);
      ListOneMore(hits, rest, id, scores[id]);
      assert rest[id := scores[id]] == scores;
    }
  }

  lemma NothingToList()
    ensures Lists([], map[])
  {
  }

  ghost function Listing(scores: map<Id, real>): (hits: seq<Hit>)
    ensures Lists(hits, scores)
  {
    ListingExists(scores);
    var hits :| Lists(hits, scores);
    hits
  }

  /** The k best ids of a scored set, best first: sorted by score descending, then id. */
  ghost function Top(scores: map<Id, real>, k: nat): seq<Hit> {
    Best(Listing(scores), k)
  }

  /** Whatever order the ids are listed in. */
  lemma TopIsBest(hits: seq<Hit>, scores: map<Id, real>, k: nat)
    requires Lists(hits, scores)
    ensures Best(hits, k) == Top(scores, k)
  {
    hide Best, Lists;
    SameListing(hits, Listing(scores), scores);
    BestIgnoresOrder(hits, Listing(scores), k);
  }

  lemma TopShape(scores: map<Id, real>, k: nat)
    ensures Sorted(Top(scores, k)) && |Top(scores, k)| == Min(k, |scores|)
    ensures forall h :: h in Top(scores, k) ==> h.id in scores && h == HitAt(scores, h.id)
    ensures forall i, j :: 0 <= i < j < |Top(scores, k)| ==> Top(scores, k)[i].id != Top(scores, k)[j].id
    ensures |IdsOf(Top(scores, k))| == Min(k, |scores|) && IdsOf(Top(scores, k)) <= scores.Keys
  {
    var hits := Listing(scores);
    ListCount(hits, scores);
    SortHitsSorted(hits);
    BestKeepsDistinct(hits, k);
    DistinctIds(Top(scores, k));
  }

  lemma TopMember(scores: map<Id, real>, k: nat, id: Id)
    requires id in IdsOf(Top(scores, k))
    ensures id in scores && HitAt(scores, id) in Top(scores, k)
  {
    hide Top;
    TopShape(scores, k);
    var h :| h in Top(scores, k) && h.id == id;
  }

  /** An id that is missing was outrun by k others. */
  lemma TopMissing(scores: map<Id, real>, k: nat, x: Id)
    requires x in scores && x !in IdsOf(Top(scores, k))
    ensures |IdsOf(Top(scores, k))| == k
    ensures forall d :: d in IdsOf(Top(scores, k)) ==> Ahead(scores, d, x)
  {
    hide Best, Lists;
    var hits := Listing(scores);
    TopShape(scores, k);
    ListingHas(scores, x);
    if |hits| <= k {
      BestOfFew(hits, k, HitAt(scores, x));
      assert false;
    } else {
      var rest := BestSplits(hits, k);
      SplitMember(hits, Best(hits, k), rest, HitAt(scores, x));
      forall d | d in IdsOf(Top(scores, k)) ensures Ahead(scores, d, x) {
        TopMember(scores, k, d);
        BeforeTrichotomy(HitAt(scores, d), HitAt(scores, x));
      }
      ListCount(hits, scores);
    }
  }

  lemma ListingHas(scores: map<Id, real>, x: Id)
    requires x in scores
    ensures HitAt(scores, x) in Listing(scores)
  {
  }

  lemma BestOfFew(hits: seq<Hit>, k: nat, h: Hit)
    requires |hits| <= k && h in hits
    ensures h in Best(hits, k)
  {
    hide SortHits;
    SameMembers(SortHits(hits), hits);
  }

  lemma SplitMember(hits: seq<Hit>, head: seq<Hit>, tail: seq<Hit>, h: Hit)
    requires multiset(hits) == multiset(head) + multiset(tail) && h in hits && h !in head
    ensures h in tail
  {
    assert h in multiset(hits);
  }

  /** k ids ahead of x leave it no place. */
  lemma TopCrowded(scores: map<Id, real>, k: nat, x: Id, crowd: set<Id>)
    requires |crowd| >= k && forall d :: d in crowd ==> Ahead(scores, d, x)
    ensures x !in IdsOf(Top(scores, k))
  {
    hide Top;
    if x in IdsOf(Top(scores, k)) {
      var ids := IdsOf(Top(scores, k));
      TopShape(scores, k);
      forall d | d in crowd ensures d in ids - {x} {
        BeforeTrichotomy(HitAt(scores, d), HitAt(scores, x));
        if d !in ids { TopMissing(scores, k, d); }
      }
      SubsetSize(crowd, ids - {x});
    }
  }

  lemma SameIdsSameTop(a: map<Id, real>, b: map<Id, real>, k: nat)
    requires forall id :: id in b ==> id in a && a[id] == b[id]
    requires IdsOf(Top(a, k)) == IdsOf(Top(b, k))
    ensures Top(a, k) == Top(b, k)
  {
    hide Top;
    TopShape(a, k);
    TopShape(b, k);
    var x, y := Top(a, k), Top(b, k);
    forall h ensures h in x <==> h in y {
      if h in x { assert h.id in IdsOf(x); TopMember(b, k, h.id); }
      if h in y { assert h.id in IdsOf(y); TopMember(a, k, h.id); }
    }
    SameHits(x, y);
    SortedUnique(x, y);
  }

  lemma SameHits(x: seq<Hit>, y: seq<Hit>)
    requires forall h :: h in x <==> h in y
    requires forall i, j :: 0 <= i < j < |x| ==> x[i].id != x[j].id
    requires forall i, j :: 0 <= i < j < |y| ==> y[i].id != y[j].id
    ensures multiset(x) == multiset(y)
  {
    forall h ensures multiset(x)[h] == multiset(y)[h] {
      if h in x {
        var i :| 0 <= i < |x| && x[i] == h;
        var j :| 0 <= j < |y| && y[j] == h;
        MultiplicityOne(x, i);
        MultiplicityOne(y, j);
      }
    }
  }

  /** Dropping ids that are not among the best changes nothing. */
  lemma TopOfPart(all: map<Id, real>, part: map<Id, real>, k: nat)
    requires forall id :: id in part ==> id in all && all[id] == part[id]
    requires IdsOf(Top(all, k)) <= part.Keys
    ensures Top(part, k) == Top(all, k)
  {
    hide Top;
    TopShape(all, k);
    TopShape(part, k);
    SubsetSize(part.Keys, all.Keys);
    var x, y := IdsOf(Top(all, k)), IdsOf(Top(part, k));
    forall id | id in x ensures id in y {
      if id !in y {
        TopMissing(part, k, id);
        TopCrowded(all, k, id, y);
      }
    }
    SubsetSize(x, y);
    SameIdsSameTop(all, part, k);
  }

  /** Room beyond the number of ids is not used. */
  lemma TopBeyond(scores: map<Id, real>, k: nat, m: nat)
    requires k <= m && (k == m || |scores| <= k)
    ensures Top(scores, k) == Top(scores, m)
  {
    ListCount(Listing(scores), scores);
  }

  /** Cutting a batch to its own best before merging it loses nothing. */
  lemma CutBatch(best: seq<Hit>, batch: seq<Hit>, k: nat)
    ensures Best(best + Best(batch, k), k) == Best(best + batch, k)
  {
    hide Best;
    MultisetOfConcat(best, Best(batch, k));
    MultisetOfConcat(Best(batch, k), best);
    MultisetOfConcat(best, batch);
    MultisetOfConcat(batch, best);
    BestIgnoresOrder(best + Best(batch, k), Best(batch, k) + best, k);
    BestFolds(batch, best, k);
    BestIgnoresOrder(batch + best, best + batch, k);
  }

  lemma ListsTogether(x: seq<Hit>, y: seq<Hit>, a: map<Id, real>, b: map<Id, real>)
    requires a.Keys !! b.Keys && Lists(x, a) && Lists(y, b)
    ensures Lists(x + y, a + b)
  {
    forall i, j | 0 <= i < j < |x + y| ensures (x + y)[i].id != (x + y)[j].id {
      if i < |x| <= j { assert (x + y)[i] in x && (x + y)[j] in y; }
    }
  }

  /** The best of two disjoint sets is the best of their bests. */
  lemma TopOfUnion(a: map<Id, real>, b: map<Id, real>, k: nat)
    requires a.Keys !! b.Keys
    ensures Best(Top(a, k) + Top(b, k), k) == Top(a + b, k)
  {
    hide Best, Lists;
    ListsTogether(Listing(a), Listing(b), a, b);
    TopIsBest(Listing(a) + Listing(b), a + b, k);
    BestFolds(Listing(a), Listing(b), k);
    CutBatch(Top(a, k), Listing(b), k);
  }
}
