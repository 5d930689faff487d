/** The total orders the system sorts by: strings by code point, record keys by
    (generation, id), search hits by (score descending, recency descending, id). */
module Ordering {
  import opened Types

  // ---------- strings ----------

  predicate Below(a: string, b: string) {
    b != "" && (a == "" || a[0] < b[0] || (a[0] == b[0] && Below(a[1..], b[1..])))
  }

  lemma {:induction false} BelowTrichotomy(a: string, b: string)
    ensures a == b || Below(a, b) || Below(b, a)
    ensures !(Below(a, b) && Below(b, a))
    ensures Below(a, b) ==> a != b
  {
    if a != "" && b != "" {
      BelowTrichotomy(a[1..], b[1..]);
      assert a == [a[0]] + a[1..] && b == [b[0]] + b[1..];
    }
  }

  lemma {:induction false} BelowTransitive(a: string, b: string, c: string)
    requires Below(a, b) && Below(b, c)
    ensures Below(a, c)
  {
    if a != "" && a[0] == b[0] == c[0] {
      BelowTransitive(a[1..], b[1..], c[1..]);
    }
  }

  /** Both agree up to some place where the first ends or has the smaller character. */
  ghost predicate Precedes(a: string, b: string) {
    exists k :: 0 <= k <= |a| && k < |b| && a[..k] == b[..k] && (k == |a| || a[k] < b[k])
  }

  /** The recursive comparison is the comparison at the first difference. */
  lemma {:induction false} BelowMeaning(a: string, b: string)
    ensures Below(a, b) <==> Precedes(a, b)
  {
    if b == "" {
    } else if a == "" || a[0] < b[0] {
      assert a[..0] == b[..0];
    } else if a[0] == b[0] {
      BelowMeaning(a[1..], b[1..]);
      if Precedes(a[1..], b[1..]) {
        var k :| 0 <= k <= |a| - 1 && k < |b| - 1 && a[1..][..k] == b[1..][..k]
          && (k == |a| - 1 || a[1..][k] < b[1..][k]);
        assert a[..k + 1] == [a[0]] + a[1..][..k] && b[..k + 1] == [b[0]] + b[1..][..k];
        assert a[..k + 1] == b[..k + 1];
      }
      if Precedes(a, b) {
        var k :| 0 <= k <= |a| && k < |b| && a[..k] == b[..k] && (k == |a| || a[k] < b[k]);
        assert k > 0;
        assert a[1..][..k - 1] == a[..k][1..] && b[1..][..k - 1] == b[..k][1..];
      }
    } else {
      FirstAgrees(a, b);
    }
  }

  lemma FirstAgrees(a: string, b: string)
    requires a != "" && b != ""
    ensures forall k :: 0 < k <= |a| && k <= |b| && a[..k] == b[..k] ==> a[0] == b[0]
  {
    forall k | 0 < k <= |a| && k <= |b| && a[..k] == b[..k] ensures a[0] == b[0] { assert a[..k][0] == b[..k][0]; }
  }

  predicate StrictlySorted(s: seq<string>) {
    |s| <= 1 || (Below(s[0], s[1]) && StrictlySorted(s[1..]))
  }

  function InsertName(x: string, s: seq<string>): (r: seq<string>)
    ensures forall y :: y in r <==> y == x || y in s
    ensures r != [] && (r[0] == x || (s != [] && r[0] == s[0]))
  {
    if s == [] then [x]
    else if x == s[0] then s
    else if Below(x, s[0]) then [x] + s
    else
      var t := InsertName(x, s[1..]);
      assert s == [s[0]] + s[1..];
      [s[0]] + t
  }

  /** `sorted(set(xs))`. */
  function Canonical(xs: seq<string>): (r: seq<string>)
    ensures forall y :: y in r <==> y in xs
  {
    if xs == [] then []
    else
      assert xs == [xs[0]] + xs[1..];
      InsertName(xs[0], Canonical(xs[1..]))
  }

  lemma {:induction false} InsertNameSorted(x: string, s: seq<string>)
    requires StrictlySorted(s)
    ensures StrictlySorted(InsertName(x, s))
  {
    if s != [] {
      BelowTrichotomy(x, s[0]);
      if x != s[0] && !Below(x, s[0]) {
        InsertNameSorted(x, s[1..]);
        var t := InsertName(x, s[1..]);
        assert ([s[0]] + t)[1..] == t;
      } else if x != s[0] {
        assert ([x] + s)[1..] == s;
      }
    }
  }

  lemma {:induction false} CanonicalSorted(xs: seq<string>)
    ensures StrictlySorted(Canonical(xs))
  {
    if xs != [] {
      CanonicalSorted(xs[1..]);
      InsertNameSorted(xs[0], Canonical(xs[1..]));
    }
  }

  /** A list already in canonical form is left alone. */
  lemma {:induction false} CanonicalFixed(xs: seq<string>)
    requires StrictlySorted(xs)
    ensures Canonical(xs) == xs
  {
    if xs != [] {
      CanonicalFixed(xs[1..]);
      assert xs == [xs[0]] + xs[1..];
      if |xs| > 1 { BelowTrichotomy(xs[0], xs[1]); }
    }
  }

  /** `sorted(names)` of a set. */
  method SortNames(names: set<string>) returns (s: seq<string>)
    ensures StrictlySorted(s) && forall x :: x in s <==> x in names
  {
    s := [];
    var rest := names;
    while rest != {}
      invariant rest <= names && StrictlySorted(s) && forall x :: x in s <==> x in names - rest
      decreases rest
    {
      var x :| x in rest;
      InsertNameSorted(x, s);
      s := InsertName(x, s);
      rest := rest - {x};
    }
  }

  lemma {:induction false} FirstIsLeast(s: seq<string>, i: nat)
    requires StrictlySorted(s) && 0 < i < |s|
    ensures Below(s[0], s[i])
  {
    if i > 1 {
      FirstIsLeast(s[1..], i - 1);
      BelowTransitive(s[0], s[1], s[i]);
    }
  }

  lemma {:induction false} SortedBelow(s: seq<string>, i: nat, j: nat)
    requires StrictlySorted(s) && i < j < |s|
    ensures Below(s[i], s[j]) && s[i] != s[j]
  {
    if i == 0 {
      FirstIsLeast(s, j);
      BelowTrichotomy(s[0], s[j]);
    } else {
      SortedBelow(s[1..], i - 1, j - 1);
    }
  }

  // ---------- record keys ----------

  predicate KeyBelow(a: Key, b: Key) {
    a.generation < b.generation || (a.generation == b.generation && Below(a.id, b.id))
  }

  /** The scan order: by generation, then by id. */
  lemma KeyMeaning(a: Key, b: Key)
    ensures KeyBelow(a, b) <==> a.generation < b.generation || (a.generation == b.generation && Precedes(a.id, b.id))
  {
    BelowMeaning(a.id, b.id);
  }

  lemma KeyTrichotomy(a: Key, b: Key)
    ensures a == b || KeyBelow(a, b) || KeyBelow(b, a)
    ensures !(KeyBelow(a, b) && KeyBelow(b, a))
    ensures KeyBelow(a, b) ==> a != b
  {
    BelowTrichotomy(a.id, b.id);
  }

  lemma KeyTransitive(a: Key, b: Key, c: Key)
    requires KeyBelow(a, b) && KeyBelow(b, c)
    ensures KeyBelow(a, c)
  {
    if a.generation == b.generation == c.generation {
      BelowTransitive(a.id, b.id, c.id);
    }
  }

  ghost predicate LeastKey(k: Key, keys: set<Key>) {
    k in keys && forall x :: x in keys && x != k ==> KeyBelow(k, x)
  }

  lemma {:induction false} LeastKeyExists(keys: set<Key>)
    requires keys != {}
    ensures exists k :: LeastKey(k, keys)
  {
    var k :| k in keys;
    var rest := keys - {k};
    if rest == {} {
      assert keys == {k};
      assert LeastKey(k, keys);
    } else {
      LeastKeyExists(rest);
      var m :| LeastKey(m, rest);
      KeyTrichotomy(k, m);
      if KeyBelow(k, m) {
        forall x | x in keys && x != k ensures KeyBelow(k, x) {
          if x != m {
            assert x in rest;
            KeyTransitive(k, m, x);
          }
        }
        assert LeastKey(k, keys);
      } else {
        forall x | x in keys && x != m ensures KeyBelow(m, x) {
          assert x == k || x in rest;
        }
        assert LeastKey(m, keys);
      }
    }
  }

  ghost function Least(keys: set<Key>): (k: Key)
    requires keys != {}
    ensures LeastKey(k, keys)
  {
    LeastKeyExists(keys);
    var k :| LeastKey(k, keys); k
  }

  /** `ORDER BY generation,id LIMIT n` over a set of keys. */
  ghost function FirstKeys(keys: set<Key>, n: nat): (s: seq<Key>)
    ensures |s| <= n
    ensures forall k :: k in s ==> k in keys
    ensures |s| < n ==> forall k :: k in keys ==> k in s
  {
    if keys == {} || n == 0 then []
    else
      var k := Least(keys);
      [k] + FirstKeys(keys - {k}, n - 1)
  }

  ghost predicate Increasing(s: seq<Key>) {
    forall i, j :: 0 <= i < j < |s| ==> KeyBelow(s[i], s[j])
  }

  /** A limited page is an initial segment of the order: increasing, and everything left out comes after it. */
  lemma {:induction false} FirstKeysIsSegment(keys: set<Key>, n: nat)
    ensures Increasing(FirstKeys(keys, n))
    ensures forall k, x :: k in keys && k !in FirstKeys(keys, n) && x in FirstKeys(keys, n) ==> KeyBelow(x, k)
    ensures n > 0 && keys != {} ==> FirstKeys(keys, n) != []
  {
    if keys != {} && n > 0 {
      var k := Least(keys);
      FirstKeysIsSegment(keys - {k}, n - 1);
      var s := FirstKeys(keys - {k}, n - 1);
      assert FirstKeys(keys, n) == [k] + s;
      forall x | x in s ensures KeyBelow(k, x) { assert x in keys - {k}; }
    }
  }

  // ---------- search hits ----------

  /** A similarity score: a real, or one of the floats that are not (negative zero is `-0.0`; NaN has no sign here). */
  datatype Score = Nan | NegativeInfinity | Real(value: real) | NegativeZero | PositiveInfinity

  /** `recency` is the creation time in the Rust engine and 0 where no time breaks ties. */
  datatype Hit = Hit(id: Id, score: Score, recency: int)

  datatype Ordered = Less | Equal | Greater

  function Level(s: Score): int {
    match s
    case NegativeInfinity => 0
    case PositiveInfinity => 2
    case _ => 1
  }

  function Finite(s: Score): real {
    if s.Real? then s.value else 0.0
  }

  /** `total_cmp` between numbers: the total order of section 5.10 of IEEE 754-2008, in which -0.0 lies below 0.0. */
  predicate Exceeds(a: Score, b: Score) {
    || Level(a) > Level(b)
    || (Level(a) == Level(b) && Finite(a) > Finite(b))
    || (Level(a) == Level(b) && Finite(a) == Finite(b) && a.Real? && b.NegativeZero?)
  }

  /** The order of scores, case by case. */
  predicate Higher(a: Score, b: Score) {
    match (a, b)
    case (Nan, _) => false
    case (_, Nan) => true
    case (PositiveInfinity, _) => b != PositiveInfinity
    case (_, PositiveInfinity) => false
    case (NegativeInfinity, _) => false
    case (_, NegativeInfinity) => true
    case (Real(x), Real(y)) => x > y
    case (Real(x), NegativeZero) => x >= 0.0
    case (NegativeZero, Real(y)) => 0.0 > y
    case (NegativeZero, NegativeZero) => false
  }

  /** `score_cmp_desc`: NaN is the worst score; everything else descends in the total order. */
  function ScoreCmpDesc(a: Score, b: Score): (o: Ordered)
    ensures o == Equal <==> a == b
    ensures o == Less <==> Higher(a, b)
    ensures o == Greater <==> Higher(b, a)
  {
    match (a, b)
    case (Nan, Nan) => Equal
    case (Nan, _) => Greater
    case (_, Nan) => Less
    case (_, _) => if Exceeds(a, b) then Less else if a == b then Equal else Greater
  }

  /** The comparator chain of the search: score, then newer first, then id. */
  predicate Before(a: Hit, b: Hit) {
    match ScoreCmpDesc(a.score, b.score)
    case Less => true
    case Greater => false
    case Equal => a.recency > b.recency || (a.recency == b.recency && Below(a.id, b.id))
  }

  /** The higher score first; at equal scores the newer; at equal times the smaller id. */
  lemma BeforeMeaning(a: Hit, b: Hit)
    ensures Before(a, b) <==>
      || Higher(a.score, b.score)
      || (a.score == b.score && a.recency > b.recency)
      || (a.score == b.score && a.recency == b.recency && Precedes(a.id, b.id))
  {
    BelowMeaning(a.id, b.id);
  }

  lemma BeforeTrichotomy(a: Hit, b: Hit)
    ensures a == b || Before(a, b) || Before(b, a)
    ensures !(Before(a, b) && Before(b, a))
    ensures Before(a, b) ==> a != b
  {
    BelowTrichotomy(a.id, b.id);
  }

  lemma BeforeTransitive(a: Hit, b: Hit, c: Hit)
    requires Before(a, b) && Before(b, c)
    ensures Before(a, c)
  {
    if a.score == b.score == c.score && a.recency == b.recency == c.recency {
      BelowTransitive(a.id, b.id, c.id);
    }
  }

  predicate Sorted(s: seq<Hit>) {
    forall i, j :: 0 <= i < j < |s| ==> !Before(s[j], s[i])
  }

  function InsertHit(x: Hit, s: seq<Hit>): (r: seq<Hit>)
    ensures multiset(r) == multiset(s) + multiset{x}
    ensures |r| == |s| + 1
  {
    if s == [] then [x]
    else if Before(s[0], x) then
      assert s == [s[0]] + s[1..];
      [s[0]] + InsertHit(x, s[1..])
    else [x] + s
  }

  /** `sort_by` and `sorted`: the sorted permutation. */
  function SortHits(s: seq<Hit>): (r: seq<Hit>)
    ensures multiset(r) == multiset(s)
    ensures |r| == |s|
  {
    if s == [] then []
    else
      assert s == [s[0]] + s[1..];
      InsertHit(s[0], SortHits(s[1..]))
  }

  lemma {:induction false} InsertHitSorted(x: Hit, s: seq<Hit>)
    requires Sorted(s)
    ensures Sorted(InsertHit(x, s))
  {
    if s == [] {
    } else if Before(s[0], x) {
      InsertHitSorted(x, s[1..]);
      var t := InsertHit(x, s[1..]);
      forall j | 0 <= j < |t| ensures !Before(t[j], s[0]) {
        assert t[j] in multiset(t);
        assert t[j] == x || t[j] in s[1..];
        BeforeTrichotomy(s[0], x);
      }
    } else {
      forall j | 0 <= j < |s| ensures !Before(s[j], x) {
        if Before(s[j], x) {
          BeforeTrichotomy(s[0], x);
          if s[0] != x { BeforeTransitive(s[j], x, s[0]); }
        }
      }
    }
  }

  lemma {:induction false} SortHitsSorted(s: seq<Hit>)
    ensures Sorted(SortHits(s))
  {
    if s != [] {
      SortHitsSorted(s[1..]);
      InsertHitSorted(s[0], SortHits(s[1..]));
    }
  }

  lemma SortedHeads(a: seq<Hit>, b: seq<Hit>)
    requires Sorted(a) && Sorted(b) && multiset(a) == multiset(b) && a != [] && b != []
    ensures a[0] == b[0]
  {
    assert a[0] in multiset(b) && b[0] in multiset(a);
    var i :| 0 <= i < |b| && b[i] == a[0];
    var j :| 0 <= j < |a| && a[j] == b[0];
    BeforeTrichotomy(a[0], b[0]);
  }

  lemma TailMultiset(a: seq<Hit>)
    requires a != []
    ensures multiset(a[1..]) == multiset(a) - multiset{a[0]}
  {
    assert a == [a[0]] + a[1..];
  }

  /** The sorted permutation is unique, so the storage order of the input cannot show in the output. */
  lemma {:induction false} SortedUnique(a: seq<Hit>, b: seq<Hit>)
    requires Sorted(a) && Sorted(b) && multiset(a) == multiset(b)
    ensures a == b
  {
    assert |multiset(a)| == |a| && |multiset(b)| == |b|;
    if a != [] {
      SortedHeads(a, b);
      TailMultiset(a);
      TailMultiset(b);
      SortedUnique(a[1..], b[1..]);
      assert a == [a[0]] + a[1..] && b == [b[0]] + b[1..];
    }
  }

  /** The best k hits of a collection, best first. */
  function Best(s: seq<Hit>, k: nat): (r: seq<Hit>)
    ensures |r| == if |s| < k then |s| else k
    ensures forall h :: h in r ==> h in s
  {
    var t := SortHits(s);
    assert forall h :: h in t ==> h in multiset(t);
    if |t| < k then t else t[..k]
  }

  lemma BestIsSorted(s: seq<Hit>, k: nat)
    ensures Sorted(Best(s, k))
  {
    hide SortHits;
    SortHitsSorted(s);
  }

  lemma BestIgnoresOrder(a: seq<Hit>, b: seq<Hit>, k: nat)
    requires multiset(a) == multiset(b)
    ensures Best(a, k) == Best(b, k)
  {
    SortHitsSorted(a);
    SortHitsSorted(b);
    SortedUnique(SortHits(a), SortHits(b));
  }

  /** Whatever splits a collection into a sorted head and a tail no better than it has found the best hits. */
  lemma BestOfSplit(head: seq<Hit>, tail: seq<Hit>, s: seq<Hit>)
    requires Sorted(head)
    requires multiset(head) + multiset(tail) == multiset(s)
    requires forall x, y :: x in head && y in tail ==> !Before(y, x)
    ensures Best(s, |head|) == head
  {
    var t := SortHits(tail);
    SortHitsSorted(tail);
    assert forall y :: y in t ==> y in multiset(t);
    var whole := head + t;
    assert Sorted(whole) by {
      forall i, j | 0 <= i < j < |whole| ensures !Before(whole[j], whole[i]) {
        if i < |head| <= j { assert whole[j] in t && whole[i] in head; }
      }
    }
    SortHitsSorted(s);
    SortedUnique(whole, SortHits(s));
    assert |multiset(s)| == |s| && |multiset(whole)| == |whole|;
    assert whole[..|head|] == head;
  }

  lemma SplitSorted(s: seq<Hit>, k: nat)
    requires Sorted(s) && k <= |s|
    ensures multiset(s) == multiset(s[..k]) + multiset(s[k..])
    ensures forall x, y :: x in s[..k] && y in s[k..] ==> !Before(y, x)
  {
    assert s == s[..k] + s[k..];
    forall x, y | x in s[..k] && y in s[k..] ensures !Before(y, x) {
      var i :| 0 <= i < k && s[i] == x;
      var j :| 0 <= j < |s| - k && s[k..][j] == y;
      assert s[k + j] == y;
    }
  }

  lemma Fewer(a: multiset<Hit>, b: multiset<Hit>)
    requires a <= b
    ensures |a| <= |b|
  {
    assert b == a + (b - a);
  }

  /** In a sorted list, everything strictly before the item at index i sits in front of it. */
  lemma InFront(t: seq<Hit>, i: nat, crowd: seq<Hit>)
    requires Sorted(t) && i < |t| && multiset(crowd) <= multiset(t)
    requires forall p :: p in crowd ==> Before(p, t[i])
    ensures |crowd| <= i
  {
    SplitSorted(t, i);
    forall p | p in multiset(crowd) ensures multiset(crowd)[p] <= multiset(t[..i])[p] {
      assert p in crowd;
      forall j | i <= j < |t| ensures t[j] != p {
        BeforeTrichotomy(p, t[i]);
        BeforeTrichotomy(t[j], t[i]);
      }
      assert p !in t[i..];
      assert multiset(crowd)[p] <= multiset(t)[p];
    }
    Fewer(multiset(crowd), multiset(t[..i]));
    assert |multiset(crowd)| == |crowd| && |multiset(t[..i])| == i;
  }

  /** k items all strictly before x leave x no place among the first k. */
  lemma CrowdedOut(all: seq<Hit>, k: nat, crowd: seq<Hit>, x: Hit)
    requires |crowd| == k && multiset(crowd) <= multiset(all)
    requires forall p :: p in crowd ==> Before(p, x)
    ensures x !in Best(all, k)
  {
    var t := SortHits(all);
    SortHitsSorted(all);
    if x in Best(all, k) {
      var i :| 0 <= i < k && i < |t| && t[i] == x;
      InFront(t, i, crowd);
    }
  }

  lemma NoBetterThanKept(p: seq<Hit>, all: seq<Hit>, k: nat, x: Hit, y: Hit)
    requires |p| == k && multiset(p) <= multiset(all)
    requires forall z :: z in p ==> !Before(y, z)
    requires x in Best(all, k)
    ensures !Before(y, x)
  {
    if Before(y, x) {
      forall z | z in p ensures Before(z, x) {
        BeforeTrichotomy(y, z);
        if y != z { BeforeTransitive(z, y, x); }
      }
      CrowdedOut(all, k, p, x);
    }
  }

  lemma BestSplits(a: seq<Hit>, k: nat) returns (rest: seq<Hit>)
    requires k <= |a|
    ensures Sorted(Best(a, k)) && |Best(a, k)| == k
    ensures multiset(a) == multiset(Best(a, k)) + multiset(rest)
    ensures forall x, y :: x in Best(a, k) && y in rest ==> !Before(y, x)
  {
    SortHitsSorted(a);
    SplitSorted(SortHits(a), k);
    rest := SortHits(a)[k..];
  }

  lemma MultisetOfConcat(a: seq<Hit>, b: seq<Hit>)
    ensures multiset(a + b) == multiset(a) + multiset(b)
  {
  }

  lemma Recombined(p: seq<Hit>, q: seq<Hit>, r: seq<Hit>, left: seq<Hit>, a: seq<Hit>, b: seq<Hit>)
    requires multiset(a) == multiset(p) + multiset(q)
    requires multiset(p) + multiset(b) == multiset(r) + multiset(left)
    requires Sorted(r)
    requires forall x, y :: x in r && y in left ==> !Before(y, x)
    requires forall x, y :: x in r && y in q ==> !Before(y, x)
    ensures Best(a + b, |r|) == r
  {
    MultisetOfConcat(left, q);
    MultisetOfConcat(a, b);
    assert multiset(r) + (multiset(left) + multiset(q)) == (multiset(r) + multiset(left)) + multiset(q);
    assert (multiset(p) + multiset(b)) + multiset(q) == multiset(a) + multiset(b);
    BestOfSplit(r, left + q, a + b);
  }

  /** Keeping only the best k between batches loses nothing: the fold over batches is the global selection. */
  lemma BestFolds(a: seq<Hit>, b: seq<Hit>, k: nat)
    ensures Best(Best(a, k) + b, k) == Best(a + b, k)
  {
    var p := Best(a, k);
    MultisetOfConcat(p, b);
    if |a| < k {
      MultisetOfConcat(a, b);
      BestIgnoresOrder(p + b, a + b, k);
    } else {
      var q := BestSplits(a, k);
      var left := BestSplits(p + b, k);
      forall x, y | x in Best(p + b, k) && y in q ensures !Before(y, x) {
        NoBetterThanKept(p, p + b, k, x, y);
      }
      Recombined(p, q, Best(p + b, k), left, a, b);
    }
  }
}
