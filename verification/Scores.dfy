/** Scores over the reals: `cosine_similarity` and `ScoreWeights::score` of `src/lib.rs`, `normalized` of
    `src/vector_index.rs`, and the hybrid score of `memory_core/memory/cache.py`. Roots, powers and logarithms are
    parameters with their defining properties. */
module Scores {
  import opened Types
  import opened Counting

  /** `zip(a, b).map(x * y).sum()`. */
  function Dot(a: Vector, b: Vector): real {
    if a == [] || b == [] then 0.0 else Dot(a[..|a| - 1], b[..|b| - 1]) + a[|a| - 1] * b[|b| - 1]
  }

  lemma DotOneMore(a: Vector, b: Vector, i: nat)
    requires i < |a| && i < |b|
    ensures Dot(a[..i + 1], b[..i + 1]) == Dot(a[..i], b[..i]) + a[i] * b[i]
  {
    assert a[..i + 1][..i] == a[..i] && b[..i + 1][..i] == b[..i];
  }

  /** A vector's square norm is positive, unless every component is zero. */
  lemma {:induction false} DotSelf(a: Vector)
    ensures Dot(a, a) >= 0.0
    ensures (exists i :: 0 <= i < |a| && a[i] != 0.0) ==> Dot(a, a) > 0.0
    ensures (forall i :: 0 <= i < |a| ==> a[i] == 0.0) ==> Dot(a, a) == 0.0
  {
    if a != [] {
      var n := |a| - 1;
      DotSelf(a[..n]);
      var x := a[n];
      assert Dot(a, a) == Dot(a[..n], a[..n]) + Square(x);
      if i :| 0 <= i < |a| && a[i] != 0.0 {
        assert i < n ==> a[..n][i] != 0.0;
      }
      assert (forall i :: 0 <= i < |a| ==> a[i] == 0.0) ==> a[n] == 0.0 && forall i :: 0 <= i < n ==> a[..n][i] == 0.0;
    }
  }

  /** Multiplication, named so that its sign can be reasoned about. */
  function Times(x: real, y: real): (r: real)
    ensures (x > 0.0 && y > 0.0) || (x < 0.0 && y < 0.0) ==> r > 0.0
    ensures x == 0.0 || y == 0.0 ==> r == 0.0
  {
    x * y
  }

  lemma TimesMonotone(k: real, x: real, y: real)
    requires k >= 0.0 && x <= y
    ensures Times(k, x) <= Times(k, y)
  {
    assert Times(k, y) - Times(k, x) == Times(k, y - x);
  }

  lemma TimesStrict(k: real, x: real, y: real)
    requires k > 0.0 && x < y
    ensures Times(k, x) < Times(k, y)
  {
    assert Times(k, y) - Times(k, x) == Times(k, y - x);
  }

  function Square(x: real): (r: real)
    ensures r >= 0.0 && (x != 0.0 ==> r > 0.0)
  {
    Times(x, x)
  }

  /** 0 <= p and q * q <= p * p leave q within p of zero. */
  lemma SquareRootMonotone(q: real, p: real)
    requires p >= 0.0 && q * q <= p * p
    ensures -p <= q <= p
  {
    var y := if q < 0.0 then -q else q;
    assert q * q == y * y;
    if y > p { LargerSquare(y, p); }
  }

  lemma LargerSquare(q: real, p: real)
    requires q > p >= 0.0
    ensures q * q > p * p
  {
    ProductSign(q - p, q + p);
    assert (q - p) * (q + p) == q * q - p * p;
  }

  lemma ProductSign(x: real, y: real)
    requires x > 0.0 && y > 0.0
    ensures x * y > 0.0
  {
  }

  lemma CrossTerm(d: real, x: real, y: real, p: real, q: real)
    requires p >= 0.0 && q >= 0.0 && d * d <= p * q
    ensures 2.0 * (d * (x * y)) <= p * (y * y) + q * (x * x)
  {
    var u, v := p * (y * y), q * (x * x);
    assert Square(y) >= 0.0;
    assert Square(x) >= 0.0;
    NonNegative(p, y * y);
    NonNegative(q, x * x);
    var c := d * (x * y);
    assert Square(u - v) >= 0.0;
    assert (u + v) * (u + v) == (u - v) * (u - v) + 4.0 * (u * v);
    assert u * v == (p * q) * ((x * x) * (y * y)) by { Regroup(p, q, x, y); }
    assert c * c == (d * d) * ((x * x) * (y * y)) by { SquareOfProduct(d, x, y); }
    NonNegative(x * x, y * y);
    Scale(d * d, p * q, (x * x) * (y * y));
    assert (2.0 * c) * (2.0 * c) == 4.0 * (c * c);
    SquareRootMonotone(2.0 * c, u + v);
  }

  lemma NonNegative(x: real, y: real)
    requires x >= 0.0 && y >= 0.0
    ensures x * y >= 0.0
  {
  }

  lemma Scale(x: real, y: real, k: real)
    requires x <= y && k >= 0.0
    ensures x * k <= y * k
  {
    NonNegative(y - x, k);
    assert (y - x) * k == y * k - x * k;
  }

  lemma Regroup(p: real, q: real, x: real, y: real)
    ensures (p * (y * y)) * (q * (x * x)) == (p * q) * ((x * x) * (y * y))
  {
    var a, b := y * y, x * x;
    assert (p * a) * (q * b) == (p * q) * (b * a);
  }

  lemma SquareOfProduct(d: real, x: real, y: real)
    ensures (d * (x * y)) * (d * (x * y)) == (d * d) * ((x * x) * (y * y))
  {
    var z := x * y;
    assert (d * z) * (d * z) == (d * d) * (z * z);
    assert z * z == (x * x) * (y * y);
  }

  /** The Cauchy-Schwarz inequality, by induction on the length. */
  lemma {:induction false} CauchySchwarz(a: Vector, b: Vector)
    requires |a| == |b|
    ensures Dot(a, b) * Dot(a, b) <= Dot(a, a) * Dot(b, b)
  {
    if a != [] {
      var n := |a| - 1;
      var d, p, q, x, y := Dot(a[..n], b[..n]), Dot(a[..n], a[..n]), Dot(b[..n], b[..n]), a[n], b[n];
      CauchySchwarz(a[..n], b[..n]);
      DotSelf(a[..n]);
      DotSelf(b[..n]);
      CrossTerm(d, x, y, p, q);
      Expand(d, x * y);
      assert (p + x * x) * (q + y * y) == p * q + p * (y * y) + (x * x) * q + (x * x) * (y * y);
      assert (x * y) * (x * y) == (x * x) * (y * y) by { SquareOfProduct(1.0, x, y); }
    }
  }

  lemma Expand(d: real, z: real)
    ensures (d + z) * (d + z) == d * d + 2.0 * (d * z) + z * z
  {
  }

  ghost predicate IsRoot(root: real -> real) {
    forall x :: x >= 0.0 ==> root(x) >= 0.0 && root(x) * root(x) == x
  }

  /** A dot product divided by the two norms stays within [-1, 1]. */
  lemma QuotientInUnit(d: real, ra: real, rb: real)
    requires ra > 0.0 && rb > 0.0 && d * d <= (ra * ra) * (rb * rb)
    ensures -1.0 <= d / (ra * rb) <= 1.0
  {
    ProductSign(ra, rb);
    var p := ra * rb;
    assert p * p == (ra * ra) * (rb * rb) by { SquareOfProduct(1.0, ra, rb); }
    SquareRootMonotone(d, p);
    assert d / p <= 1.0 && -1.0 <= d / p by { Quotients(d, p); }
  }

  lemma Quotients(d: real, p: real)
    requires p > 0.0 && -p <= d <= p
    ensures -1.0 <= d / p <= 1.0
  {
    assert (d / p) * p == d;
  }

  /** What the two norms and the product give. */
  ghost predicate IsCosine(c: real, d: real, ra: real, rb: real) {
    -1.0 <= c <= 1.0 && c * (ra * rb) == d
  }

  /** What the three sums of one pass satisfy. */
  ghost predicate Compatible(d: real, p: real, q: real) {
    p >= 0.0 && q >= 0.0 && d * d <= p * q
  }

  lemma SumsCompatible(a: Vector, b: Vector)
    requires |a| == |b|
    ensures Compatible(Dot(a, b), Dot(a, a), Dot(b, b))
  {
    DotSelf(a);
    DotSelf(b);
    CauchySchwarz(a, b);
  }

  /** The loop of `cosine_similarity`. */
  method Sums(a: Vector, b: Vector, n: nat) returns (dot: real, normA: real, normB: real)
    requires n <= |a| && n <= |b|
    ensures dot == Dot(a[..n], b[..n]) && normA == Dot(a[..n], a[..n]) && normB == Dot(b[..n], b[..n])
  {
    hide Dot;
    dot, normA, normB := 0.0, 0.0, 0.0;
    EmptyDot(a, b);
    for i := 0 to n
      invariant dot == Dot(a[..i], b[..i]) && normA == Dot(a[..i], a[..i]) && normB == Dot(b[..i], b[..i])
    {
      DotOneMore(a, b, i);
      DotOneMore(a, a, i);
      DotOneMore(b, b, i);
      dot, normA, normB := dot + a[i] * b[i], normA + a[i] * a[i], normB + b[i] * b[i];
    }
  }

  /** Its last lines, on the three sums. */
  function Quotiented(dot: real, normA: real, normB: real, root: real -> real): (c: real)
    requires IsRoot(root) && Compatible(dot, normA, normB)
    ensures IsCosine(c, dot, root(normA), root(normB))
    ensures normA == 0.0 || normB == 0.0 ==> c == 0.0
  {
    hide IsRoot, IsCosine, IsRootOf, Ratio;
    NormsHaveRoots(dot, normA, normB, root);
    FinishCosine(dot, normA, normB, root(normA), root(normB));
    if normA == 0.0 || normB == 0.0 then 0.0 else Ratio(dot, root(normA), root(normB))
  }

  /** The cosine over the common length; a zero vector is similar to nothing. */
  function Cosine(a: Vector, b: Vector, root: real -> real): (c: real)
    requires IsRoot(root)
    ensures
      var n := Min(|a|, |b|);
      var x, y := a[..n], b[..n];
      && IsCosine(c, Dot(x, y), root(Dot(x, x)), root(Dot(y, y)))
      && (Dot(x, x) == 0.0 || Dot(y, y) == 0.0 ==> c == 0.0)
  {
    hide IsRoot, IsCosine, Dot, Compatible;
    var n := Min(|a|, |b|);
    SumsCompatible(a[..n], b[..n]);
    Quotiented(Dot(a[..n], b[..n]), Dot(a[..n], a[..n]), Dot(b[..n], b[..n]), root)
  }

  /** `cosine_similarity`: one pass over the common length for the product and both norms. */
  method CosineSimilarity(a: Vector, b: Vector, root: real -> real) returns (c: real)
    requires IsRoot(root)
    ensures c == Cosine(a, b, root)
  {
    hide IsRoot, IsCosine, Dot, Compatible;
    var n := Min(|a|, |b|);
    var dot, normA, normB := Sums(a, b, n);
    SumsCompatible(a[..n], b[..n]);
    c := Quotiented(dot, normA, normB, root);
  }

  lemma EmptyDot(a: Vector, b: Vector)
    ensures Dot(a[..0], b[..0]) == 0.0 && Dot(a[..0], a[..0]) == 0.0 && Dot(b[..0], b[..0]) == 0.0
  {
  }

  ghost predicate IsRootOf(r: real, x: real) {
    r >= 0.0 && r * r == x
  }

  lemma NormsHaveRoots(d: real, p: real, q: real, root: real -> real)
    requires IsRoot(root) && Compatible(d, p, q)
    ensures IsRootOf(root(p), p) && IsRootOf(root(q), q)
  {
  }

  /** `dot / (norm_a.sqrt() * norm_b.sqrt())`. */
  function Ratio(d: real, ra: real, rb: real): real
    requires ra > 0.0 && rb > 0.0
  {
    assert Times(ra, rb) > 0.0;
    d / Times(ra, rb)
  }

  lemma FinishCosine(d: real, p: real, q: real, ra: real, rb: real)
    requires Compatible(d, p, q) && IsRootOf(ra, p) && IsRootOf(rb, q)
    ensures p == 0.0 || q == 0.0 ==> IsCosine(0.0, d, ra, rb)
    ensures p != 0.0 && q != 0.0 ==> ra > 0.0 && rb > 0.0 && IsCosine(Ratio(d, ra, rb), d, ra, rb)
  {
    if p == 0.0 || q == 0.0 {
      ZeroSide(d, p, q);
    } else {
      assert Square(ra) == p && Square(rb) == q;
      ProductSign(ra, rb);
      QuotientInUnit(d, ra, rb);
    }
  }

  lemma ZeroSide(d: real, p: real, q: real)
    requires d * d <= p * q && (p == 0.0 || q == 0.0)
    ensures d == 0.0
  {
    var product := p * q;
    assert product == 0.0 && Square(d) <= product;
  }

  // ---------- the engine's weighted score ----------

  datatype Weights = Weights(semantic: real, importance: real, recency: real, access: real, halfLife: real)

  /** A float a caller may pass: a real, or nothing for NaN and the infinities. */
  type Float = Option<real>

  predicate Usable(w: Float) { w.Some? && w.value >= 0.0 }

  /** `ScoreWeights::new`: refused exactly on a weight that is not finite or negative, or a half-life that is not finite
      or not positive; otherwise the weights given, with the half-life in seconds. */
  function NewWeights(semantic: Float, importance: Float, recency: Float, access: Float,
                      halfLifeDays: Float): (r: Option<Weights>)
    ensures r.Some? <==>
      && Usable(semantic) && Usable(importance) && Usable(recency) && Usable(access)
      && Usable(halfLifeDays) && halfLifeDays != Some(0.0)
    ensures r.Some? ==>
      && Weighted(r.value)
      && Some(r.value.semantic) == semantic && Some(r.value.importance) == importance
      && Some(r.value.recency) == recency && Some(r.value.access) == access
      && Some(r.value.halfLife / 86400.0) == halfLifeDays
  {
    if !Usable(semantic) || !Usable(importance) || !Usable(recency) || !Usable(access) then None
    else if halfLifeDays.None? || halfLifeDays.value <= 0.0 then None
    else Some(Weights(semantic.value, importance.value, recency.value, access.value, halfLifeDays.value * 86400.0))
  }

  predicate Weighted(w: Weights) {
    w.semantic >= 0.0 && w.importance >= 0.0 && w.recency >= 0.0 && w.access >= 0.0 && w.halfLife > 0.0
  }

  datatype Signals = Signals(cosine: real, importance: real, createdAt: int, accesses: nat)

  function Age(s: Signals, now: int): nat {
    if now > s.createdAt then now - s.createdAt else 0
  }

  /** `ScoreWeights::score`; `decay` is 0.5 to a power and `log` is ln(1 + n). */
  function Score(w: Weights, s: Signals, now: int, decay: real -> real, log: nat -> real): real
    requires w.halfLife > 0.0 && Logarithm(log)
  {
    Times(w.semantic, s.cosine) + Times(w.importance, s.importance)
    + (if w.recency > 0.0 then Times(w.recency, decay(Age(s, now) as real / w.halfLife)) else 0.0)
    + (if w.access > 0.0 then Times(w.access, Saturated(log(s.accesses))) else 0.0)
  }

  function Saturated(a: real): (r: real)
    requires a >= 0.0
    ensures 0.0 <= r < 1.0
  {
    assert Times(1.0 + a, a / (1.0 + a)) == a;
    a / (1.0 + a)
  }

  ghost predicate Decay(decay: real -> real) {
    && (forall x :: x >= 0.0 ==> 0.0 <= decay(x) <= 1.0)
    && (forall x, y :: 0.0 <= x <= y ==> decay(y) <= decay(x))
  }

  ghost predicate Logarithm(log: nat -> real) {
    && (forall n :: log(n) >= 0.0)
    && (forall n: nat, m: nat :: n <= m ==> log(n) <= log(m))
  }

  lemma SaturatedMonotone(a: real, b: real)
    requires 0.0 <= a <= b
    ensures Saturated(a) <= Saturated(b)
  {
    var x, y := Saturated(a), Saturated(b);
    assert Times(1.0 + a, x) == a && Times(1.0 + b, y) == b;
    TimesMonotone(b - a, x, 1.0);
    assert Times(1.0 + b, x) == Times(1.0 + a, x) + Times(b - a, x);
    assert Times(b - a, 1.0) == b - a;
    if y < x { TimesStrict(1.0 + b, y, x); }
  }

  lemma TimesWithin(w: real, x: real, lo: real, hi: real)
    requires w >= 0.0 && lo <= x <= hi
    ensures Times(w, lo) <= Times(w, x) <= Times(w, hi)
  {
    TimesMonotone(w, lo, x);
    TimesMonotone(w, x, hi);
  }

  lemma Quotient(n: real, d: real)
    requires d > 0.0
    ensures Times(d, n / d) == n
  {
  }

  lemma QuotientMonotone(n: real, m: real, d: real)
    requires d > 0.0 && n <= m
    ensures n / d <= m / d
  {
    Quotient(n, d);
    Quotient(m, d);
    if m / d < n / d { TimesStrict(d, m / d, n / d); }
  }

  /** Every term is bounded by its weight. */
  lemma ScoreBounds(w: Weights, s: Signals, now: int, decay: real -> real, log: nat -> real)
    requires Weighted(w) && Decay(decay) && Logarithm(log)
    requires -1.0 <= s.cosine <= 1.0 && 0.0 <= s.importance <= 1.0
    ensures -w.semantic <= Score(w, s, now, decay, log) <= w.semantic + w.importance + w.recency + w.access
  {
    hide Saturated, Times;
    var age := Age(s, now) as real / w.halfLife;
    QuotientMonotone(0.0, Age(s, now) as real, w.halfLife);
    TimesWithin(w.semantic, s.cosine, -1.0, 1.0);
    TimesWithin(w.importance, s.importance, 0.0, 1.0);
    TimesWithin(w.recency, decay(age), 0.0, 1.0);
    TimesWithin(w.access, Saturated(log(s.accesses)), 0.0, 1.0);
    ByOne(w.semantic);
    ByOne(w.importance);
    ByOne(w.recency);
    ByOne(w.access);
  }

  lemma ByOne(w: real)
    ensures Times(w, 1.0) == w && Times(w, -1.0) == -w && Times(w, 0.0) == 0.0
  {
  }

  /** At the same similarity, a newer, weightier, more often used trace never scores lower. */
  lemma ScoreMonotone(w: Weights, a: Signals, b: Signals, now: int, decay: real -> real, log: nat -> real)
    requires Weighted(w) && Decay(decay) && Logarithm(log)
    requires a.cosine <= b.cosine && a.importance <= b.importance && a.createdAt <= b.createdAt
      && a.accesses <= b.accesses
    ensures Score(w, a, now, decay, log) <= Score(w, b, now, decay, log)
  {
    hide Saturated, Times;
    QuotientMonotone(Age(b, now) as real, Age(a, now) as real, w.halfLife);
    QuotientMonotone(0.0, Age(b, now) as real, w.halfLife);
    SaturatedMonotone(log(a.accesses), log(b.accesses));
    var x, y := Age(a, now) as real / w.halfLife, Age(b, now) as real / w.halfLife;
    assert decay(x) <= decay(y);
    TimesMonotone(w.semantic, a.cosine, b.cosine);
    TimesMonotone(w.importance, a.importance, b.importance);
    TimesMonotone(w.recency, decay(x), decay(y));
    TimesMonotone(w.access, Saturated(log(a.accesses)), Saturated(log(b.accesses)));
  }

  // ---------- the hybrid score ----------

  /** `RetrievalPolicy`. */
  datatype Policy = Policy(semanticWeight: real, lexicalWeight: real, multiplier: nat, floor: nat, minimum: real)

  /** Each signal counts by its own weight: cosine and importance as they are, accesses by what saturates below one. */
  lemma EachSignalByItsWeight(w: Weights, a: Signals, b: Signals, now: int, decay: real -> real, log: nat -> real)
    requires Weighted(w) && Logarithm(log) && a.createdAt == b.createdAt
    ensures Score(w, a, now, decay, log) - Score(w, b, now, decay, log)
         == w.semantic * (a.cosine - b.cosine) + w.importance * (a.importance - b.importance)
            + w.access * (log(a.accesses) / (1.0 + log(a.accesses)) - log(b.accesses) / (1.0 + log(b.accesses)))
  {
    var x, y := Saturated(log(a.accesses)), Saturated(log(b.accesses));
    Difference(w.semantic, a.cosine, b.cosine);
    Difference(w.importance, a.importance, b.importance);
    Difference(w.access, x, y);
  }

  lemma Difference(k: real, x: real, y: real)
    ensures Times(k, x) - Times(k, y) == k * (x - y)
  {
  }

  /** A trace one half-life older than another has half its recency. */
  lemma HalfLifeHalves(w: Weights, s: Signals, h: nat, now: int, decay: real -> real, log: nat -> real)
    requires Weighted(w) && Logarithm(log) && w.halfLife == h as real && s.createdAt <= now
    requires forall x :: x >= 0.0 ==> 2.0 * decay(x + 1.0) == decay(x)
    ensures
      2.0 * (Score(w, s, now, decay, log) - Score(w, s.(createdAt := s.createdAt - h), now, decay, log))
      == w.recency * decay((now - s.createdAt) as real / w.halfLife)
  {
    hide Times, Saturated;
    var older, age := s.(createdAt := s.createdAt - h), (now - s.createdAt) as real;
    assert (now - older.createdAt) as real == age + w.halfLife;
    OneMore(age, w.halfLife);
    var x := age / w.halfLife;
    assert x >= 0.0 by { QuotientMonotone(0.0, age, w.halfLife); }
    Difference(w.recency, decay(x), decay(x + 1.0));
    Halved(w.recency, decay(x), decay(x + 1.0));
  }

  /** A trace from the future counts as new. */
  lemma FutureIsNew(w: Weights, s: Signals, now: int, decay: real -> real, log: nat -> real)
    requires Weighted(w) && Logarithm(log) && s.createdAt > now
    ensures Score(w, s, now, decay, log) == Score(w, s.(createdAt := now), now, decay, log)
  {
    hide Times, Saturated;
  }

  lemma Halved(k: real, x: real, y: real)
    requires x == 2.0 * y
    ensures 2.0 * (k * (x - y)) == k * x
  {
  }

  lemma OneMore(n: real, d: real)
    requires d > 0.0
    ensures (n + d) / d == n / d + 1.0
  {
    Cancels(n + d, d);
    Cancels(n, d);
    SameFactor(d, (n + d) / d, n / d + 1.0);
  }

  lemma SameFactor(d: real, q: real, r: real)
    requires d > 0.0 && d * q == d * r
    ensures q == r
  {
    if q < r { TimesStrict(d, q, r); }
    if r < q { TimesStrict(d, r, q); }
  }

  predicate ValidPolicy(p: Policy) {
    0.0 <= p.semanticWeight <= 1.0 && 0.0 <= p.lexicalWeight <= 1.0 && p.semanticWeight + p.lexicalWeight > 0.0
    && 1 <= p.multiplier <= 20 && 1 <= p.floor <= 1000 && 0.0 <= p.minimum <= 1.0
  }

  function Floored(x: real): real { if x > 0.0 then x else 0.0 }

  /** Cosine, floored at zero, and query-word coverage, weighted and normalised. */
  function Hybrid(p: Policy, cosine: real, overlap: nat, words: nat): real
    requires ValidPolicy(p)
  {
    (Times(p.semanticWeight, Floored(cosine))
      + Times(p.lexicalWeight, overlap as real) / (if words > 1 then words else 1) as real)
    / (p.semanticWeight + p.lexicalWeight)
  }

  /** The weighted mean of the cosine, if positive, and the share of the query's words. */
  lemma HybridIsWeightedMean(p: Policy, cosine: real, overlap: nat, words: nat)
    requires ValidPolicy(p)
    ensures
      var s, l := p.semanticWeight, p.lexicalWeight;
      (s + l) * Hybrid(p, cosine, overlap, words)
      == s * (if cosine > 0.0 then cosine else 0.0) + l * (overlap as real / (if words == 0 then 1 else words) as real)
  {
    var s, l, d := p.semanticWeight, p.lexicalWeight, (if words > 1 then words else 1) as real;
    Cancels(Times(s, Floored(cosine)) + Times(l, overlap as real) / d, s + l);
    ByShare(l, overlap as real, d);
  }

  lemma Cancels(n: real, d: real)
    requires d > 0.0
    ensures d * (n / d) == n
  {
  }

  lemma ByShare(l: real, x: real, d: real)
    requires d > 0.0
    ensures Times(l, x) / d == l * (x / d)
  {
  }

  lemma HybridInUnit(p: Policy, cosine: real, overlap: nat, words: nat)
    requires ValidPolicy(p) && cosine <= 1.0 && overlap <= words
    ensures 0.0 <= Hybrid(p, cosine, overlap, words) <= 1.0
  {
    hide Times;
    var d := (if words > 1 then words else 1) as real;
    var s, l := p.semanticWeight, p.lexicalWeight;
    TimesWithin(s, Floored(cosine), 0.0, 1.0);
    ByOne(s);
    TimesWithin(l, overlap as real, 0.0, d);
    ByOne(l);
    QuotientBounds(Times(l, overlap as real), d, l);
    Commutes(1.0, s + l);
    ByOne(s + l);
    QuotientBounds(Times(s, Floored(cosine)) + Times(l, overlap as real) / d, s + l, 1.0);
  }

  lemma Commutes(x: real, y: real)
    ensures Times(x, y) == Times(y, x)
  {
  }

  lemma QuotientBounds(n: real, d: real, bound: real)
    requires d > 0.0 && 0.0 <= n <= Times(bound, d)
    ensures 0.0 <= n / d <= bound
  {
    QuotientMonotone(0.0, n, d);
    Quotient(n, d);
    Commutes(bound, d);
    if bound < n / d { TimesStrict(d, bound, n / d); }
  }
}
