/** `MetadataIndex` of `memory_core/memory/metadata.py`: posting lists, a lazily sorted range index, and filters
    evaluated over them. */
module Metadata {
  import opened Types
  import opened Fields
  import opened Postings

  // ---------- filters ----------

  datatype Filter =
    | Eq(field: string, value: Scalar)
    | In(field: string, values: seq<Scalar>)
    | ContainsAny(field: string, texts: seq<string>)
    | ContainsAll(field: string, texts: seq<string>)
    | Range(field: string, minimum: Option<real>, maximum: Option<real>)
    | Exists(field: string)
    | AllOf(conditions: seq<Filter>)
    | AnyOf(conditions: seq<Filter>)

  /** `check_filter`. */
  predicate CheckFilter(reg: Registry, q: Filter, depth: nat)
    decreases q
  {
    depth <= 8 &&
    match q
    case AllOf(cs) => forall i :: 0 <= i < |cs| ==> CheckFilter(reg, cs[i], depth + 1)
    case AnyOf(cs) => forall i :: 0 <= i < |cs| ==> CheckFilter(reg, cs[i], depth + 1)
    case Exists(f) => reg.Resolve(f).Some?
    case ContainsAll(f, _) => reg.Resolve(f).Some? && reg.Resolve(f).value.kind == Keywords
    case ContainsAny(f, _) => reg.Resolve(f).Some? && reg.Resolve(f).value.kind == Keywords
    case Range(f, _, _) => reg.Resolve(f).Some? && reg.Resolve(f).value.kind == Numeric
    case Eq(f, v) =>
      reg.Resolve(f).Some? && reg.Resolve(f).value.kind != Keywords && TypeOk(reg.Resolve(f).value.kind, One(v))
    case In(f, vs) =>
      && reg.Resolve(f).Some? && reg.Resolve(f).value.kind != Keywords
      && forall i :: 0 <= i < |vs| ==> TypeOk(reg.Resolve(f).value.kind, One(vs[i]))
  }

  /** How deep conditions nest below this one. */
  function Nesting(q: Filter): nat {
    match q
    case AllOf(cs) => Deepest(cs)
    case AnyOf(cs) => Deepest(cs)
    case _ => 0
  }

  function Deepest(cs: seq<Filter>): (n: nat)
    ensures forall i :: 0 <= i < |cs| ==> Nesting(cs[i]) < n
    ensures n > 0 ==> exists i :: 0 <= i < |cs| && Nesting(cs[i]) == n - 1
  {
    if cs == [] then 0
    else
      var last := Nesting(cs[|cs| - 1]) + 1;
      var rest := Deepest(cs[..|cs| - 1]);
      assert forall i :: 0 <= i < |cs| - 1 ==> cs[..|cs| - 1][i] == cs[i];
      if last > rest then last else rest
  }

  /** Joining conditions by all or by any nests them one deeper than the deepest of them. */
  lemma NestingMeaning(cs: seq<Filter>, leaf: Filter)
    ensures Nesting(AllOf(cs)) == Nesting(AnyOf(cs)) && (cs == [] ==> Nesting(AllOf(cs)) == 0)
    ensures forall i :: 0 <= i < |cs| ==> Nesting(AllOf(cs)) >= Nesting(cs[i]) + 1
    ensures cs != [] ==> exists i :: 0 <= i < |cs| && Nesting(AllOf(cs)) == Nesting(cs[i]) + 1
    ensures !leaf.AllOf? && !leaf.AnyOf? ==> Nesting(leaf) == 0
  {
    if cs != [] { assert Nesting(cs[0]) < Deepest(cs); }
  }

  /** What may be asked of a field of each type. */
  predicate Allowed(kind: FieldType, q: Filter) {
    match kind
    case Keyword =>
      q.Exists? || (q.Eq? && q.value.Text?) || (q.In? && forall i :: 0 <= i < |q.values| ==> q.values[i].Text?)
    case Keywords => q.Exists? || q.ContainsAny? || q.ContainsAll?
    case Numeric =>
      || q.Exists? || q.Range? || (q.Eq? && q.value.Number?)
      || (q.In? && forall i :: 0 <= i < |q.values| ==> q.values[i].Number?)
    case Boolean =>
      q.Exists? || (q.Eq? && q.value.Flag?) || (q.In? && forall i :: 0 <= i < |q.values| ==> q.values[i].Flag?)
  }

  /** Every condition names a known field, by its own name or an alias, and asks of it only what its type allows. */
  predicate LeavesOk(reg: Registry, q: Filter)
    decreases q
  {
    match q
    case AllOf(cs) => forall i :: 0 <= i < |cs| ==> LeavesOk(reg, cs[i])
    case AnyOf(cs) => forall i :: 0 <= i < |cs| ==> LeavesOk(reg, cs[i])
    case _ =>
      var name := if q.field in reg.aliases then reg.aliases[q.field] else q.field;
      name in reg.fields && Allowed(reg.fields[name].kind, q)
  }

  /** A filter is refused exactly when some condition is malformed or the nesting exceeds eight. */
  lemma {:induction false} ChecksShapeAndDepth(reg: Registry, q: Filter, depth: nat)
    ensures CheckFilter(reg, q, depth) <==> LeavesOk(reg, q) && depth + Nesting(q) <= 8
    decreases q
  {
    hide Deepest;
    match q
    case AllOf(cs) =>
      forall i | 0 <= i < |cs|
          ensures CheckFilter(reg, cs[i], depth + 1) <==> LeavesOk(reg, cs[i]) && depth + 1 + Nesting(cs[i]) <= 8 {
        ChecksShapeAndDepth(reg, cs[i], depth + 1);
      }
      Deep(cs, depth);
    case AnyOf(cs) =>
      forall i | 0 <= i < |cs|
          ensures CheckFilter(reg, cs[i], depth + 1) <==> LeavesOk(reg, cs[i]) && depth + 1 + Nesting(cs[i]) <= 8 {
        ChecksShapeAndDepth(reg, cs[i], depth + 1);
      }
      Deep(cs, depth);
    case _ =>
  }

  lemma Deep(cs: seq<Filter>, depth: nat)
    ensures (depth <= 8 && forall i :: 0 <= i < |cs| ==> depth + 1 + Nesting(cs[i]) <= 8) <==> depth + Deepest(cs) <= 8
  {
    hide Nesting;
    if Deepest(cs) > 0 {
      var i :| 0 <= i < |cs| && Nesting(cs[i]) == Deepest(cs) - 1;
    }
  }

  /** What a filter means for one record's metadata, independent of any index. */
  predicate Holds(reg: Registry, q: Filter, data: map<string, Value>)
    decreases q
  {
    match q
    case AllOf(cs) => forall i :: 0 <= i < |cs| ==> Holds(reg, cs[i], data)
    case AnyOf(cs) => exists i :: 0 <= i < |cs| && Holds(reg, cs[i], data)
    case Exists(f) => NameOf(reg, f) in data
    case Eq(f, v) => NameOf(reg, f) in data && data[NameOf(reg, f)] == One(v)
    case In(f, vs) => NameOf(reg, f) in data && exists i :: 0 <= i < |vs| && data[NameOf(reg, f)] == One(vs[i])
    case ContainsAny(f, ts) =>
      NameOf(reg, f) in data && data[NameOf(reg, f)].Many? && exists t :: t in ts && t in data[NameOf(reg, f)].items
    case ContainsAll(f, ts) =>
      NameOf(reg, f) in data && data[NameOf(reg, f)].Many? && forall t :: t in ts ==> t in data[NameOf(reg, f)].items
    case Range(f, lo, hi) =>
      && NameOf(reg, f) in data && data[NameOf(reg, f)].One? && data[NameOf(reg, f)].item.Number?
      && var x := data[NameOf(reg, f)].item.number;
      (lo.Some? ==> lo.value <= x) && (hi.Some? ==> x <= hi.value)
  }

  // How the conditions relate, whatever a record holds.

  /** Conditions joined by all hold together, in whatever groups. */
  lemma AllLaws(reg: Registry, ps: seq<Filter>, qs: seq<Filter>, q: Filter, data: map<string, Value>)
    ensures Holds(reg, AllOf([]), data) && Holds(reg, AllOf([q]), data) == Holds(reg, q, data)
    ensures Holds(reg, AllOf(ps + qs), data) <==> Holds(reg, AllOf(ps), data) && Holds(reg, AllOf(qs), data)
  {
    AllOfMeaning(reg, [q], data);
    AllOfMeaning(reg, [], data);
    AllOfMeaning(reg, ps, data);
    AllOfMeaning(reg, qs, data);
    AllOfMeaning(reg, ps + qs, data);
    hide Holds;
    assert [q][0] == q;
    Joined(ps, qs);
  }

  lemma AllOfMeaning(reg: Registry, ps: seq<Filter>, data: map<string, Value>)
    ensures Holds(reg, AllOf(ps), data) <==> forall p :: p in ps ==> Holds(reg, p, data)
  {
    if Holds(reg, AllOf(ps), data) {
      forall p | p in ps ensures Holds(reg, p, data) {
        var i :| 0 <= i < |ps| && ps[i] == p;
        assert Holds(reg, ps[i], data);
      }
    }
    if forall p :: p in ps ==> Holds(reg, p, data) {
      forall i | 0 <= i < |ps| ensures Holds(reg, ps[i], data) { assert ps[i] in ps; }
    }
  }

  lemma Joined(ps: seq<Filter>, qs: seq<Filter>)
    ensures forall p :: p in ps + qs <==> p in ps || p in qs
  {
  }

  /** Conditions joined by any hold singly, in whatever groups. */
  lemma AnyLaws(reg: Registry, ps: seq<Filter>, qs: seq<Filter>, q: Filter, data: map<string, Value>)
    ensures !Holds(reg, AnyOf([]), data) && Holds(reg, AnyOf([q]), data) == Holds(reg, q, data)
    ensures Holds(reg, AnyOf(ps + qs), data) <==> Holds(reg, AnyOf(ps), data) || Holds(reg, AnyOf(qs), data)
  {
    AnyOfMeaning(reg, [q], data);
    AnyOfMeaning(reg, [], data);
    AnyOfMeaning(reg, ps, data);
    AnyOfMeaning(reg, qs, data);
    AnyOfMeaning(reg, ps + qs, data);
    hide Holds;
    assert [q][0] == q;
    Joined(ps, qs);
  }

  lemma AnyOfMeaning(reg: Registry, ps: seq<Filter>, data: map<string, Value>)
    ensures Holds(reg, AnyOf(ps), data) <==> exists p :: p in ps && Holds(reg, p, data)
  {
    if p :| p in ps && Holds(reg, p, data) {
      var i :| 0 <= i < |ps| && ps[i] == p;
      assert Holds(reg, ps[i], data);
    }
  }

  /** A field that is absent meets no condition; one that is present exists, and equals its own value only. */
  lemma PresenceLaws(reg: Registry, q: Filter, v: Scalar, data: map<string, Value>)
    requires !q.AllOf? && !q.AnyOf?
    ensures NameOf(reg, q.field) !in data ==> !Holds(reg, q, data)
    ensures NameOf(reg, q.field) in data ==> Holds(reg, Exists(q.field), data)
    ensures NameOf(reg, q.field) in data ==>
      (Holds(reg, Eq(q.field, v), data) <==> data[NameOf(reg, q.field)] == One(v))
    ensures NameOf(reg, q.field) in data ==>
      forall t :: Holds(reg, ContainsAll(q.field, [t]), data) <==>
        data[NameOf(reg, q.field)].Many? && t in data[NameOf(reg, q.field)].items
    ensures NameOf(reg, q.field) in data ==>
      forall x :: Holds(reg, Range(q.field, Some(x), None), data) <==>
        data[NameOf(reg, q.field)].One? && data[NameOf(reg, q.field)].item.Number?
          && x <= data[NameOf(reg, q.field)].item.number
  {
    hide TermsOf;
  }

  /** Being one of several values is being equal to one of them, and a number is the range of itself. */
  lemma EqualityLaws(reg: Registry, f: string, vs: seq<Scalar>, x: real, data: map<string, Value>)
    ensures Holds(reg, In(f, vs), data) <==> exists i :: 0 <= i < |vs| && Holds(reg, Eq(f, vs[i]), data)
    ensures Holds(reg, Eq(f, Number(x)), data) <==> Holds(reg, Range(f, Some(x), Some(x)), data)
  {
  }

  /** A range is its two bounds, and a weaker bound holds wherever a stronger one does. */
  lemma RangeLaws(reg: Registry, f: string, x: real, y: real, data: map<string, Value>)
    ensures Holds(reg, Range(f, Some(x), Some(y)), data) <==>
      Holds(reg, Range(f, Some(x), None), data) && Holds(reg, Range(f, None, Some(y)), data)
    ensures x <= y && Holds(reg, Range(f, Some(y), None), data) ==> Holds(reg, Range(f, Some(x), None), data)
    ensures x <= y && Holds(reg, Range(f, None, Some(x)), data) ==> Holds(reg, Range(f, None, Some(y)), data)
    ensures Holds(reg, Range(f, None, None), data) <==>
      Holds(reg, Range(f, Some(x), None), data) || Holds(reg, Range(f, None, Some(x)), data)
  {
  }

  /** Containing all of several texts is containing each, containing any of them is containing one, and containing all
      of none is being a list. */
  lemma ListLaws(reg: Registry, f: string, ts: seq<string>, data: map<string, Value>)
    ensures Holds(reg, ContainsAny(f, ts), data)
      <==> exists i :: 0 <= i < |ts| && Holds(reg, ContainsAll(f, [ts[i]]), data)
    ensures Holds(reg, ContainsAll(f, ts), data) <==>
      Holds(reg, ContainsAll(f, []), data) && forall i :: 0 <= i < |ts| ==> Holds(reg, ContainsAll(f, [ts[i]]), data)
    ensures Holds(reg, ContainsAll(f, []), data) ==> Holds(reg, Exists(f), data)
  {
    forall i | 0 <= i < |ts|
      ensures Holds(reg, ContainsAll(f, [ts[i]]), data) <==>
        NameOf(reg, f) in data && data[NameOf(reg, f)].Many? && ts[i] in data[NameOf(reg, f)].items
    {
      assert ts[i] in [ts[i]];
    }
    if Holds(reg, ContainsAny(f, ts), data) {
      var i :| 0 <= i < |ts| && ts[i] in data[NameOf(reg, f)].items;
      assert Holds(reg, ContainsAll(f, [ts[i]]), data);
    }
  }

  // ---------- sorted numbers ----------

  ghost predicate Ascending(s: seq<real>) {
    forall i, j :: 0 <= i < j < |s| ==> s[i] < s[j]
  }

  function BisectLeft(s: seq<real>, x: real): (k: nat)
    ensures k <= |s|
    ensures Ascending(s) ==> forall i :: 0 <= i < |s| ==> (i < k <==> s[i] < x)
  {
    if s != [] && s[0] < x then
      assert forall i :: 0 < i < |s| ==> s[i] == s[1..][i - 1];
      1 + BisectLeft(s[1..], x)
    else 0
  }

  function BisectRight(s: seq<real>, x: real): (k: nat)
    ensures k <= |s|
    ensures Ascending(s) ==> forall i :: 0 <= i < |s| ==> (i < k <==> s[i] <= x)
  {
    if s != [] && s[0] <= x then
      assert forall i :: 0 < i < |s| ==> s[i] == s[1..][i - 1];
      1 + BisectRight(s[1..], x)
    else 0
  }

  function InsertNumber(x: real, s: seq<real>): (r: seq<real>)
    ensures forall y :: y in r <==> y == x || y in s
    ensures Ascending(s) && x !in s ==> Ascending(r)
  {
    if s == [] || x < s[0] then [x] + s
    else
      assert s == [s[0]] + s[1..];
      var t := InsertNumber(x, s[1..]);
      assert Ascending(s) && x !in s ==> forall y :: y in t ==> s[0] < y;
      assert forall j :: 0 <= j < |t| ==> t[j] in t;
      [s[0]] + t
  }

  /** `sorted(key[1] for key in posting)` over the keys of a numeric field. */
  method SortNumbers(keys: set<Scalar>) returns (s: seq<real>)
    ensures Ascending(s)
    ensures forall x :: x in s <==> Number(x) in keys
  {
    s := [];
    var rest := set k | k in keys && k.Number?;
    while rest != {}
      invariant rest <= keys
      invariant forall k :: k in rest ==> k.Number?
      invariant Ascending(s)
      invariant forall x :: x in s <==> Number(x) in keys && Number(x) !in rest
      decreases rest
    {
      var k :| k in rest;
      s := InsertNumber(k.number, s);
      rest := rest - {k};
    }
  }

  // ---------- postings ----------

  type Data = map<Id, map<string, Value>>

  /** One posting list: `postings[field][key]`. */
  datatype Term = Term(field: string, key: Scalar)

  /** The posting lists a record belongs to. */
  ghost function TermsOf(data: map<string, Value>): set<Term> {
    set f, k | f in data && k in ItemsOf(data[f]) :: Term(f, k)
  }

  ghost function TermKeys(values: Data): map<Id, set<Term>> {
    map u | u in values :: TermsOf(values[u])
  }

  ghost function FieldKeys(values: Data): map<Id, set<string>> {
    map u | u in values :: values[u].Keys
  }

  // ---------- what a selection means ----------

  /** Stored metadata has the types its registry declares. */
  ghost predicate WellTyped(reg: Registry, values: Data) {
    forall u, f :: u in values && f in values[u] && f in reg.fields ==> TypeOk(reg.fields[f].kind, values[u][f])
  }

  function DataOf(values: Data, u: Id): map<string, Value> {
    if u in values then values[u] else map[]
  }

  ghost function Matching(reg: Registry, q: Filter, values: Data, universe: set<Id>): set<Id> {
    set u | u in universe && Holds(reg, q, DataOf(values, u))
  }

  ghost function MatchingAll(reg: Registry, cs: seq<Filter>, values: Data, universe: set<Id>): set<Id> {
    set u | u in universe && forall i :: 0 <= i < |cs| ==> Holds(reg, cs[i], DataOf(values, u))
  }

  ghost function MatchingAny(reg: Registry, cs: seq<Filter>, values: Data, universe: set<Id>): set<Id> {
    set u | u in universe && exists i :: 0 <= i < |cs| && Holds(reg, cs[i], DataOf(values, u))
  }

  lemma ChildIsChecked(reg: Registry, q: Filter, depth: nat, i: nat)
    requires CheckFilter(reg, q, depth) && (q.AllOf? || q.AnyOf?) && i < |q.conditions|
    ensures CheckFilter(reg, q.conditions[i], depth + 1)
  {
  }

  lemma MatchingAllOneMore(reg: Registry, cs: seq<Filter>, i: nat, values: Data, universe: set<Id>)
    requires i < |cs|
    ensures MatchingAll(reg, cs[..i + 1], values, universe)
      == MatchingAll(reg, cs[..i], values, universe) * Matching(reg, cs[i], values, universe)
  {
    hide Holds;
    assert cs[..i + 1] == cs[..i] + [cs[i]];
  }

  lemma MatchingAnyOneMore(reg: Registry, cs: seq<Filter>, i: nat, values: Data, universe: set<Id>)
    requires i < |cs|
    ensures MatchingAny(reg, cs[..i + 1], values, universe)
      == MatchingAny(reg, cs[..i], values, universe) + Matching(reg, cs[i], values, universe)
  {
    hide Holds;
    var before, after := cs[..i], cs[..i + 1];
    forall u | u in MatchingAny(reg, before, values, universe) ensures u in MatchingAny(reg, after, values, universe) {
      var k :| 0 <= k < |before| && Holds(reg, before[k], DataOf(values, u));
      assert after[k] == before[k];
    }
    forall u | u in Matching(reg, cs[i], values, universe) ensures u in MatchingAny(reg, after, values, universe) {
      assert after[i] == cs[i];
    }
    forall u | u in MatchingAny(reg, after, values, universe)
      ensures u in MatchingAny(reg, before, values, universe) + Matching(reg, cs[i], values, universe)
    {
      var k :| 0 <= k < |after| && Holds(reg, after[k], DataOf(values, u));
      if k < i { assert before[k] == after[k]; }
    }
  }

  lemma MatchingOfAll(reg: Registry, cs: seq<Filter>, values: Data, universe: set<Id>)
    ensures Matching(reg, AllOf(cs), values, universe) == MatchingAll(reg, cs, values, universe)
  {
  }

  lemma MatchingOfAny(reg: Registry, cs: seq<Filter>, values: Data, universe: set<Id>)
    ensures Matching(reg, AnyOf(cs), values, universe) == MatchingAny(reg, cs, values, universe)
  {
  }

  lemma NoConditions(reg: Registry, values: Data, universe: set<Id>)
    ensures MatchingAll(reg, [], values, universe) == universe && MatchingAny(reg, [], values, universe) == {}
  {
  }

  lemma InsideUniverse(reg: Registry, cs: seq<Filter>, values: Data, universe: set<Id>)
    ensures MatchingAny(reg, cs, values, universe) * universe == MatchingAny(reg, cs, values, universe)
  {
  }

  // ---------- postings against meanings ----------

  lemma PostingMeaning(postings: map<Term, set<Id>>, values: Data, f: string, k: Scalar, u: Id)
    requires Inverse(postings, TermKeys(values))
    ensures u in At(postings, Term(f, k)) <==> f in DataOf(values, u) && k in ItemsOf(DataOf(values, u)[f])
  {
  }

  lemma PresentMeaning(present: map<string, set<Id>>, values: Data, f: string, u: Id)
    requires Inverse(present, FieldKeys(values))
    ensures u in At(present, f) <==> f in DataOf(values, u)
  {
  }

  lemma ExistsMeaning(present: map<string, set<Id>>, values: Data, reg: Registry, q: Filter, universe: set<Id>)
    requires Inverse(present, FieldKeys(values)) && q.Exists?
    ensures At(present, NameOf(reg, q.field)) * universe == Matching(reg, q, values, universe)
  {
    forall u | u in universe ensures u in At(present, NameOf(reg, q.field)) <==> Holds(reg, q, DataOf(values, u)) {
      PresentMeaning(present, values, NameOf(reg, q.field), u);
    }
  }

  /** The declared type of a leaf's field holds of every stored value under it. */
  lemma LeafIsTyped(reg: Registry, values: Data, q: Filter, u: Id, kind: FieldType)
    requires Built(reg) && WellTyped(reg, values) && !q.AllOf? && !q.AnyOf?
    requires reg.Resolve(q.field).Some? && reg.Resolve(q.field).value.kind == kind
    requires NameOf(reg, q.field) in DataOf(values, u)
    ensures TypeOk(kind, DataOf(values, u)[NameOf(reg, q.field)])
  {
    ResolvesToOwnField(reg, q.field);
  }

  /** Keys looked up by `eq`, `in` and `contains_any`. */
  function KeysSought(q: Filter): (keys: seq<Scalar>)
    requires q.Eq? || q.In? || q.ContainsAny?
    ensures q.ContainsAny? ==> |keys| == |q.texts| && forall i :: 0 <= i < |keys| ==> keys[i] == Text(q.texts[i])
  {
    match q
    case Eq(_, v) => [v]
    case In(_, vs) => vs
    case ContainsAny(_, ts) => seq(|ts|, i requires 0 <= i < |ts| => Text(ts[i]))
  }

  lemma AnyHolds(reg: Registry, values: Data, q: Filter, u: Id, depth: nat)
    requires Built(reg) && WellTyped(reg, values) && CheckFilter(reg, q, depth) && (q.Eq? || q.In? || q.ContainsAny?)
    ensures
      var f, data := NameOf(reg, q.field), DataOf(values, u);
      Holds(reg, q, data) <==> f in data && exists i :: 0 <= i < |KeysSought(q)| && KeysSought(q)[i] in ItemsOf(data[f])
  {
    var f, data := NameOf(reg, q.field), DataOf(values, u);
    var keys := KeysSought(q);
    if f in data {
      LeafIsTyped(reg, values, q, u, reg.Resolve(q.field).value.kind);
      match q
      case Eq(_, v) =>
        assert keys[0] == v;
      case In(_, vs) =>
      case ContainsAny(_, ts) =>
        if Holds(reg, q, data) {
          var t :| t in ts && t in data[f].items;
          var i :| 0 <= i < |ts| && ts[i] == t;
          assert keys[i] in ItemsOf(data[f]);
        }
        if i :| 0 <= i < |keys| && keys[i] in ItemsOf(data[f]) {
          assert ts[i] in ts && ts[i] in data[f].items;
        }
    }
  }

  lemma AnyMeaning(postings: map<Term, set<Id>>, values: Data, reg: Registry, q: Filter, universe: set<Id>, depth: nat)
    requires Built(reg) && WellTyped(reg, values) && CheckFilter(reg, q, depth) && (q.Eq? || q.In? || q.ContainsAny?)
    requires Inverse(postings, TermKeys(values))
    ensures (set k, u | k in KeysSought(q) && u in At(postings, Term(NameOf(reg, q.field), k)) :: u) * universe
      == Matching(reg, q, values, universe)
  {
    hide Holds, WellTyped, CheckFilter, Inverse;
    var f, keys := NameOf(reg, q.field), KeysSought(q);
    var found := set k, u | k in keys && u in At(postings, Term(f, k)) :: u;
    forall u | u in universe ensures u in found <==> Holds(reg, q, DataOf(values, u)) {
      AnyHolds(reg, values, q, u, depth);
      forall k ensures u in At(postings, Term(f, k)) <==> f in DataOf(values, u) && k in ItemsOf(DataOf(values, u)[f]) {
        PostingMeaning(postings, values, f, k, u);
      }
      if Holds(reg, q, DataOf(values, u)) {
        var i :| 0 <= i < |keys| && keys[i] in ItemsOf(DataOf(values, u)[f]);
        assert u in At(postings, Term(f, keys[i]));
      }
      if u in found {
        var k :| k in keys && u in At(postings, Term(f, k));
        var i :| 0 <= i < |keys| && keys[i] == k;
        assert keys[i] in ItemsOf(DataOf(values, u)[f]);
      }
    }
  }

  lemma ContainsAllMeaning(present: map<string, set<Id>>, postings: map<Term, set<Id>>, values: Data, reg: Registry,
                           q: Filter, universe: set<Id>, depth: nat)
    requires Built(reg) && WellTyped(reg, values) && CheckFilter(reg, q, depth) && q.ContainsAll?
    requires Inverse(postings, TermKeys(values)) && Inverse(present, FieldKeys(values))
    ensures (set u | u in universe && u in At(present, NameOf(reg, q.field))
      && forall t :: t in q.texts ==> u in At(postings, Term(NameOf(reg, q.field), Text(t))))
         == Matching(reg, q, values, universe)
  {
    hide WellTyped, Inverse;
    var f := NameOf(reg, q.field);
    forall u | u in universe
      ensures (u in At(present, f) && forall t :: t in q.texts ==> u in At(postings, Term(f, Text(t))))
        <==> Holds(reg, q, DataOf(values, u))
    {
      PresentMeaning(present, values, f, u);
      forall t ensures u in At(postings, Term(f, Text(t)))
          <==> f in DataOf(values, u) && Text(t) in ItemsOf(DataOf(values, u)[f]) {
        PostingMeaning(postings, values, f, Text(t), u);
      }
      if f in DataOf(values, u) { LeafIsTyped(reg, values, q, u, Keywords); }
    }
  }

  // ---------- ranges ----------

  function KeysOf(postings: map<Term, set<Id>>, f: string): set<Scalar> {
    set t | t in postings && t.field == f :: t.key
  }

  lemma KeysOfField(postings: map<Term, set<Id>>, f: string)
    ensures forall k :: k in KeysOf(postings, f) <==> Term(f, k) in postings
  {
    forall k | Term(f, k) in postings ensures k in KeysOf(postings, f) {
      assert Term(f, k).key == k;
    }
  }

  lemma FreshListIsCurrent(s: seq<real>, postings: map<Term, set<Id>>, f: string)
    requires Ascending(s) && forall x :: x in s <==> Number(x) in KeysOf(postings, f)
    ensures Lists(s, postings, f)
  {
    KeysOfField(postings, f);
  }

  lemma ListIsAscending(s: seq<real>, postings: map<Term, set<Id>>, f: string)
    requires Lists(s, postings, f)
    ensures Ascending(s)
  {
  }

  function Slice(s: seq<real>, lo: nat, hi: nat): seq<real>
    requires lo <= |s| && hi <= |s|
  {
    if lo <= hi then s[lo..hi] else []
  }

  predicate InBounds(x: real, minimum: Option<real>, maximum: Option<real>) {
    (minimum.Some? ==> minimum.value <= x) && (maximum.Some? ==> x <= maximum.value)
  }

  lemma SliceIsWithin(s: seq<real>, minimum: Option<real>, maximum: Option<real>, lo: nat, hi: nat, x: real)
    requires Ascending(s)
    requires lo == if minimum.None? then 0 else BisectLeft(s, minimum.value)
    requires hi == if maximum.None? then |s| else BisectRight(s, maximum.value)
    ensures x in Slice(s, lo, hi) <==> x in s && InBounds(x, minimum, maximum)
  {
    if x in Slice(s, lo, hi) {
      var i :| 0 <= i < hi - lo && s[lo..hi][i] == x;
      assert s[lo + i] == x;
    }
    if x in s && InBounds(x, minimum, maximum) {
      var i :| 0 <= i < |s| && s[i] == x;
      assert lo <= i < hi;
      assert s[lo..hi][i - lo] == x;
    }
  }

  lemma RangeMeaning(postings: map<Term, set<Id>>, values: Data, reg: Registry, q: Filter, s: seq<real>, lo: nat,
                     hi: nat, universe: set<Id>, depth: nat)
    requires Built(reg) && WellTyped(reg, values) && CheckFilter(reg, q, depth) && q.Range?
    requires Inverse(postings, TermKeys(values)) && NoEmpty(postings) && Lists(s, postings, NameOf(reg, q.field))
    requires lo == if q.minimum.None? then 0 else BisectLeft(s, q.minimum.value)
    requires hi == if q.maximum.None? then |s| else BisectRight(s, q.maximum.value)
    ensures (set v, u | v in Slice(s, lo, hi) && u in At(postings, Term(NameOf(reg, q.field), Number(v))) ::
      u) * universe
         == Matching(reg, q, values, universe)
  {
    hide WellTyped, Inverse, BisectLeft, BisectRight, Slice;
    var f := NameOf(reg, q.field);
    var found := set v, u | v in Slice(s, lo, hi) && u in At(postings, Term(f, Number(v))) :: u;
    forall u | u in universe ensures u in found <==> Holds(reg, q, DataOf(values, u)) {
      var data := DataOf(values, u);
      forall v
        ensures u in At(postings, Term(f, Number(v))) <==> f in data && Number(v) in ItemsOf(data[f])
        ensures v in Slice(s, lo, hi) <==> v in s && InBounds(v, q.minimum, q.maximum)
      {
        PostingMeaning(postings, values, f, Number(v), u);
        SliceIsWithin(s, q.minimum, q.maximum, lo, hi, v);
      }
      if f in data {
        LeafIsTyped(reg, values, q, u, Numeric);
        var x := data[f].item.number;
        if InBounds(x, q.minimum, q.maximum) {
          assert u in At(postings, Term(f, Number(x)));
          assert x in Slice(s, lo, hi);
        }
      }
    }
  }

  // ---------- the index ----------

  function FieldTerms(f: string, v: Value): set<Term> {
    set k | k in ItemsOf(v) :: Term(f, k)
  }

  /** A cached sorted list is current: it lists exactly the numbers posted under its field. */
  ghost predicate Lists(s: seq<real>, postings: map<Term, set<Id>>, f: string) {
    Ascending(s) && forall x :: x in s <==> Term(f, Number(x)) in postings
  }

  ghost predicate AllCurrent(sorted: map<string, seq<real>>, postings: map<Term, set<Id>>) {
    forall f :: f in sorted ==> Lists(sorted[f], postings, f)
  }

  lemma SomeIn(a: seq<real>, b: seq<real>)
    requires forall x :: x in a ==> x in b
    ensures a != [] ==> b != []
  {
    if a != [] {
      var x := a[0];
      assert x in a;
    }
  }

  lemma {:induction false} SameAscending(a: seq<real>, b: seq<real>)
    requires Ascending(a) && Ascending(b) && forall x :: x in a <==> x in b
    ensures a == b
  {
    SomeIn(a, b);
    SomeIn(b, a);
    if a != [] {
      assert a[0] in b && b[0] in a;
      assert a[0] == b[0];
      forall x ensures x in a[1..] <==> x in b[1..] {
        assert x in a[1..] <==> x in a && x != a[0];
        assert x in b[1..] <==> x in b && x != b[0];
      }
      SameAscending(a[1..], b[1..]);
      assert a == [a[0]] + a[1..] && b == [b[0]] + b[1..];
    }
  }

  /** The sorted numbers of a field are determined by the postings. */
  lemma CurrentListsAgree(a: map<string, seq<real>>, b: map<string, seq<real>>, postings: map<Term, set<Id>>)
    requires AllCurrent(a, postings) && AllCurrent(b, postings)
    ensures forall f :: f in a && f in b ==> a[f] == b[f]
  {
    forall f | f in a && f in b ensures a[f] == b[f] { SameAscending(a[f], b[f]); }
  }

  /** Every cached list is dropped with the field whose postings change; the others stay current. */
  lemma CurrentAfter(sorted: map<string, seq<real>>, was: map<Term, set<Id>>, now: map<Term, set<Id>>, field: string)
    requires AllCurrent(sorted, was) && NoEmpty(was) && NoEmpty(now)
    requires forall t: Term :: t.field != field ==> At(was, t) == At(now, t)
    ensures AllCurrent(sorted - {field}, now)
  {
    forall t: Term | t.field != field ensures t in was <==> t in now {
      assert At(was, t) == At(now, t);
    }
  }

  /** Postings after the fields in `done` of one record have been changed by `f`. */
  ghost predicate Removed(was: map<Term, set<Id>>, now: map<Term, set<Id>>, data: map<string, Value>, done: set<string>,
                          uid: Id) {
    forall t: Term :: At(now, t) == if t.field in done && t in TermsOf(data) then At(was, t) - {uid} else At(was, t)
  }

  ghost predicate Posted(was: map<Term, set<Id>>, now: map<Term, set<Id>>, data: map<string, Value>, done: set<string>,
                         uid: Id) {
    forall t: Term :: At(now, t) == if t.field in done && t in TermsOf(data) then At(was, t) + {uid} else At(was, t)
  }

  ghost predicate Unfiled(was: map<string, set<Id>>, now: map<string, set<Id>>, done: set<string>, uid: Id) {
    forall f :: At(now, f) == if f in done then At(was, f) - {uid} else At(was, f)
  }

  ghost predicate Filed(was: map<string, set<Id>>, now: map<string, set<Id>>, done: set<string>, uid: Id) {
    forall f :: At(now, f) == if f in done then At(was, f) + {uid} else At(was, f)
  }

  lemma UnfiledOneMore(first: map<string, set<Id>>, was: map<string, set<Id>>, done: set<string>, field: string,
                       uid: Id)
    requires Unfiled(first, was, done, uid)
    ensures Unfiled(first, Discard(was, field, uid), done + {field}, uid)
  {
  }

  lemma FiledOneMore(first: map<string, set<Id>>, was: map<string, set<Id>>, done: set<string>, field: string, uid: Id)
    requires Filed(first, was, done, uid)
    ensures Filed(first, Add(was, field, uid), done + {field}, uid)
  {
  }

  lemma NothingRemoved(postings: map<Term, set<Id>>, data: map<string, Value>, uid: Id)
    ensures Removed(postings, postings, data, data.Keys - data.Keys, uid)
    ensures forall present: map<string, set<Id>> :: Unfiled(present, present, data.Keys - data.Keys, uid)
  {
  }

  lemma NothingPosted(postings: map<Term, set<Id>>, data: map<string, Value>, uid: Id)
    ensures Posted(postings, postings, data, data.Keys - data.Keys, uid)
    ensures forall present: map<string, set<Id>> :: Filed(present, present, data.Keys - data.Keys, uid)
  {
  }

  lemma RemovedOneMore(first: map<Term, set<Id>>, was: map<Term, set<Id>>, now: map<Term, set<Id>>,
                       data: map<string, Value>, done: set<string>, field: string, uid: Id)
    requires Removed(first, was, data, done, uid) && field in data && field !in done
    requires forall t: Term ::
      At(now, t) == if t in FieldTerms(field, data[field]) then At(was, t) - {uid} else At(was, t)
    ensures Removed(first, now, data, done + {field}, uid)
  {
    forall t: Term ensures t in FieldTerms(field, data[field]) <==> t.field == field && t in TermsOf(data) { }
  }

  lemma PostedOneMore(first: map<Term, set<Id>>, was: map<Term, set<Id>>, now: map<Term, set<Id>>,
                      data: map<string, Value>, done: set<string>, field: string, uid: Id)
    requires Posted(first, was, data, done, uid) && field in data && field !in done
    requires forall t: Term ::
      At(now, t) == if t in FieldTerms(field, data[field]) then At(was, t) + {uid} else At(was, t)
    ensures Posted(first, now, data, done + {field}, uid)
  {
    forall t: Term ensures t in FieldTerms(field, data[field]) <==> t.field == field && t in TermsOf(data) { }
  }

  lemma FieldTermsAreTheFields(field: string, v: Value)
    ensures forall t: Term :: t in FieldTerms(field, v) ==> t.field == field
  {
  }

  lemma RemovedAll(was: map<Term, set<Id>>, now: map<Term, set<Id>>, values: Data, uid: Id, data: map<string, Value>)
    requires Inverse(was, TermKeys(values)) && Removed(was, now, data, data.Keys, uid)
    requires uid in values ==> values[uid] == data
    ensures Inverse(now, TermKeys(values - {uid}))
  {
    assert forall t: Term :: t in TermsOf(data) ==> t.field in data.Keys;
    InverseAfterDrop(was, now, TermKeys(values), TermsOf(data), uid);
    assert TermKeys(values - {uid}) == TermKeys(values) - {uid};
  }

  lemma PostedAll(was: map<Term, set<Id>>, now: map<Term, set<Id>>, values: Data, uid: Id, data: map<string, Value>)
    requires Inverse(was, TermKeys(values)) && Posted(was, now, data, data.Keys, uid) && uid !in values
    ensures Inverse(now, TermKeys(values[uid := data]))
  {
    assert forall t: Term :: t in TermsOf(data) ==> t.field in data.Keys;
    InverseAfterAdd(was, now, TermKeys(values), TermsOf(data), uid);
    assert TermKeys(values[uid := data]) == TermKeys(values)[uid := TermsOf(data)];
  }

  lemma FieldsRemoved(was: map<string, set<Id>>, now: map<string, set<Id>>, values: Data, uid: Id,
                      data: map<string, Value>)
    requires Inverse(was, FieldKeys(values)) && (uid in values ==> values[uid] == data)
    requires Unfiled(was, now, data.Keys, uid)
    ensures Inverse(now, FieldKeys(values - {uid}))
  {
    InverseAfterDrop(was, now, FieldKeys(values), data.Keys, uid);
    assert FieldKeys(values - {uid}) == FieldKeys(values) - {uid};
  }

  lemma FieldsPosted(was: map<string, set<Id>>, now: map<string, set<Id>>, values: Data, uid: Id,
                     data: map<string, Value>)
    requires Inverse(was, FieldKeys(values)) && uid !in values
    requires Filed(was, now, data.Keys, uid)
    ensures Inverse(now, FieldKeys(values[uid := data]))
  {
    InverseAfterAdd(was, now, FieldKeys(values), data.Keys, uid);
    assert FieldKeys(values[uid := data]) == FieldKeys(values)[uid := data.Keys];
  }

  class MetadataIndex {
    var postings: map<Term, set<Id>>
    var present: map<string, set<Id>>
    var values: Data
    var numericSorted: map<string, seq<real>>

    ghost predicate Valid()
      reads this
    {
      && Inverse(postings, TermKeys(values)) && NoEmpty(postings)
      && Inverse(present, FieldKeys(values))
      && AllCurrent(numericSorted, postings)
    }

    constructor ()
      ensures Valid() && values == map[]
    {
      postings, present, values, numericSorted := map[], map[], map[], map[];
    }

    method Remove(uid: Id)
      requires Valid()
      modifies this
      ensures Valid() && values == old(values) - {uid}
    {
      hide Inverse, AllCurrent, Removed, FieldTerms, Unfiled;
      var previous := if uid in values then values[uid] else map[];
      ghost var before, postings0, present0 := values, postings, present;
      values := values - {uid};
      var rest := previous.Keys;
      NothingRemoved(postings, previous, uid);
      while rest != {}
        invariant rest <= previous.Keys && values == before - {uid}
        invariant Removed(postings0, postings, previous, previous.Keys - rest, uid) && NoEmpty(postings)
        invariant Unfiled(present0, present, previous.Keys - rest, uid)
        invariant AllCurrent(numericSorted, postings)
        decreases rest
      {
        var field :| field in rest;
        ghost var was, sorted := postings, numericSorted;
        numericSorted := numericSorted - {field};
        UnfiledOneMore(present0, present, previous.Keys - rest, field, uid);
        present := Discard(present, field, uid);
        postings := DropAll(postings, FieldTerms(field, previous[field]), uid);
        FieldTermsAreTheFields(field, previous[field]);
        CurrentAfter(sorted, was, postings, field);
        RemovedOneMore(postings0, was, postings, previous, previous.Keys - rest, field, uid);
        assert previous.Keys - (rest - {field}) == (previous.Keys - rest) + {field};
        rest := rest - {field};
      }
      assert previous.Keys - rest == previous.Keys;
      RemovedAll(postings0, postings, before, uid, previous);
      FieldsRemoved(present0, present, before, uid, previous);
    }

    method Upsert(uid: Id, data: map<string, Value>)
      requires Valid()
      modifies this
      ensures Valid() && values == old(values)[uid := data]
    {
      hide Inverse, AllCurrent, Posted, FieldTerms, Filed, TermKeys, FieldKeys;
      Remove(uid);
      ghost var before, postings0, present0 := values, postings, present;
      values := values[uid := data];
      var rest := data.Keys;
      NothingPosted(postings, data, uid);
      while rest != {}
        invariant rest <= data.Keys && values == before[uid := data]
        invariant Posted(postings0, postings, data, data.Keys - rest, uid) && NoEmpty(postings)
        invariant Filed(present0, present, data.Keys - rest, uid)
        invariant AllCurrent(numericSorted, postings)
        decreases rest
      {
        var field :| field in rest;
        ghost var was, sorted := postings, numericSorted;
        numericSorted := numericSorted - {field};
        FiledOneMore(present0, present, data.Keys - rest, field, uid);
        present := Add(present, field, uid);
        postings := AddAll(postings, FieldTerms(field, data[field]), uid);
        FieldTermsAreTheFields(field, data[field]);
        CurrentAfter(sorted, was, postings, field);
        PostedOneMore(postings0, was, postings, data, data.Keys - rest, field, uid);
        assert data.Keys - (rest - {field}) == (data.Keys - rest) + {field};
        rest := rest - {field};
      }
      assert data.Keys - rest == data.Keys;
      PostedAll(postings0, postings, before, uid, data);
      FieldsPosted(present0, present, before, uid, data);
    }

    /** The range branch of `_select`: fill the cache of sorted numbers if needed, bisect, and join the postings
        between. */
    method SelectRange(q: Filter, reg: Registry, universe: set<Id>, ghost depth: nat) returns (r: set<Id>)
      requires Valid() && Built(reg) && WellTyped(reg, values) && CheckFilter(reg, q, depth) && q.Range?
      modifies this`numericSorted
      ensures Valid()
      ensures r == Matching(reg, q, values, universe)
    {
      hide Inverse, Holds, CheckFilter, WellTyped, TermKeys, FieldKeys, Lists, Matching;
      var field := NameOf(reg, q.field);
      if field !in numericSorted {
        var sorted := SortNumbers(KeysOf(postings, field));
        KeysOfField(postings, field);
        numericSorted := numericSorted[field := sorted];
        FreshListIsCurrent(sorted, postings, field);
      }
      var ordered := numericSorted[field];
      ListIsAscending(ordered, postings, field);
      var lo := if q.minimum.None? then 0 else BisectLeft(ordered, q.minimum.value);
      var hi := if q.maximum.None? then |ordered| else BisectRight(ordered, q.maximum.value);
      r := (set v, u | v in Slice(ordered, lo, hi) && u in At(postings, Term(field, Number(v))) :: u) * universe;
      RangeMeaning(postings, values, reg, q, ordered, lo, hi, universe, depth);
    }

    /** The `contains_all` branch: intersect the postings, starting from the records that have the field at all. */
    method SelectContainsAll(q: Filter, reg: Registry, universe: set<Id>, ghost depth: nat) returns (r: set<Id>)
      requires Valid() && Built(reg) && WellTyped(reg, values) && CheckFilter(reg, q, depth) && q.ContainsAll?
      ensures r == Matching(reg, q, values, universe)
    {
      hide Inverse, Holds, CheckFilter, WellTyped, TermKeys, FieldKeys, Lists, Matching, AllCurrent, NoEmpty;
      var field := NameOf(reg, q.field);
      var texts := q.texts;
      r := At(present, field) * universe;
      for i := 0 to |texts|
        invariant r == set u | u in universe && u in At(present, field)
          && forall t :: t in texts[..i] ==> u in At(postings, Term(field, Text(t)))
      {
        r := r * At(postings, Term(field, Text(texts[i])));
        assert texts[..i + 1] == texts[..i] + [texts[i]];
      }
      assert texts[..|texts|] == texts;
      ContainsAllMeaning(present, postings, values, reg, q, universe, depth);
    }

    /** The `eq`, `in` and `contains_any` branches: join the postings of the keys sought. */
    method SelectKeys(q: Filter, reg: Registry, universe: set<Id>, ghost depth: nat) returns (r: set<Id>)
      requires Valid() && Built(reg) && WellTyped(reg, values) && CheckFilter(reg, q, depth)
        && (q.Eq? || q.In? || q.ContainsAny?)
      ensures r == Matching(reg, q, values, universe)
    {
      hide Inverse, Holds, CheckFilter, WellTyped, TermKeys, FieldKeys, Lists, Matching, AllCurrent, NoEmpty,
          KeysSought;
      var keys := KeysSought(q);
      var field := NameOf(reg, q.field);
      r := {};
      for i := 0 to |keys|
        invariant r == set k, u | k in keys[..i] && u in At(postings, Term(field, k)) :: u
      {
        r := r + At(postings, Term(field, keys[i]));
        assert keys[..i + 1] == keys[..i] + [keys[i]];
      }
      assert keys[..|keys|] == keys;
      r := r * universe;
      AnyMeaning(postings, values, reg, q, universe, depth);
    }

    /** `_select`: set algebra over postings; the only state it changes is the cache of sorted lists. */
    method Select(q: Filter, reg: Registry, universe: set<Id>, ghost depth: nat) returns (r: set<Id>)
      requires Valid() && Built(reg) && WellTyped(reg, values) && CheckFilter(reg, q, depth)
      modifies this`numericSorted
      ensures Valid()
      ensures r == Matching(reg, q, values, universe)
      decreases q
    {
      hide Inverse, Holds, CheckFilter, WellTyped, TermKeys, FieldKeys, Lists, Matching, MatchingAll, MatchingAny,
           AllCurrent, NoEmpty;
      match q
      case AllOf(cs) =>
        r := universe;
        NoConditions(reg, values, universe);
        for i := 0 to |cs|
          invariant Valid() && r == MatchingAll(reg, cs[..i], values, universe)
        {
          ChildIsChecked(reg, q, depth, i);
          var part := Select(cs[i], reg, universe, depth + 1);
          MatchingAllOneMore(reg, cs, i, values, universe);
          r := r * part;
        }
        assert cs[..|cs|] == cs;
        MatchingOfAll(reg, cs, values, universe);
      case AnyOf(cs) =>
        r := {};
        NoConditions(reg, values, universe);
        for i := 0 to |cs|
          invariant Valid() && r == MatchingAny(reg, cs[..i], values, universe)
        {
          ChildIsChecked(reg, q, depth, i);
          var part := Select(cs[i], reg, universe, depth + 1);
          MatchingAnyOneMore(reg, cs, i, values, universe);
          r := r + part;
        }
        assert cs[..|cs|] == cs;
        MatchingOfAny(reg, cs, values, universe);
        InsideUniverse(reg, cs, values, universe);
        r := r * universe;
      case Exists(_) =>
        r := At(present, NameOf(reg, q.field)) * universe;
        ExistsMeaning(present, values, reg, q, universe);
      case Range(_, _, _) => r := SelectRange(q, reg, universe, depth);
      case ContainsAll(_, _) => r := SelectContainsAll(q, reg, universe, depth);
      case _ => r := SelectKeys(q, reg, universe, depth);
    }

    /** `select`: a filter the registry refuses raises; any other returns exactly the ids whose metadata satisfies
        it. */
    method SelectChecked(q: Filter, reg: Registry, universe: set<Id>) returns (r: Result<set<Id>>)
      requires Valid() && Built(reg) && WellTyped(reg, values)
      modifies this`numericSorted
      ensures Valid()
      ensures r == if CheckFilter(reg, q, 0) then Ok(Matching(reg, q, values, universe)) else Err(Schema)
    {
      if !CheckFilter(reg, q, 0) { return Err(Schema); }
      var ids := Select(q, reg, universe, 0);
      r := Ok(ids);
    }
  }
}
