/** `resolve_preferences` of `memory_core/memory/preferences.py`: every matching preference is effective, in conflict,
    or overridden by a rule that outranks it. */
module Preferences {
  import opened Types
  import opened Ordering
  import opened Fields
  import opened Store
  import opened Cache

  datatype Disagreement = Disagreement(key: string, memories: seq<Memory>)

  datatype Resolution = Resolution(effective: seq<Memory>, conflicts: seq<Disagreement>)

  // ---------- what the rules say ----------

  /** Distinct preferences, each under its own id. */
  ghost predicate Matching(found: seq<Memory>) {
    && (forall i :: 0 <= i < |found| ==> found[i].content.Preference?)
    && (forall i, j :: 0 <= i < j < |found| ==> found[i].id != found[j].id)
  }

  ghost predicate SomeExplicit(found: seq<Memory>, key: string) {
    exists e :: e in found && e.content.Preference? && e.content.key == key && e.content.explicit
  }

  /** Explicit statements displace inferred ones of the same key; a dispute stays visible. */
  ghost predicate Considered(found: seq<Memory>, m: Memory) {
    && m in found && m.content.Preference?
    && (m.content.explicit || m.status == Disputed || !SomeExplicit(found, m.content.key))
  }

  ghost predicate SomeProject(found: seq<Memory>, key: string) {
    exists p :: Considered(found, p) && p.content.key == key && p.scope.ProjectScope?
  }

  /** Project rules displace global ones of the same key. */
  ghost predicate Relevant(found: seq<Memory>, m: Memory) {
    Considered(found, m) && (m.scope.ProjectScope? || !SomeProject(found, m.content.key))
  }

  ghost predicate RelevantTo(found: seq<Memory>, key: string, m: Memory) {
    Relevant(found, m) && m.content.key == key
  }

  /** Two values, or a dispute, among what is relevant to a key. */
  ghost predicate Contested(found: seq<Memory>, key: string) {
    || (exists a, b :: RelevantTo(found, key, a) && RelevantTo(found, key, b) && a.content.value != b.content.value)
    || (exists m :: RelevantTo(found, key, m) && m.status == Disputed)
  }

  ghost predicate Mentions(found: seq<Memory>, key: string) {
    exists m :: m in found && m.content.Preference? && m.content.key == key
  }

  function KeysOf(found: seq<Memory>): set<string> {
    set m | m in found && m.content.Preference? :: m.content.key
  }

  /** The response is exactly what the rules say, each conflicting key once. */
  ghost predicate Resolves(found: seq<Memory>, keys: set<string>, r: Resolution) {
    && (forall m ::
      m in r.effective <==> Relevant(found, m) && m.content.key in keys && !Contested(found, m.content.key))
    && (forall i :: 0 <= i < |r.conflicts| ==> r.conflicts[i].key in keys && Contested(found, r.conflicts[i].key))
    && (forall i, m ::
      0 <= i < |r.conflicts| ==> (m in r.conflicts[i].memories <==> RelevantTo(found, r.conflicts[i].key, m)))
    && (forall k :: k in keys && Contested(found, k) ==> exists i :: 0 <= i < |r.conflicts| && r.conflicts[i].key == k)
    && (forall i, j :: 0 <= i < j < |r.conflicts| ==> Below(r.conflicts[i].key, r.conflicts[j].key))
    && KeyOrdered(r.effective)
    && (forall i :: 0 <= i < |r.conflicts| ==> Distinct(r.conflicts[i].memories))
  }

  function KeyOf(m: Memory): string { if m.content.Preference? then m.content.key else "" }

  /** Each memory once, keys in order. */
  ghost predicate KeyOrdered(s: seq<Memory>) {
    Distinct(s) && forall i, j :: 0 <= i < j < |s| ==> KeyOf(s[i]) == KeyOf(s[j]) || Below(KeyOf(s[i]), KeyOf(s[j]))
  }

  lemma KeyOrderedConcat(a: seq<Memory>, b: seq<Memory>, k: string)
    requires KeyOrdered(a) && Distinct(b) && (forall m :: m in a ==> Below(KeyOf(m), k))
      && forall m :: m in b ==> KeyOf(m) == k
    ensures KeyOrdered(a + b)
  {
    BelowTrichotomy(k, k);
    var c := a + b;
    forall i, j | 0 <= i < j < |c|
        ensures c[i] != c[j] && (KeyOf(c[i]) == KeyOf(c[j]) || Below(KeyOf(c[i]), KeyOf(c[j]))) {
      if i < |a| { assert c[i] in a; }
      if j >= |a| { assert c[j] in b; }
      if i >= |a| { assert c[i] in b; }
    }
  }

  // ---------- the loops ----------

  function Keep(s: seq<Memory>, p: Memory -> bool): (r: seq<Memory>)
    ensures forall m :: m in r <==> m in s && p(m)
  {
    if s == [] then []
    else
      assert s == [s[0]] + s[1..];
      (if p(s[0]) then [s[0]] else []) + Keep(s[1..], p)
  }

  lemma {:induction false} KeepDistinct(s: seq<Memory>, p: Memory -> bool)
    requires Distinct(s)
    ensures Distinct(Keep(s, p))
  {
    if s != [] {
      assert s == [s[0]] + s[1..];
      KeepDistinct(s[1..], p);
      var t := Keep(s[1..], p);
      assert s[0] !in t;
      assert forall j :: 0 <= j < |t| ==> t[j] in t;
    }
  }

  lemma DistinctUnion(a: seq<Memory>, b: seq<Memory>)
    requires Distinct(a) && Distinct(b) && forall m :: m in a ==> m !in b
    ensures Distinct(a + b)
  {
    var c := a + b;
    forall i, j | 0 <= i < j < |c| ensures c[i] != c[j] {
      if i < |a| { assert c[i] in a; }
      if j >= |a| { assert c[j] in b; }
    }
  }

  ghost predicate EachOnce(groups: map<string, seq<Memory>>) {
    forall k :: k in groups ==> Distinct(groups[k])
  }

  lemma EachOnceAdd(s: seq<Memory>, groups: map<string, seq<Memory>>, m: Memory)
    requires Grouped(s, groups) && EachOnce(groups) && m !in s
    ensures EachOnce(groups[KeyOf(m) := (if KeyOf(m) in groups then groups[KeyOf(m)] else []) + [m]])
  {
    hide Mentions;
    if KeyOf(m) in groups { DistinctUnion(groups[KeyOf(m)], [m]); }
  }

  ghost predicate Grouped(s: seq<Memory>, groups: map<string, seq<Memory>>) {
    && (forall k :: k in groups <==> Mentions(s, k))
    && (forall k, m :: k in groups ==> (m in groups[k] <==> m in s && m.content.Preference? && m.content.key == k))
  }

  lemma GroupOneMore(s: seq<Memory>, groups: map<string, seq<Memory>>, m: Memory)
    requires Grouped(s, groups) && m.content.Preference?
    ensures Grouped(s + [m],
      groups[m.content.key := (if m.content.key in groups then groups[m.content.key] else []) + [m]])
  {
    var k0 := m.content.key;
    var after := groups[k0 := (if k0 in groups then groups[k0] else []) + [m]];
    forall x ensures x in s + [m] <==> x in s || x == m { }
    forall k ensures k in after <==> Mentions(s + [m], k) {
      if Mentions(s, k) {
        var x :| x in s && x.content.Preference? && x.content.key == k;
        assert x in s + [m];
      }
      if k == k0 { assert m in s + [m]; }
    }
    forall k, x | k in after ensures x in after[k] <==> x in s + [m] && x.content.Preference? && x.content.key == k {
      if k == k0 && k0 !in groups && x in s { assert !Mentions(s, k0); }
    }
  }

  /** `groups[memory.preference_key].append(memory)`. */
  method GroupByKey(found: seq<Memory>) returns (groups: map<string, seq<Memory>>)
    requires Matching(found)
    ensures Grouped(found, groups) && EachOnce(groups)
  {
    hide Grouped, EachOnce;
    groups := map[];
    NoGroups();
    for i := 0 to |found|
      invariant Grouped(found[..i], groups) && EachOnce(groups)
    {
      var k := found[i].content.key;
      assert found[..i + 1] == found[..i] + [found[i]];
      assert found[i] !in found[..i];
      EachOnceAdd(found[..i], groups, found[i]);
      GroupOneMore(found[..i], groups, found[i]);
      groups := groups[k := (if k in groups then groups[k] else []) + [found[i]]];
    }
    assert found[..|found|] == found;
  }

  lemma NoGroups()
    ensures Grouped([], map[]) && EachOnce(map[])
  {
  }

  /** The body of the loop over one key's group: the memories that remain relevant. */
  method Narrow(memories: seq<Memory>) returns (relevant: seq<Memory>)
    requires Distinct(memories) && forall m :: m in memories ==> m.content.Preference?
    ensures forall m :: m in relevant <==> m in memories && Outranks(memories, m)
    ensures Distinct(relevant)
  {
    hide Distinct;
    var considered := memories;
    var stated := Keep(memories, (m: Memory) => m.content.Preference? && m.content.explicit);
    if stated != [] {
      var disputes :=
        Keep(memories, (m: Memory) => m.content.Preference? && !m.content.explicit && m.status == Disputed);
      KeepDistinct(memories, (m: Memory) => m.content.Preference? && m.content.explicit);
      KeepDistinct(memories, (m: Memory) => m.content.Preference? && !m.content.explicit && m.status == Disputed);
      DistinctUnion(stated, disputes);
      considered := stated + disputes;
      assert stated[0] in stated;
    }
    var project := Keep(considered, (m: Memory) => m.scope.ProjectScope?);
    KeepDistinct(considered, (m: Memory) => m.scope.ProjectScope?);
    relevant := if project != [] then project else considered;
    if project != [] { assert project[0] in project; }
  }

  /** Within one key's group. */
  ghost predicate Stands(group: seq<Memory>, m: Memory) {
    && m.content.Preference?
    && (|| m.content.explicit || m.status == Disputed
        || forall e :: e in group && e.content.Preference? ==> !e.content.explicit)
  }

  ghost predicate Outranks(group: seq<Memory>, m: Memory) {
    Stands(group, m) && (m.scope.ProjectScope? || forall p :: p in group && Stands(group, p) ==> !p.scope.ProjectScope?)
  }

  /** `len(signatures) > 1 or any(disputed)`. */
  method IsContested(relevant: seq<Memory>) returns (contested: bool)
    requires forall m :: m in relevant ==> m.content.Preference?
    ensures contested <==>
      || (exists a, b ::
        a in relevant && b in relevant && a.content.Preference? && b.content.Preference?
        && a.content.value != b.content.value)
      || (exists m :: m in relevant && m.status == Disputed)
  {
    var signatures := set m | m in relevant && m.content.Preference? :: m.content.value;
    var disputed := Keep(relevant, (m: Memory) => m.status == Disputed);
    contested := |signatures| > 1 || disputed != [];
    if disputed != [] { assert disputed[0] in disputed; }
    if |signatures| > 1 {
      TwoMembers(signatures);
    } else {
      forall a, b | a in relevant && b in relevant ensures a.content.value == b.content.value {
        assert a.content.value in signatures && b.content.value in signatures;
        if a.content.value != b.content.value { AtLeastTwo(signatures, a.content.value, b.content.value); }
      }
    }
  }

  lemma TwoMembers(s: set<string>)
    requires |s| > 1
    ensures exists a, b :: a in s && b in s && a != b
  {
    var a :| a in s;
    assert |s - {a}| == |s| - 1;
    var b :| b in s - {a};
  }

  lemma AtLeastTwo(s: set<string>, a: string, b: string)
    requires a in s && b in s && a != b
    ensures |s| > 1
  {
    assert |s| == |s - {a, b}| + |{a, b}| by { assert s == (s - {a, b}) + {a, b}; }
  }

  // ---------- one group against the rules ----------

  lemma GroupIsRelevant(found: seq<Memory>, groups: map<string, seq<Memory>>, k: string, m: Memory)
    requires Grouped(found, groups) && k in groups
    ensures m in groups[k] && Outranks(groups[k], m) <==> RelevantTo(found, k, m)
  {
    StandsIsConsidered(found, groups, k);
    var g := groups[k];
    if m in g && Considered(found, m) {
      if p :| p in g && Stands(g, p) && p.scope.ProjectScope? { assert Considered(found, p); }
      if SomeProject(found, k) {
        var p :| Considered(found, p) && p.content.key == k && p.scope.ProjectScope?;
        assert p in g;
      }
    }
  }

  lemma StandsIsConsidered(found: seq<Memory>, groups: map<string, seq<Memory>>, k: string)
    requires Grouped(found, groups) && k in groups
    ensures forall m :: m in groups[k] ==> (Stands(groups[k], m) <==> Considered(found, m))
    ensures forall m :: Considered(found, m) && m.content.key == k ==> m in groups[k]
  {
    var g := groups[k];
    forall m | m in g ensures Stands(g, m) <==> Considered(found, m) {
      if SomeExplicit(found, k) {
        var e :| e in found && e.content.Preference? && e.content.key == k && e.content.explicit;
        assert e in g;
      }
    }
  }

  ghost predicate IsRelevantTo(found: seq<Memory>, k: string, relevant: seq<Memory>) {
    forall m :: m in relevant <==> RelevantTo(found, k, m)
  }

  // ---------- the outcome, key by key ----------

  lemma ResolvesOneMore(found: seq<Memory>, keys: set<string>, r: Resolution, k: string, relevant: seq<Memory>)
    requires Resolves(found, keys, r) && k !in keys && IsRelevantTo(found, k, relevant) && Distinct(relevant)
    requires forall x :: x in keys ==> Below(x, k)
    requires forall i :: 0 <= i < |r.conflicts| ==> Below(r.conflicts[i].key, k)
    ensures Resolves(found, keys + {k},
      if Contested(found, k) then r.(conflicts := r.conflicts + [Disagreement(k, relevant)])
          else r.(effective := r.effective + relevant))
  {
    hide Relevant, Contested, Distinct, KeyOrdered;
    KeysOfEffective(found, keys, r, k, relevant);
    if !Contested(found, k) {
      KeyOrderedConcat(r.effective, relevant, k);
    } else {
      var conflicts := r.conflicts + [Disagreement(k, relevant)];
      forall x | x in keys + {k} && Contested(found, x)
          ensures exists i :: 0 <= i < |conflicts| && conflicts[i].key == x {
        if x == k {
          assert conflicts[|r.conflicts|].key == k;
        } else {
          var i :| 0 <= i < |r.conflicts| && r.conflicts[i].key == x;
          assert conflicts[i].key == x;
        }
      }
    }
  }

  lemma KeysOfEffective(found: seq<Memory>, keys: set<string>, r: Resolution, k: string, relevant: seq<Memory>)
    requires Resolves(found, keys, r) && IsRelevantTo(found, k, relevant) && forall x :: x in keys ==> Below(x, k)
    ensures forall m :: m in r.effective ==> Below(KeyOf(m), k)
    ensures forall m :: m in relevant ==> KeyOf(m) == k
  {
    hide SomeExplicit, SomeProject, Contested, KeyOrdered;
  }

  /** Both loops of `resolve_preferences` over the matching payloads in id order. */
  method Resolve(found: seq<Memory>) returns (r: Resolution)
    requires Matching(found)
    ensures Resolves(found, KeysOf(found), r)
  {
    hide Grouped, EachOnce, Resolves, Outranks, RelevantTo, Contested, Distinct;
    var groups := GroupByKey(found);
    var ordered := SortNames(groups.Keys);
    r := Resolution([], []);
    NothingResolved(found);
    for n := 0 to |ordered|
      invariant Resolves(found, Names(ordered[..n]), r)
      invariant forall i :: 0 <= i < |r.conflicts| ==> r.conflicts[i].key in ordered[..n]
    {
      var k := ordered[n];
      GroupMembers(found, groups, k);
      GroupIsDistinct(groups, k);
      var relevant := Narrow(groups[k]);
      forall m ensures m in relevant <==> RelevantTo(found, k, m) { GroupIsRelevant(found, groups, k, m); }
      var contested := IsContested(relevant);
      ContestedIff(found, k, relevant);
      BeforeInOrder(ordered, n);
      ResolvesOneMore(found, Names(ordered[..n]), r, k, relevant);
      if contested {
        r := r.(conflicts := r.conflicts + [Disagreement(k, relevant)]);
      } else {
        r := r.(effective := r.effective + relevant);
      }
    }
    assert ordered[..|ordered|] == ordered;
    AllGroups(found, groups);
    assert KeysOf(found) == Names(ordered);
  }

  lemma GroupIsDistinct(groups: map<string, seq<Memory>>, k: string)
    requires EachOnce(groups) && k in groups
    ensures Distinct(groups[k])
  {
  }

  function Names(s: seq<string>): set<string> { set x | x in s }

  lemma NothingResolved(found: seq<Memory>)
    ensures Resolves(found, Names([]), Resolution([], []))
  {
    hide Relevant, Contested;
  }

  lemma AllGroups(found: seq<Memory>, groups: map<string, seq<Memory>>)
    requires Grouped(found, groups)
    ensures forall k :: k in groups <==> k in KeysOf(found)
  {
    forall k ensures Mentions(found, k) <==> k in KeysOf(found) { }
  }

  lemma GroupMembers(found: seq<Memory>, groups: map<string, seq<Memory>>, k: string)
    requires Grouped(found, groups) && k in groups
    ensures forall m :: m in groups[k] ==> m.content.Preference?
  {
  }

  lemma ContestedIff(found: seq<Memory>, k: string, relevant: seq<Memory>)
    requires IsRelevantTo(found, k, relevant)
    ensures forall m :: m in relevant ==> m.content.Preference?
    ensures Contested(found, k) <==>
      || (exists a, b ::
        a in relevant && b in relevant && a.content.Preference? && b.content.Preference?
        && a.content.value != b.content.value)
      || (exists m :: m in relevant && m.status == Disputed)
  {
    hide SomeExplicit, SomeProject;
  }

  lemma BeforeInOrder(ordered: seq<string>, n: nat)
    requires StrictlySorted(ordered) && n < |ordered|
    ensures forall x :: x in ordered[..n] ==> Below(x, ordered[n]) && x != ordered[n]
    ensures Names(ordered[..n + 1]) == Names(ordered[..n]) + {ordered[n]}
    ensures ordered[n] !in Names(ordered[..n])
    ensures forall x :: x in ordered[..n + 1] <==> x in ordered[..n] || x == ordered[n]
  {
    forall x | x in ordered[..n] ensures Below(x, ordered[n]) && x != ordered[n] {
      var i :| 0 <= i < n && ordered[..n][i] == x;
      SortedBelow(ordered, i, n);
    }
    assert ordered[..n + 1] == ordered[..n] + [ordered[n]];
  }

  // ---------- what a caller learns ----------

  /** A rule that outranks `m`: an explicit statement of the same key over an undisputed inference, or a project rule
      over a global one. */
  predicate Outranked(m: Memory, rule: Memory) {
    && m.content.Preference? && rule.content.Preference? && rule.content.key == m.content.key
    && ((rule.content.explicit && !m.content.explicit && m.status != Disputed)
        || (rule.scope.ProjectScope? && !m.scope.ProjectScope?))
  }

  lemma OmittedIsOutranked(found: seq<Memory>, m: Memory) returns (rule: Memory)
    requires m in found && m.content.Preference? && !Relevant(found, m)
    ensures Considered(found, rule) && Outranked(m, rule)
  {
    if !Considered(found, m) {
      rule :| rule in found && rule.content.Preference? && rule.content.key == m.content.key && rule.content.explicit;
    } else {
      rule :| Considered(found, rule) && rule.content.key == m.content.key && rule.scope.ProjectScope?;
    }
  }

  /** Something of every mentioned key stays relevant. */
  lemma SomethingIsRelevant(found: seq<Memory>, k: string) returns (m: Memory)
    requires k in KeysOf(found)
    ensures RelevantTo(found, k, m)
  {
    m :| m in found && m.content.Preference? && m.content.key == k;
    if SomeExplicit(found, k) {
      m :| m in found && m.content.Preference? && m.content.key == k && m.content.explicit;
    }
    assert Considered(found, m);
    if SomeProject(found, k) {
      m :| Considered(found, m) && m.content.key == k && m.scope.ProjectScope?;
    }
  }

  ghost predicate IsEffective(r: Resolution, k: string) {
    exists m :: m in r.effective && m.content.Preference? && m.content.key == k
  }

  ghost predicate InConflict(r: Resolution, k: string) {
    exists i :: 0 <= i < |r.conflicts| && r.conflicts[i].key == k
  }

  /** Every matching key is decided or disputed, never both and never neither. */
  lemma EachKeyOnce(found: seq<Memory>, r: Resolution, k: string)
    requires Resolves(found, KeysOf(found), r) && k in KeysOf(found)
    ensures IsEffective(r, k) <==> !InConflict(r, k)
  {
    hide Relevant, Contested;
    var m := SomethingIsRelevant(found, k);
    RelevantIsPreference(found, m);
    if !Contested(found, k) { assert m in r.effective; }
  }

  lemma RelevantIsPreference(found: seq<Memory>, m: Memory)
    requires Relevant(found, m)
    ensures m in found && m.content.Preference?
  {
  }

  /** What is decided carries one value per key and no dispute. */
  lemma EffectiveAgree(found: seq<Memory>, r: Resolution, a: Memory, b: Memory)
    requires Resolves(found, KeysOf(found), r) && a in r.effective && b in r.effective
    requires a.content.Preference? && b.content.Preference? && a.content.key == b.content.key
    ensures a.content.value == b.content.value && a.status != Disputed
  {
    hide Relevant;
    assert RelevantTo(found, a.content.key, a) && RelevantTo(found, a.content.key, b);
  }

  ghost predicate Shown(r: Resolution, m: Memory) {
    m in r.effective || exists i :: 0 <= i < |r.conflicts| && m in r.conflicts[i].memories
  }

  /** Complete: a matching preference that is not shown is outranked by a rule of its own key that takes part itself,
      some rule of that key is shown, and nothing outside the matches is. */
  lemma NothingIsLost(found: seq<Memory>, r: Resolution, m: Memory)
    requires Resolves(found, KeysOf(found), r)
    ensures Shown(r, m) ==> m in found
    ensures m in found && m.content.Preference? && !Shown(r, m) ==>
      && (exists rule :: Considered(found, rule) && Outranked(m, rule))
      && (exists shown :: Shown(r, shown) && shown.content.Preference? && shown.content.key == m.content.key)
  {
    hide Relevant, Contested, Outranked, Considered, Resolves, Shown;
    if m in found && m.content.Preference? && !Shown(r, m) {
      var k := m.content.key;
      assert k in KeysOf(found);
      var shown := SomethingIsRelevant(found, k);
      RelevantIsShown(found, r, shown);
      RelevantIsPreference(found, shown);
    }
    NotShownIsOutranked(found, r, m);
  }

  lemma NotShownIsOutranked(found: seq<Memory>, r: Resolution, m: Memory)
    requires Resolves(found, KeysOf(found), r)
    ensures Shown(r, m) ==> m in found
    ensures m in found && m.content.Preference? && !Shown(r, m) ==>
      exists rule :: Considered(found, rule) && Outranked(m, rule)
  {
    hide Relevant, Contested, Outranked, Considered;
    if Shown(r, m) && m !in r.effective {
      var i :| 0 <= i < |r.conflicts| && m in r.conflicts[i].memories;
      RelevantIsPreference(found, m);
    } else if m in r.effective {
      RelevantIsPreference(found, m);
    } else if Relevant(found, m) {
      RelevantIsShown(found, r, m);
    } else if m in found && m.content.Preference? {
      var rule := OmittedIsOutranked(found, m);
    }
  }

  lemma RelevantIsShown(found: seq<Memory>, r: Resolution, m: Memory)
    requires Resolves(found, KeysOf(found), r) && Relevant(found, m)
    ensures Shown(r, m)
  {
    hide Relevant, Contested;
    RelevantIsPreference(found, m);
    var k := m.content.key;
    assert k in KeysOf(found);
    if Contested(found, k) {
      var i :| 0 <= i < |r.conflicts| && r.conflicts[i].key == k;
      assert RelevantTo(found, k, m);
      assert m in r.conflicts[i].memories;
    }
  }

  /** What is shown: of one key, explicit statements and disputes and, if nothing was stated, everything; of those,
      project rules and, if there are none, everything. */
  lemma ShownMeaning(found: seq<Memory>, r: Resolution, m: Memory)
    requires Resolves(found, KeysOf(found), r) && m in found && m.content.Preference?
    ensures
      var stated := exists e ::
        e in found && e.content.Preference? && e.content.key == m.content.key && e.content.explicit;
      var local := exists p ::
        p in found && p.content.Preference? && p.content.key == m.content.key && p.scope.ProjectScope?
                            && (!stated || p.content.explicit || p.status == Disputed);
      Shown(r, m) <==>
        (!stated || m.content.explicit || m.status == Disputed) && (!local || m.scope.ProjectScope?)
  {
    hide Resolves, Shown;
    if Shown(r, m) { ShownIsRelevant(found, r, m); }
    if Relevant(found, m) { RelevantIsShown(found, r, m); }
  }

  lemma ShownIsRelevant(found: seq<Memory>, r: Resolution, m: Memory)
    requires Resolves(found, KeysOf(found), r) && Shown(r, m)
    ensures Relevant(found, m)
  {
  }

  ghost predicate ShownFor(found: seq<Memory>, r: Resolution, k: string, m: Memory) {
    m in found && m.content.Preference? && m.content.key == k && Shown(r, m)
  }

  /** A key is decided exactly when everything shown for it agrees and none of it is disputed. */
  lemma DecidedMeaning(found: seq<Memory>, r: Resolution, k: string)
    requires Resolves(found, KeysOf(found), r) && k in KeysOf(found)
    ensures IsEffective(r, k) <==>
      && (forall a, b :: ShownFor(found, r, k, a) && ShownFor(found, r, k, b) ==> a.content.value == b.content.value)
      && (forall a :: ShownFor(found, r, k, a) ==> a.status != Disputed)
  {
  }

  // ---------- the whole operation ----------

  ghost predicate Matched(c: Contents, attributes: map<string, Value>, project: Option<string>, id: Id) {
    id in c && Applies(c[id].memory, attributes) && InScope(c[id].memory, project)
  }

  /** The payloads in `found` are those of exactly the records whose condition the attributes meet, in scope. */
  ghost predicate FoundIn(c: Contents, attributes: map<string, Value>, project: Option<string>, found: seq<Memory>) {
    && Matching(found)
    && (forall m :: m in found ==> Matched(c, attributes, project, m.id) && c[m.id].memory == m)
    && (forall id :: Matched(c, attributes, project, id) ==> c[id].memory in found)
  }

  method ResolvePreferences(cache: OwnerCache, reg: Registry, rows: Contents, attributes: map<string, Value>,
                            project: Option<string>)
    returns (r: Result<Resolution>, ghost found: seq<Memory>)
    requires cache.Valid() && Backs(rows, cache.contents)
    modifies cache.memories`resident, cache.memories`order
    ensures cache.Valid()
    ensures
      match NormalizeData(reg, attributes, false)
      case Err(e) => r == Err(e)
      case Ok(data) => r.Ok? && FoundIn(cache.contents, data, project, found) && Resolves(found, KeysOf(found), r.value)
  {
    hide Matching, Resolves, KeysOf, Applies, InScope, NormalizeData, Loaded;
    hide OwnerCache.Valid;
    found := [];
    var data := Normalize(reg, attributes, false);
    if data.Err? { return Err(data.error), []; }
    var ids := cache.MatchingPreferences(data.value, project);
    var ordered := SortNames(ids);
    var memories := Load(cache, rows, ordered);
    ServedContents(cache);
    LoadedAreFound(cache.contents, data.value, project, ids, ordered, memories);
    found := memories;
    var resolution := Resolve(memories);
    r := Ok(resolution);
  }

  lemma ServedContents(cache: OwnerCache)
    requires cache.Valid()
    ensures Served(cache.contents)
  {
  }

  /** The payloads of these ids, in order. */
  ghost predicate Loaded(c: Contents, ids: seq<Id>, memories: seq<Memory>) {
    |memories| == |ids| && forall i :: 0 <= i < |ids| ==> ids[i] in c && memories[i] == c[ids[i]].memory
  }

  /** `cache.memories[uid]` for each id in order. */
  method Load(cache: OwnerCache, rows: Contents, ids: seq<Id>) returns (memories: seq<Memory>)
    requires cache.Valid() && Backs(rows, cache.contents)
    requires forall id :: id in ids ==> id in cache.contents
    modifies cache.memories`resident, cache.memories`order
    ensures cache.Valid() && Loaded(cache.contents, ids, memories)
  {
    hide OwnerCache.Valid;
    memories := [];
    for i := 0 to |ids|
      invariant cache.Valid() && Loaded(cache.contents, ids[..i], memories)
    {
      var memory := cache.Recall(ids[i], rows);
      memories := memories + [memory];
    }
    assert ids[..|ids|] == ids;
  }

  lemma LoadedAreFound(c: Contents, attributes: map<string, Value>, project: Option<string>, ids: set<Id>,
                       ordered: seq<Id>, memories: seq<Memory>)
    requires Served(c) && ids == set id | id in c && Applies(c[id].memory, attributes) && InScope(c[id].memory, project)
    requires StrictlySorted(ordered) && forall x :: x in ordered <==> x in ids
    requires Loaded(c, ordered, memories)
    ensures FoundIn(c, attributes, project, memories)
  {
    hide InScope;
    forall i, j | 0 <= i < j < |memories| ensures memories[i].id != memories[j].id {
      SortedBelow(ordered, i, j);
    }
    forall i | 0 <= i < |memories| ensures memories[i].content.Preference? { assert ordered[i] in ids; }
    forall id | Matched(c, attributes, project, id) ensures c[id].memory in memories {
      assert id in ordered;
      var i :| 0 <= i < |ordered| && ordered[i] == id;
      assert memories[i] == c[id].memory;
    }
    forall m | m in memories ensures Matched(c, attributes, project, m.id) && c[m.id].memory == m {
      var i :| 0 <= i < |memories| && memories[i] == m;
      assert ordered[i] in ids;
    }
  }
}
