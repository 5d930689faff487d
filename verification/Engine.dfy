/** `MemoryEngine` of `src/lib.rs`: dense storage with swap-removal under three posting indexes, and the ranked search
    over one user's traces. */
module Engine {
  import opened Types
  import opened Ordering
  import opened Postings
  import opened Rankings
  import Scores
  import Search

  datatype Trace = Trace(uid: Id, user: string, summary: string, importance: real, createdAt: int, accesses: nat,
    tags: seq<string>)

  // ---------- tokens ----------

  /** Length of the alphanumeric run the text begins with. */
  function RunLength(text: string, alphanumeric: char -> bool): (n: nat)
    ensures n <= |text| && (forall i :: 0 <= i < n ==> alphanumeric(text[i])) && (n < |text| ==> !alphanumeric(text[n]))
  {
    if text == "" || !alphanumeric(text[0]) then 0
    else
      assert forall i :: 0 < i < |text| ==> text[i] == text[1..][i - 1];
      1 + RunLength(text[1..], alphanumeric)
  }

  function Lowered(text: string, lower: char -> string): string {
    if text == "" then "" else Lowered(text[..|text| - 1], lower) + lower(text[|text| - 1])
  }

  /** The maximal alphanumeric runs of a text, lowered, in order. */
  function Tokens(text: string, alphanumeric: char -> bool, lower: char -> string): seq<string>
    decreases |text|
  {
    var n := RunLength(text, alphanumeric);
    if text == "" then []
    else if n == 0 then Tokens(text[1..], alphanumeric, lower)
    else [Lowered(text[..n], lower)] + Tokens(text[n..], alphanumeric, lower)
  }

  lemma MaximalRun(text: string, alphanumeric: char -> bool, n: nat)
    requires n <= |text| && (forall i :: 0 <= i < n ==> alphanumeric(text[i]))
      && (n < |text| ==> !alphanumeric(text[n]))
    ensures RunLength(text, alphanumeric) == n
  {
    var m := RunLength(text, alphanumeric);
  }

  /** `tokenize`: one pass over the characters finds exactly the maximal alphanumeric runs. */
  method Tokenize(text: string, alphanumeric: char -> bool, lower: char -> string) returns (tokens: seq<string>)
    requires forall c :: alphanumeric(c) ==> lower(c) != ""
    ensures tokens == Tokens(text, alphanumeric, lower)
  {
    hide Tokens, Lowered, RunLength;
    tokens := [];
    var current := "";
    ghost var start := 0;
    NoLetters(lower);
    assert text[0..] == text && text[0..0] == "";
    for i := 0 to |text|
      invariant start <= i && (forall k :: start <= k < i ==> alphanumeric(text[k]))
      invariant current == Lowered(text[start..i], lower) && (current != "" <==> start < i)
      invariant Tokens(text, alphanumeric, lower) == tokens + Tokens(text[start..], alphanumeric, lower)
    {
      if alphanumeric(text[i]) {
        OneMoreLetter(text, lower, start, i);
        assert lower(text[i]) != "";
        current := current + lower(text[i]);
      } else {
        RunEnds(text, alphanumeric, lower, start, i);
        if current != "" { tokens, current := tokens + [current], ""; }
        start := i + 1;
        assert text[i + 1..i + 1] == "";
      }
    }
    assert text[start..|text|] == text[start..];
    NoTokens(alphanumeric, lower);
    if current != "" {
      LastRun(text, alphanumeric, lower, start);
      tokens := tokens + [current];
    }
  }

  lemma NoLetters(lower: char -> string)
    ensures Lowered("", lower) == ""
  {
  }

  lemma NoTokens(alphanumeric: char -> bool, lower: char -> string)
    ensures Tokens("", alphanumeric, lower) == []
  {
  }

  lemma OneMoreLetter(text: string, lower: char -> string, start: nat, i: nat)
    requires start <= i < |text|
    ensures Lowered(text[start..i + 1], lower) == Lowered(text[start..i], lower) + lower(text[i])
  {
    assert text[start..i + 1][..i - start] == text[start..i] && text[start..i + 1][i - start] == text[i];
  }

  lemma RunEnds(text: string, alphanumeric: char -> bool, lower: char -> string, start: nat, i: nat)
    requires start <= i < |text| && (forall k :: start <= k < i ==> alphanumeric(text[k])) && !alphanumeric(text[i])
    ensures Tokens(text[start..], alphanumeric, lower)
         == (if start < i then [Lowered(text[start..i], lower)] else []) + Tokens(text[i + 1..], alphanumeric, lower)
  {
    var rest := text[start..];
    MaximalRun(rest, alphanumeric, i - start);
    assert rest[..i - start] == text[start..i] && rest[i - start..] == text[i..];
    MaximalRun(text[i..], alphanumeric, 0);
    assert text[i..][1..] == text[i + 1..];
  }

  lemma LastRun(text: string, alphanumeric: char -> bool, lower: char -> string, start: nat)
    requires start < |text| && forall k :: start <= k < |text| ==> alphanumeric(text[k])
    ensures Tokens(text[start..], alphanumeric, lower) == [Lowered(text[start..], lower)]
  {
    var rest := text[start..];
    MaximalRun(rest, alphanumeric, |rest|);
    assert rest[..|rest|] == rest && rest[|rest|..] == "";
  }

  function Joined(tokens: seq<string>): string {
    if tokens == [] then "" else tokens[0] + Joined(tokens[1..])
  }

  /** The letters and digits of a text, lowered, in order. */
  function Letters(text: string, alphanumeric: char -> bool, lower: char -> string): string {
    if text == "" then ""
    else (if alphanumeric(text[0]) then lower(text[0]) else "") + Letters(text[1..], alphanumeric, lower)
  }

  /** How many runs begin in a text that goes on after a letter (`inside`) or not. */
  function Beginnings(text: string, alphanumeric: char -> bool, inside: bool): nat {
    if text == "" then 0
    else
      (if alphanumeric(text[0]) && !inside then 1 else 0) + Beginnings(text[1..], alphanumeric, alphanumeric(text[0]))
  }

  /** No letter is lost, added or moved, and there is one token for each place where a letter follows none. */
  lemma {:induction false} TokensKeepLetters(text: string, alphanumeric: char -> bool, lower: char -> string)
    ensures Joined(Tokens(text, alphanumeric, lower)) == Letters(text, alphanumeric, lower)
    ensures |Tokens(text, alphanumeric, lower)| == Beginnings(text, alphanumeric, false)
    decreases |text|
  {
    if text != "" {
      var n := RunLength(text, alphanumeric);
      if n == 0 {
        TokensKeepLetters(text[1..], alphanumeric, lower);
      } else {
        TokensKeepLetters(text[n..], alphanumeric, lower);
        RunLetters(text, alphanumeric, lower, n);
        RunBeginnings(text, alphanumeric, n);
        var rest := Tokens(text[n..], alphanumeric, lower);
        assert ([Lowered(text[..n], lower)] + rest)[1..] == rest;
      }
    }
  }

  lemma {:induction false} RunLetters(text: string, alphanumeric: char -> bool, lower: char -> string, n: nat)
    requires n <= |text| && forall i :: 0 <= i < n ==> alphanumeric(text[i])
    ensures Letters(text, alphanumeric, lower) == Lowered(text[..n], lower) + Letters(text[n..], alphanumeric, lower)
  {
    if n == 0 {
      assert text[0..] == text;
    } else {
      RunLetters(text, alphanumeric, lower, n - 1);
      assert text[n - 1..][1..] == text[n..] && text[..n][..n - 1] == text[..n - 1];
    }
  }

  lemma {:induction false} RunBeginnings(text: string, alphanumeric: char -> bool, n: nat)
    requires 0 < n <= |text| && (forall i :: 0 <= i < n ==> alphanumeric(text[i]))
      && (n < |text| ==> !alphanumeric(text[n]))
    ensures Beginnings(text, alphanumeric, false) == 1 + Beginnings(text[n..], alphanumeric, false)
    ensures Beginnings(text, alphanumeric, true) == Beginnings(text[n..], alphanumeric, false)
  {
    if n > 1 {
      RunBeginnings(text[1..], alphanumeric, n - 1);
      assert text[1..][n - 1..] == text[n..];
    }
  }

  // ---------- what the indexes mean ----------

  type Slots = map<string, set<nat>>

  function Users(t: Trace): set<string> { {t.user} }

  function Tags(normalize: string -> string): Trace -> set<string> {
    (t: Trace) => set tag | tag in t.tags :: normalize(tag)
  }

  function Keywords(words: string -> set<string>): Trace -> set<string> {
    (t: Trace) => words(t.summary)
  }

  /** What each linked slot is filed under. */
  ghost function Filed(traces: seq<Trace>, slots: set<nat>, keys: Trace -> set<string>): map<nat, set<string>> {
    map i | i in slots && i < |traces| :: keys(traces[i])
  }

  ghost predicate Indexes(index: Slots, traces: seq<Trace>, slots: set<nat>, keys: Trace -> set<string>) {
    Inverse(index, Filed(traces, slots, keys)) && NoEmpty(index)
  }

  lemma Linked(index: Slots, after: Slots, traces: seq<Trace>, slots: set<nat>, keys: Trace -> set<string>, slot: nat)
    requires Indexes(index, traces, slots, keys) && slot < |traces| && slot !in slots && NoEmpty(after)
    requires forall k :: At(after, k) == if k in keys(traces[slot]) then At(index, k) + {slot} else At(index, k)
    ensures Indexes(after, traces, slots + {slot}, keys)
  {
    assert Filed(traces, slots + {slot}, keys) == Filed(traces, slots, keys)[slot := keys(traces[slot])];
    InverseAfterAdd(index, after, Filed(traces, slots, keys), keys(traces[slot]), slot);
  }

  lemma Unlinked(index: Slots, after: Slots, traces: seq<Trace>, slots: set<nat>, keys: Trace -> set<string>, slot: nat)
    requires Indexes(index, traces, slots, keys) && slot < |traces| && slot in slots && NoEmpty(after)
    requires forall k :: At(after, k) == if k in keys(traces[slot]) then At(index, k) - {slot} else At(index, k)
    ensures Indexes(after, traces, slots - {slot}, keys)
  {
    assert Filed(traces, slots - {slot}, keys) == Filed(traces, slots, keys) - {slot};
    InverseAfterDrop(index, after, Filed(traces, slots, keys), keys(traces[slot]), slot);
  }

  /** Storage may change freely at slots that are not linked. */
  lemma StillIndexes(index: Slots, traces: seq<Trace>, slots: set<nat>, keys: Trace -> set<string>, after: seq<Trace>,
                     kept: set<nat>)
    requires Indexes(index, traces, slots, keys)
    requires forall i :: i in slots && i < |traces| <==> i in kept && i < |after|
    requires forall i :: i in kept && i < |after| ==> after[i] == traces[i]
    ensures Indexes(index, after, kept, keys)
  {
    assert Filed(after, kept, keys) == Filed(traces, slots, keys);
  }

  ghost function AllSlots(n: nat): (slots: set<nat>)
    ensures forall i: nat :: i in slots <==> i < n
  {
    if n == 0 then {} else AllSlots(n - 1) + {n - 1}
  }

  /** All three indexes are exact for the given slots. */
  ghost predicate AllIndex(users: Slots, tags: Slots, keywords: Slots, normalize: string -> string,
                           words: string -> set<string>, traces: seq<Trace>, slots: set<nat>) {
    && Indexes(users, traces, slots, Users)
    && Indexes(tags, traces, slots, Tags(normalize))
    && Indexes(keywords, traces, slots, Keywords(words))
  }

  /** Uids and slots are in one-to-one correspondence. */
  ghost predicate Located(traces: seq<Trace>, slotOf: map<Id, nat>) {
    && (forall uid :: uid in slotOf ==> slotOf[uid] < |traces| && traces[slotOf[uid]].uid == uid)
    && (forall i :: 0 <= i < |traces| ==> traces[i].uid in slotOf && slotOf[traces[i].uid] == i)
  }

  /** The collection an engine holds, whatever the layout. */
  ghost function ViewOf(traces: seq<Trace>, embeddings: seq<Vector>, slotOf: map<Id, nat>): map<Id, (Trace, Vector)> {
    map uid | uid in slotOf && slotOf[uid] < |traces| && slotOf[uid] < |embeddings| ::
      (traces[slotOf[uid]], embeddings[slotOf[uid]])
  }

  /** One dimension throughout, and importance within [0, 1]. */
  ghost predicate Shaped(traces: seq<Trace>, embeddings: seq<Vector>, dim: Option<nat>) {
    && |traces| == |embeddings|
    && (forall i :: 0 <= i < |embeddings| ==> dim == Some(|embeddings[i]|) && embeddings[i] != [])
    && (forall i :: 0 <= i < |traces| ==> 0.0 <= traces[i].importance <= 1.0)
  }

  class MemoryEngine {
    const normalize: string -> string
    const words: string -> set<string>
    var traces: seq<Trace>
    var embeddings: seq<Vector>
    var slotOf: map<Id, nat>
    var userIndex: Slots
    var tagIndex: Slots
    var keywordIndex: Slots
    var dim: Option<nat>

    ghost predicate LinkedAt(slots: set<nat>)
      reads this`traces, this`userIndex, this`tagIndex, this`keywordIndex
    {
      AllIndex(userIndex, tagIndex, keywordIndex, normalize, words, traces, slots)
    }

    ghost predicate Valid()
      reads this
    {
      Shaped(traces, embeddings, dim) && Located(traces, slotOf) && LinkedAt(AllSlots(|traces|))
    }

    ghost function View(): map<Id, (Trace, Vector)>
      reads this
    {
      ViewOf(traces, embeddings, slotOf)
    }

    constructor (normalize: string -> string, words: string -> set<string>)
      ensures Valid() && View() == map[] && dim == None
      ensures this.normalize == normalize && this.words == words
    {
      this.normalize, this.words := normalize, words;
      traces, embeddings, slotOf := [], [], map[];
      userIndex, tagIndex, keywordIndex, dim := map[], map[], map[], None;
    }

    method Link(slot: nat, ghost slots: set<nat>)
      requires slot < |traces| && slot !in slots && LinkedAt(slots)
      modifies this`userIndex, this`tagIndex, this`keywordIndex
      ensures LinkedAt(slots + {slot})
    {
      hide Inverse, At, NoEmpty, Filed;
      var trace := traces[slot];
      ghost var users, tags, keywords := userIndex, tagIndex, keywordIndex;
      userIndex := Add(userIndex, trace.user, slot);
      tagIndex := AddAll(tagIndex, Tags(normalize)(trace), slot);
      keywordIndex := AddAll(keywordIndex, Keywords(words)(trace), slot);
      Linked(users, userIndex, traces, slots, Users, slot);
      Linked(tags, tagIndex, traces, slots, Tags(normalize), slot);
      Linked(keywords, keywordIndex, traces, slots, Keywords(words), slot);
    }

    method Unlink(slot: nat, ghost slots: set<nat>)
      requires slot < |traces| && slot in slots && LinkedAt(slots)
      modifies this`userIndex, this`tagIndex, this`keywordIndex
      ensures LinkedAt(slots - {slot})
    {
      hide Inverse, At, NoEmpty, Filed;
      var trace := traces[slot];
      ghost var users, tags, keywords := userIndex, tagIndex, keywordIndex;
      userIndex := Drop(userIndex, trace.user, slot);
      tagIndex := DropAll(tagIndex, Tags(normalize)(trace), slot);
      keywordIndex := DropAll(keywordIndex, Keywords(words)(trace), slot);
      Unlinked(users, userIndex, traces, slots, Users, slot);
      Unlinked(tags, tagIndex, traces, slots, Tags(normalize), slot);
      Unlinked(keywords, keywordIndex, traces, slots, Keywords(words), slot);
    }

    /** `ingest_trace`: a rejected trace changes nothing; an accepted one replaces or joins the collection. */
    method Ingest(trace: Trace, embedding: Vector) returns (ok: bool)
      requires Valid()
      modifies this
      ensures Valid()
      ensures ok <==>
        && embedding != [] && (old(dim).Some? ==> old(dim).value == |embedding|)
        && 0.0 <= trace.importance <= 1.0
      ensures !ok ==> unchanged(this)
      ensures ok ==> View() == old(View())[trace.uid := (trace, embedding)] && dim == Some(|embedding|)
    {
      hide AllIndex, AllSlots, Located, Shaped, ViewOf;
      if embedding == [] { return false; }
      if dim.Some? && dim.value != |embedding| { return false; }
      if !(0.0 <= trace.importance <= 1.0) { return false; }
      ShapeFits(traces, embeddings, dim, |embedding|);
      if dim.None? { dim := Some(|embedding|); }
      if trace.uid in slotOf { Replace(trace, embedding); } else { Append(trace, embedding); }
      ok := true;
    }

    /** A known uid: unlink the slot, overwrite it, link it again. */
    method Replace(trace: Trace, embedding: Vector)
      requires Valid() && trace.uid in slotOf && dim == Some(|embedding|) && embedding != []
        && 0.0 <= trace.importance <= 1.0
      modifies this`traces, this`embeddings, this`userIndex, this`tagIndex, this`keywordIndex
      ensures Valid() && View() == old(View())[trace.uid := (trace, embedding)]
    {
      hide AllIndex, AllSlots, Located, Shaped, ViewOf;
      var slot := slotOf[trace.uid];
      SlotOfUid(traces, slotOf, trace.uid);
      ReplacedShape(traces, embeddings, dim, slotOf, slot, trace, embedding);
      Unlink(slot, AllSlots(|traces|));
      ghost var rest := AllSlots(|traces|) - {slot};
      Relink(userIndex, tagIndex, keywordIndex, normalize, words, traces, rest, traces[slot := trace], rest);
      traces := traces[slot := trace];
      embeddings := embeddings[slot := embedding];
      Link(slot, rest);
      assert rest + {slot} == AllSlots(|traces|);
    }

    /** A new uid: a new last slot. */
    method Append(trace: Trace, embedding: Vector)
      requires Valid() && trace.uid !in slotOf && dim == Some(|embedding|) && embedding != []
        && 0.0 <= trace.importance <= 1.0
      modifies this`traces, this`embeddings, this`slotOf, this`userIndex, this`tagIndex, this`keywordIndex
      ensures Valid() && View() == old(View())[trace.uid := (trace, embedding)]
    {
      hide AllIndex, AllSlots, Located, Shaped, ViewOf;
      var slot := |traces|;
      AddedShape(traces, embeddings, dim, slotOf, trace, embedding);
      Relink(userIndex, tagIndex, keywordIndex, normalize, words, traces, AllSlots(slot), traces + [trace],
        AllSlots(slot));
      slotOf := slotOf[trace.uid := slot];
      traces := traces + [trace];
      embeddings := embeddings + [embedding];
      Link(slot, AllSlots(slot));
      assert AllSlots(slot) + {slot} == AllSlots(|traces|);
    }

    /** `mark_accessed`: the count saturates at the 32-bit maximum; nothing else changes. */
    method MarkAccessed(uid: Id) returns (known: bool)
      requires Valid()
      modifies this`traces
      ensures Valid() && known == (uid in old(View())) && View().Keys == old(View()).Keys
      ensures known ==> View() == old(View())[uid := (Touched(old(View())[uid].0), old(View())[uid].1)]
      ensures known ==>
        var x, y := old(View())[uid], View()[uid];
        && y == (x.0.(accesses := y.0.accesses), x.1)
        && y.0.accesses == if x.0.accesses >= 4294967295 then x.0.accesses else x.0.accesses + 1
      ensures !known ==> View() == old(View())
    {
      hide AllIndex, AllSlots, Located, Shaped, ViewOf;
      UidsOfView(traces, embeddings, slotOf, dim);
      if uid !in slotOf { return false; }
      var slot := slotOf[uid];
      SlotOfUid(traces, slotOf, uid);
      TouchKeeps(traces, embeddings, dim, slotOf, slot);
      TouchRelinks(userIndex, tagIndex, keywordIndex, normalize, words, traces, slot);
      traces := traces[slot := Touched(traces[slot])];
      known := true;
    }

    /** `remove_trace`: swap-removal, with the moved entry posted again at its new slot. */
    method RemoveTrace(uid: Id) returns (known: bool)
      requires Valid()
      modifies this
      ensures Valid() && known == (uid in old(View())) && View() == old(View()) - {uid} && dim == old(dim)
    {
      hide AllIndex, AllSlots, Located, Shaped, ViewOf;
      UidsOfView(traces, embeddings, slotOf, dim);
      if uid !in slotOf {
        NotInView(traces, embeddings, slotOf, uid);
        return false;
      }
      var slot := slotOf[uid];
      SlotOfUid(traces, slotOf, uid);
      ghost var before, e0, slots0 := traces, embeddings, slotOf;
      SameLength(traces, embeddings, dim);
      var last := |traces| - 1;
      slotOf := slotOf - {uid};
      Unlink(slot, AllSlots(|traces|));
      ghost var rest := AllSlots(|traces|) - {slot};
      if slot != last {
        Unlink(last, rest);
        rest := rest - {last};
      }
      ghost var after := SwapRemoved(traces, slot);
      Relink(userIndex, tagIndex, keywordIndex, normalize, words, traces, rest, after, rest);
      traces := traces[slot := traces[last]][..last];
      embeddings := embeddings[slot := embeddings[last]][..last];
      if slot != last {
        slotOf := slotOf[traces[slot].uid := slot];
        Link(slot, rest);
        assert rest + {slot} == AllSlots(|traces|);
      } else {
        assert rest == AllSlots(|traces|);
      }
      RemovedShape(before, e0, dim, slots0, slot, uid);
      known := true;
    }
  }

  function Touched(t: Trace): Trace {
    t.(accesses := if t.accesses < 0xFFFF_FFFF then t.accesses + 1 else t.accesses)
  }

  function SwapRemoved<T>(s: seq<T>, slot: nat): seq<T>
    requires slot < |s|
  {
    s[slot := s[|s| - 1]][..|s| - 1]
  }

  /** The slot map after a swap-removal. */
  ghost function MovedSlots(traces: seq<Trace>, slotOf: map<Id, nat>, slot: nat, uid: Id): map<Id, nat>
    requires slot < |traces|
  {
    if slot == |traces| - 1 then slotOf - {uid} else (slotOf - {uid})[traces[|traces| - 1].uid := slot]
  }

  lemma SlotOfUid(traces: seq<Trace>, slotOf: map<Id, nat>, uid: Id)
    requires Located(traces, slotOf) && uid in slotOf
    ensures slotOf[uid] < |traces| && traces[slotOf[uid]].uid == uid
  {
  }

  lemma SameLength(traces: seq<Trace>, embeddings: seq<Vector>, dim: Option<nat>)
    requires Shaped(traces, embeddings, dim)
    ensures |traces| == |embeddings|
  {
  }

  lemma UidsOfView(traces: seq<Trace>, embeddings: seq<Vector>, slotOf: map<Id, nat>, dim: Option<nat>)
    requires Shaped(traces, embeddings, dim) && Located(traces, slotOf)
    ensures ViewOf(traces, embeddings, slotOf).Keys == slotOf.Keys
  {
  }

  lemma NotInView(traces: seq<Trace>, embeddings: seq<Vector>, slotOf: map<Id, nat>, uid: Id)
    requires uid !in slotOf
    ensures ViewOf(traces, embeddings, slotOf) - {uid} == ViewOf(traces, embeddings, slotOf)
  {
  }

  lemma ShapeFits(traces: seq<Trace>, embeddings: seq<Vector>, dim: Option<nat>, n: nat)
    requires Shaped(traces, embeddings, dim) && (dim.Some? ==> dim.value == n)
    ensures Shaped(traces, embeddings, Some(n)) && |traces| == |embeddings|
  {
  }

  lemma ReplacedShape(traces: seq<Trace>, embeddings: seq<Vector>, dim: Option<nat>, slotOf: map<Id, nat>, slot: nat,
                      t: Trace, v: Vector)
    requires Shaped(traces, embeddings, dim) && Located(traces, slotOf) && t.uid in slotOf && slotOf[t.uid] == slot
    requires dim == Some(|v|) && v != [] && 0.0 <= t.importance <= 1.0
    ensures slot < |traces| && slot < |embeddings|
    ensures Shaped(traces[slot := t], embeddings[slot := v], dim) && Located(traces[slot := t], slotOf)
    ensures ViewOf(traces[slot := t], embeddings[slot := v], slotOf)
      == ViewOf(traces, embeddings, slotOf)[t.uid := (t, v)]
  {
  }

  lemma AddedShape(traces: seq<Trace>, embeddings: seq<Vector>, dim: Option<nat>, slotOf: map<Id, nat>, t: Trace,
                   v: Vector)
    requires Shaped(traces, embeddings, dim) && Located(traces, slotOf) && t.uid !in slotOf
    requires dim == Some(|v|) && v != [] && 0.0 <= t.importance <= 1.0
    ensures Shaped(traces + [t], embeddings + [v], dim) && Located(traces + [t], slotOf[t.uid := |traces|])
    ensures ViewOf(traces + [t], embeddings + [v], slotOf[t.uid := |traces|])
      == ViewOf(traces, embeddings, slotOf)[t.uid := (t, v)]
  {
  }

  lemma TouchKeeps(traces: seq<Trace>, embeddings: seq<Vector>, dim: Option<nat>, slotOf: map<Id, nat>, slot: nat)
    requires Shaped(traces, embeddings, dim) && Located(traces, slotOf) && slot < |traces|
    ensures Shaped(traces[slot := Touched(traces[slot])], embeddings, dim)
      && Located(traces[slot := Touched(traces[slot])], slotOf)
    ensures
      var uid := traces[slot].uid;
      && uid in slotOf && slotOf[uid] == slot && uid in ViewOf(traces, embeddings, slotOf)
      && ViewOf(traces[slot := Touched(traces[slot])], embeddings, slotOf)
      == ViewOf(traces, embeddings, slotOf)[uid :=
        (Touched(ViewOf(traces, embeddings, slotOf)[uid].0), ViewOf(traces, embeddings, slotOf)[uid].1)]
  {
  }

  lemma RemovedShape(traces: seq<Trace>, embeddings: seq<Vector>, dim: Option<nat>, slotOf: map<Id, nat>, slot: nat,
                     uid: Id)
    requires Shaped(traces, embeddings, dim) && Located(traces, slotOf) && uid in slotOf && slotOf[uid] == slot
    ensures slot < |traces| && slot < |embeddings|
    ensures Shaped(SwapRemoved(traces, slot), SwapRemoved(embeddings, slot), dim)
    ensures Located(SwapRemoved(traces, slot), MovedSlots(traces, slotOf, slot, uid))
    ensures ViewOf(SwapRemoved(traces, slot), SwapRemoved(embeddings, slot), MovedSlots(traces, slotOf, slot, uid))
         == ViewOf(traces, embeddings, slotOf) - {uid}
  {
  }

  /** Storage changes only at slots no index mentions. */
  lemma Relink(users: Slots, tags: Slots, keywords: Slots, normalize: string -> string, words: string -> set<string>,
               traces: seq<Trace>, slots: set<nat>, after: seq<Trace>, kept: set<nat>)
    requires AllIndex(users, tags, keywords, normalize, words, traces, slots)
    requires forall i :: i in slots && i < |traces| <==> i in kept && i < |after|
    requires forall i :: i in kept && i < |after| ==> after[i] == traces[i]
    ensures AllIndex(users, tags, keywords, normalize, words, after, kept)
  {
    hide Indexes;
    StillIndexes(users, traces, slots, Users, after, kept);
    StillIndexes(tags, traces, slots, Tags(normalize), after, kept);
    StillIndexes(keywords, traces, slots, Keywords(words), after, kept);
  }

  /** An access count is in no index. */
  lemma TouchRelinks(users: Slots, tags: Slots, keywords: Slots, normalize: string -> string,
                     words: string -> set<string>, traces: seq<Trace>, slot: nat)
    requires slot < |traces|
    requires AllIndex(users, tags, keywords, normalize, words, traces, AllSlots(|traces|))
    ensures AllIndex(users, tags, keywords, normalize, words, traces[slot := Touched(traces[slot])], AllSlots(|traces|))
  {
    hide Inverse, NoEmpty, AllSlots;
    var after := traces[slot := Touched(traces[slot])];
    var all := AllSlots(|traces|);
    SameKeys(traces, after, all, Users);
    SameKeys(traces, after, all, Tags(normalize));
    SameKeys(traces, after, all, Keywords(words));
  }

  lemma SameKeys(traces: seq<Trace>, after: seq<Trace>, slots: set<nat>, keys: Trace -> set<string>)
    requires |after| == |traces| && forall i :: 0 <= i < |traces| ==> keys(after[i]) == keys(traces[i])
    ensures Filed(after, slots, keys) == Filed(traces, slots, keys)
  {
  }

  // ---------- search ----------

  /** A rating of one trace against a query; where it is defined does not depend on the trace. */
  type Rating = (Trace, Vector) --> Score

  ghost predicate Rates(rate: Rating) {
    forall t, v :: rate.requires(t, v)
  }

  /** The configured weights, with the functions the reals leave open. */
  datatype Scoring = Scoring(weights: Scores.Weights, root: real -> real, decay: real -> real, log: nat -> real)

  ghost predicate SoundScoring(s: Scoring) {
    Scores.Weighted(s.weights) && Scores.IsRoot(s.root) && Scores.Decay(s.decay) && Scores.Logarithm(s.log)
  }

  /** The score of one trace: its cosine to the query, importance, age and accesses, weighted. */
  function RatingBy(s: Scoring, query: Vector, now: int): Rating {
    (t: Trace, v: Vector) requires SoundScoring(s) =>
      Real(Scores.Score(s.weights,
        Scores.Signals(Scores.Cosine(query, v, s.root), t.importance, t.createdAt, t.accesses), now,
                        s.decay, s.log))
  }

  /** One hit per trace of the user, whatever slots they sit in. */
  ghost function UserHits(view: map<Id, (Trace, Vector)>, user: string, rate: Rating): map<Id, Hit>
    requires Rates(rate)
  {
    map uid | uid in view && view[uid].0.user == user :: Hit(uid, rate(view[uid].0, view[uid].1), view[uid].0.createdAt)
  }

  ghost predicate Ranks(hits: seq<Hit>, expected: map<Id, Hit>) {
    && (forall i, j :: 0 <= i < j < |hits| ==> hits[i].id != hits[j].id)
    && (forall h :: h in hits ==> h.id in expected && expected[h.id] == h)
    && (forall id :: id in expected ==> expected[id] in hits)
  }

  /** Every hit is filed under its own id. */
  ghost predicate UnderOwnIds(expected: map<Id, Hit>) {
    forall id :: id in expected ==> expected[id].id == id
  }

  lemma RanksPermute(a: seq<Hit>, b: seq<Hit>, expected: map<Id, Hit>)
    requires Ranks(a, expected) && Ranks(b, expected)
    ensures multiset(a) == multiset(b)
  {
    forall h ensures h in a <==> h in b { }
    SameHits(a, b);
  }

  lemma {:induction false} RankingExists(expected: map<Id, Hit>)
    requires UnderOwnIds(expected)
    ensures exists hits :: Ranks(hits, expected)
    decreases |expected|
  {
    hide Ranks;
    if expected == map[] {
      NothingRanked();
    } else {
      var id :| id in expected;
      RankingExists(expected - {id});
      var hits :| Ranks(hits, expected - {id});
      RankAdded(hits, expected - {id}, expected[id]);
      assert (expected - {id})[id := expected[id]] == expected;
    }
  }

  lemma NothingRanked()
    ensures Ranks([], map[])
  {
  }

  /** The best of a user's traces: by score, then the newer, then the uid. */
  ghost function BestOf(expected: map<Id, Hit>, limit: nat): seq<Hit>
    requires UnderOwnIds(expected)
  {
    RankingExists(expected);
    var hits :| Ranks(hits, expected);
    Best(hits, limit)
  }

  lemma BestOfRanking(hits: seq<Hit>, expected: map<Id, Hit>, limit: nat)
    requires UnderOwnIds(expected) && Ranks(hits, expected)
    ensures Best(hits, limit) == BestOf(expected, limit)
  {
    hide Best, Ranks;
    RankingExists(expected);
    var other :| Ranks(other, expected) && BestOf(expected, limit) == Best(other, limit);
    RanksPermute(hits, other, expected);
    BestIgnoresOrder(hits, other, limit);
  }

  /** What a search answers: refused on a query of the wrong dimension, otherwise the best of the user's traces. */
  ghost function Candidates(view: map<Id, (Trace, Vector)>, dim: Option<nat>, user: string, query: Vector, limit: nat,
                            rate: Rating): Option<seq<Hit>>
    requires Rates(rate)
  {
    if dim.Some? && |query| != dim.value then None else Some(BestOf(UserHits(view, user, rate), limit))
  }

  /** The tag index finds the traces with a tag of that normal form, the keyword index those with a word in their
      summary, the user index a user's own. */
  lemma PostingsMeaning(engine: MemoryEngine, key: string, slot: nat)
    requires engine.Valid()
    ensures slot in At(engine.tagIndex, key) <==>
      slot < |engine.traces| && exists tag :: tag in engine.traces[slot].tags && engine.normalize(tag) == key
    ensures slot in At(engine.keywordIndex, key) <==>
      slot < |engine.traces| && key in engine.words(engine.traces[slot].summary)
    ensures slot in At(engine.userIndex, key) <==> slot < |engine.traces| && engine.traces[slot].user == key
  {
    hide Shaped, Located;
    PostedAt(engine.tagIndex, engine.traces, Tags(engine.normalize), key, slot);
    PostedAt(engine.keywordIndex, engine.traces, Keywords(engine.words), key, slot);
    PostedAt(engine.userIndex, engine.traces, Users, key, slot);
  }

  lemma PostedAt(index: Slots, traces: seq<Trace>, keys: Trace -> set<string>, key: string, slot: nat)
    requires Indexes(index, traces, AllSlots(|traces|), keys)
    ensures slot in At(index, key) <==> slot < |traces| && key in keys(traces[slot])
  {
    var filed := Filed(traces, AllSlots(|traces|), keys);
    assert slot in At(index, key) <==> slot in filed && key in filed[slot];
  }

  /** Slot, hash and ingestion order cannot show: engines holding the same traces answer alike. */
  lemma SameViewSameAnswer(a: MemoryEngine, b: MemoryEngine, user: string, query: Vector, limit: nat, rate: Rating)
    requires a.Valid() && b.Valid() && a.View() == b.View() && Rates(rate)
    ensures
      var x, y := Candidates(a.View(), a.dim, user, query, limit, rate),
        Candidates(b.View(), b.dim, user, query, limit, rate);
      (a.View() != map[] ==> x == y) && (x.Some? && y.Some? ==> x == y)
  {
    hide BestOf, UserHits, Indexes, AllSlots, At;
    var view := a.View();
    if view != map[] {
      var uid :| uid in view;
      DimOfView(a.traces, a.embeddings, a.slotOf, a.dim, uid);
      DimOfView(b.traces, b.embeddings, b.slotOf, b.dim, uid);
    }
  }

  lemma DimOfView(traces: seq<Trace>, embeddings: seq<Vector>, slotOf: map<Id, nat>, dim: Option<nat>, uid: Id)
    requires Shaped(traces, embeddings, dim) && uid in ViewOf(traces, embeddings, slotOf)
    ensures dim == Some(|ViewOf(traces, embeddings, slotOf)[uid].1|)
    ensures 0.0 <= ViewOf(traces, embeddings, slotOf)[uid].0.importance <= 1.0
  {
  }

  /** Every candidate is a trace of the user with its true score, within what the weights allow. */
  lemma CandidatesAreScored(engine: MemoryEngine, user: string, query: Vector, limit: nat, s: Scoring, now: int)
    requires engine.Valid() && SoundScoring(s)
    requires Candidates(engine.View(), engine.dim, user, query, limit, RatingBy(s, query, now)).Some?
    ensures
      var w := s.weights;
      var r := Candidates(engine.View(), engine.dim, user, query, limit, RatingBy(s, query, now)).value;
      && Sorted(r) && |r| <= limit
      && forall h :: h in r ==>
        && h.id in engine.View() && engine.View()[h.id].0.user == user
        && h.score == RatingBy(s, query, now)(engine.View()[h.id].0, engine.View()[h.id].1)
        && h.score.Real? && -w.semantic <= h.score.value <= w.semantic + w.importance + w.recency + w.access
  {
    hide BestOf, RatingBy, MemoryEngine.View, Scores.Weighted, MemoryEngine.Valid, Sorted, UnderOwnIds, SoundScoring,
        UserHits;
    var rate := RatingBy(s, query, now);
    RatesEverywhere(s, query, now);
    UserHitsKeyed(engine.View(), user, rate);
    BestOfMembers(UserHits(engine.View(), user, rate), limit);
    forall h | h in BestOf(UserHits(engine.View(), user, rate), limit)
      ensures h.id in engine.View() && engine.View()[h.id].0.user == user
      ensures h.score == rate(engine.View()[h.id].0, engine.View()[h.id].1)
      ensures h.score.Real? && -s.weights.semantic <= h.score.value
      ensures h.score.value <= s.weights.semantic + s.weights.importance + s.weights.recency + s.weights.access
    {
      UserHitAt(engine.View(), user, rate, h.id);
      RatingInBounds(engine, s, query, now, h.id);
    }
  }

  lemma RatesEverywhere(s: Scoring, query: Vector, now: int)
    requires SoundScoring(s)
    ensures Rates(RatingBy(s, query, now))
  {
  }

  lemma UserHitAt(view: map<Id, (Trace, Vector)>, user: string, rate: Rating, id: Id)
    requires Rates(rate) && id in UserHits(view, user, rate)
    ensures id in view && view[id].0.user == user
    ensures UserHits(view, user, rate)[id] == Hit(id, rate(view[id].0, view[id].1), view[id].0.createdAt)
  {
  }

  lemma BestOfMembers(expected: map<Id, Hit>, limit: nat)
    requires UnderOwnIds(expected)
    ensures Sorted(BestOf(expected, limit)) && |BestOf(expected, limit)| <= limit
    ensures forall h :: h in BestOf(expected, limit) ==> h.id in expected && expected[h.id] == h
  {
    hide Best, Sorted;
    RankingExists(expected);
    var hits :| Ranks(hits, expected) && BestOf(expected, limit) == Best(hits, limit);
    BestIsSorted(hits, limit);
  }

  lemma RatingInBounds(engine: MemoryEngine, s: Scoring, query: Vector, now: int, uid: Id)
    requires engine.Valid() && SoundScoring(s) && uid in engine.View() && Rates(RatingBy(s, query, now))
    ensures
      var x := RatingBy(s, query, now)(engine.View()[uid].0, engine.View()[uid].1);
      && x.Real? && -s.weights.semantic <= x.value
      && x.value <= s.weights.semantic + s.weights.importance + s.weights.recency + s.weights.access
  {
    hide Indexes, AllSlots, At, Scores.Score, ViewOf, Shaped, Located, Scores.IsRoot, Scores.Decay, Scores.Logarithm;
    DimOfView(engine.traces, engine.embeddings, engine.slotOf, engine.dim, uid);
    var t, v := engine.View()[uid].0, engine.View()[uid].1;
    Scores.ScoreBounds(s.weights,
      Scores.Signals(Scores.Cosine(query, v, s.root), t.importance, t.createdAt, t.accesses), now,
                       s.decay, s.log);
  }

  /** Score the user's pool and keep the best; `selected` is what the partial selection leaves. */
  method RankPool(engine: MemoryEngine, user: string, query: Vector, limit: nat, rate: Rating,
                  selected: seq<Hit> -> seq<Hit>)
    returns (r: Option<seq<Hit>>)
    requires engine.Valid() && Rates(rate)
    requires forall s: seq<Hit> :: 0 < limit < |s| ==> Search.Selects(s, limit, selected(s))
    ensures r == Candidates(engine.View(), engine.dim, user, query, limit, rate)
  {
    hide Indexes, Best, Search.Selects, Shaped, Located, AllSlots, Ranks, SlotHits, UserHits, ViewOf, At, BestOf,
        UnderOwnIds;
    if engine.dim.Some? && |query| != engine.dim.value { return None; }
    var pool := At(engine.userIndex, user);
    PoolIsUsers(engine.traces, engine.userIndex, user);
    SameLength(engine.traces, engine.embeddings, engine.dim);
    var hits: seq<Hit> := [];
    NoneRanked(engine.traces, engine.embeddings, engine.slotOf, pool, rate);
    var rest := pool;
    while rest != {}
      invariant rest <= pool
      invariant Ranks(hits, SlotHits(engine.traces, engine.embeddings, engine.slotOf, pool - rest, rate))
      decreases rest
    {
      var slot :| slot in rest;
      RankOneMore(engine.traces, engine.embeddings, engine.slotOf, pool - rest, slot, rate, hits);
      hits := hits + [Hit(engine.traces[slot].uid, rate(engine.traces[slot], engine.embeddings[slot]),
        engine.traces[slot].createdAt)];
      assert pool - (rest - {slot}) == (pool - rest) + {slot};
      rest := rest - {slot};
    }
    assert pool - rest == pool;
    SlotsAreUsers(engine.traces, engine.embeddings, engine.slotOf, pool, user, rate);
    UserHitsKeyed(engine.View(), user, rate);
    BestOfRanking(hits, UserHits(engine.View(), user, rate), limit);
    var ranking := new Search.Ranking(hits);
    ranking.TopK(limit, selected(hits));
    r := Some(ranking.items);
  }

  lemma UserHitsKeyed(view: map<Id, (Trace, Vector)>, user: string, rate: Rating)
    requires Rates(rate)
    ensures UnderOwnIds(UserHits(view, user, rate))
  {
  }

  /** Whatever the ratings, NaN included: a trace rated NaN comes after every trace rated a number, and is among the
      best only if all of those are. */
  lemma NanComesLast(expected: map<Id, Hit>, limit: nat)
    requires UnderOwnIds(expected)
    ensures
      var r := BestOf(expected, limit);
      && (forall i, j :: 0 <= i < j < |r| && r[i].score.Nan? ==> r[j].score.Nan?)
      && forall h, id :: h in r && h.score.Nan? && id in expected && !expected[id].score.Nan? ==> expected[id] in r
  {
    hide Best, Sorted, Ranks;
    RankingExists(expected);
    var hits :| Ranks(hits, expected) && BestOf(expected, limit) == Best(hits, limit);
    BestIsSorted(hits, limit);
    NansAreLast(Best(hits, limit));
    forall h, id | h in Best(hits, limit) && h.score.Nan? && id in expected && !expected[id].score.Nan?
      ensures expected[id] in Best(hits, limit)
    {
      RanksHas(hits, expected, id);
      BetterIsKept(hits, limit, h, expected[id]);
    }
  }

  lemma RanksHas(hits: seq<Hit>, expected: map<Id, Hit>, id: Id)
    requires Ranks(hits, expected) && id in expected
    ensures expected[id] in hits
  {
  }

  lemma NansAreLast(r: seq<Hit>)
    requires Sorted(r)
    ensures forall i, j :: 0 <= i < j < |r| && r[i].score.Nan? ==> r[j].score.Nan?
  {
    forall i, j | 0 <= i < j < |r| && r[i].score.Nan? ensures r[j].score.Nan? { assert !Before(r[j], r[i]); }
  }

  /** What comes before something kept is kept. */
  lemma BetterIsKept(hits: seq<Hit>, k: nat, h: Hit, x: Hit)
    requires h in Best(hits, k) && h.score.Nan? && x in hits && !x.score.Nan?
    ensures x in Best(hits, k)
  {
    hide Best;
    if |hits| <= k {
      BestOfFew(hits, k, x);
    } else if x !in Best(hits, k) {
      var rest := BestSplits(hits, k);
      SplitMember(hits, Best(hits, k), rest, x);
    }
  }

  /** The answer holds the user's own traces, each once with its own score and time, as many as there are up to the
      limit. */
  ghost predicate OwnTraces(view: map<Id, (Trace, Vector)>, user: string, limit: nat, rate: Rating, r: seq<Hit>)
    requires Rates(rate)
  {
    && (forall h :: h in r ==>
          && h.id in view && view[h.id].0.user == user && h.recency == view[h.id].0.createdAt
          && h.score == rate(view[h.id].0, view[h.id].1))
    && (forall i, j :: 0 <= i < j < |r| ==> r[i].id != r[j].id)
    && |r| <= limit
    && forall x :: x in view && view[x].0.user == user && |r| < limit ==> Answered(r, |r|, x)
  }

  /** The trace is among the first n of the answer. */
  ghost predicate Answered(r: seq<Hit>, n: nat, x: Id)
    requires n <= |r|
  {
    exists i :: 0 <= i < n && r[i].id == x
  }

  /** Of any two traces of the user the one with the higher score, at equal scores the newer, at equal times the one
      with the smaller uid is answered whenever the other is, and earlier. */
  ghost predicate BestFirst(view: map<Id, (Trace, Vector)>, user: string, rate: Rating, r: seq<Hit>)
    requires Rates(rate)
  {
    forall x, j :: x in view && view[x].0.user == user && 0 <= j < |r| && r[j].id in view ==>
      var a, b := rate(view[x].0, view[x].1), rate(view[r[j].id].0, view[r[j].id].1);
      var s, t := view[x].0.createdAt, view[r[j].id].0.createdAt;
      Higher(a, b) || (a == b && s > t) || (a == b && s == t && Precedes(x, r[j].id)) ==> Answered(r, j, x)
  }

  /** A hit of the list that comes before one kept is kept, and earlier. */
  lemma BetterIsEarlier(hits: seq<Hit>, k: nat, j: nat, x: Hit)
    requires j < |Best(hits, k)| && x in hits && Before(x, Best(hits, k)[j])
    ensures exists i :: 0 <= i < j && Best(hits, k)[i] == x
  {
    hide Best, Before;
    var r := Best(hits, k);
    BestIsSorted(hits, k);
    if x !in r {
      if |hits| <= k {
        BestOfFew(hits, k, x);
      } else {
        var rest := BestSplits(hits, k);
        SplitMember(hits, r, rest, x);
      }
    }
    var i :| 0 <= i < |r| && r[i] == x;
    BeforeTrichotomy(x, r[j]);
  }

  lemma FullWhenShort(hits: seq<Hit>, k: nat, x: Hit)
    requires x in hits && |Best(hits, k)| < k
    ensures x in Best(hits, k)
  {
    hide Best;
    if k <= |hits| { var _ := BestSplits(hits, k); }
    BestOfFew(hits, k, x);
  }

  ghost predicate Leads(expected: map<Id, Hit>, limit: nat, r: seq<Hit>) {
    && |r| <= limit && (forall h :: h in r ==> h.id in expected && expected[h.id] == h)
    && (forall i, j :: 0 <= i < j < |r| ==> r[i].id != r[j].id)
    && (forall x :: x in expected && |r| < limit ==> Answered(r, |r|, x))
    && forall x, j :: x in expected && 0 <= j < |r| && Before(expected[x], r[j]) ==> Answered(r, j, x)
  }

  lemma BestLeads(expected: map<Id, Hit>, limit: nat)
    requires UnderOwnIds(expected)
    ensures Leads(expected, limit, BestOf(expected, limit))
  {
    hide Best, Sorted, Before;
    RankingExists(expected);
    var hits :| Ranks(hits, expected) && BestOf(expected, limit) == Best(hits, limit);
    var r := Best(hits, limit);
    BestIsSorted(hits, limit);
    BestKeepsDistinct(hits, limit);
    forall x | x in expected && |r| < limit ensures Answered(r, |r|, x) { FullWhenShort(hits, limit, expected[x]); }
    forall x, j | x in expected && 0 <= j < |r| && Before(expected[x], r[j]) ensures Answered(r, j, x) {
      BetterIsEarlier(hits, limit, j, expected[x]);
    }
  }

  lemma LeadersAnswer(view: map<Id, (Trace, Vector)>, user: string, limit: nat, rate: Rating, r: seq<Hit>)
    requires Rates(rate) && Leads(UserHits(view, user, rate), limit, r)
    ensures OwnTraces(view, user, limit, rate, r)
  {
    hide Before, Answered;
    var expected := UserHits(view, user, rate);
    forall x | x in view && view[x].0.user == user && |r| < limit ensures Answered(r, |r|, x) { assert x in expected; }
  }

  lemma LeadersFirst(view: map<Id, (Trace, Vector)>, user: string, limit: nat, rate: Rating, r: seq<Hit>)
    requires Rates(rate) && Leads(UserHits(view, user, rate), limit, r)
    ensures BestFirst(view, user, rate, r)
  {
    hide Before, Answered, Higher, Precedes;
    var expected := UserHits(view, user, rate);
    forall x, j | x in view && view[x].0.user == user && 0 <= j < |r| && r[j].id in view
      ensures
        var a, b := rate(view[x].0, view[x].1), rate(view[r[j].id].0, view[r[j].id].1);
        var s, t := view[x].0.createdAt, view[r[j].id].0.createdAt;
        Higher(a, b) || (a == b && s > t) || (a == b && s == t && Precedes(x, r[j].id)) ==> Answered(r, j, x)
    {
      assert r[j] in r && x in expected;
      BeforeMeaning(expected[x], r[j]);
    }
  }

  /** `search_candidates`: refused exactly on a query of the wrong dimension; otherwise the best `limit` of the user's
      traces under the configured weights. */
  method SearchCandidates(engine: MemoryEngine, s: Scoring, user: string, query: Vector, limit: nat, now: int,
                          selected: seq<Hit> -> seq<Hit>)
    returns (r: Option<seq<Hit>>)
    requires engine.Valid() && SoundScoring(s)
    requires forall x: seq<Hit> :: 0 < limit < |x| ==> Search.Selects(x, limit, selected(x))
    ensures r == Candidates(engine.View(), engine.dim, user, query, limit, RatingBy(s, query, now))
    ensures r.None? <==> engine.dim.Some? && |query| != engine.dim.value
    ensures r.Some? ==>
      && OwnTraces(engine.View(), user, limit, RatingBy(s, query, now), r.value)
      && BestFirst(engine.View(), user, RatingBy(s, query, now), r.value)
  {
    hide OwnTraces, BestFirst, Leads, Search.Selects, BestOf, UserHits;
    r := RankPool(engine, user, query, limit, RatingBy(s, query, now), selected);
    if r.Some? {
      UserHitsKeyed(engine.View(), user, RatingBy(s, query, now));
      BestLeads(UserHits(engine.View(), user, RatingBy(s, query, now)), limit);
      LeadersAnswer(engine.View(), user, limit, RatingBy(s, query, now), r.value);
      LeadersFirst(engine.View(), user, limit, RatingBy(s, query, now), r.value);
    }
  }

  /** The hits of the traces in some of the slots. */
  ghost function SlotHits(traces: seq<Trace>, embeddings: seq<Vector>, slotOf: map<Id, nat>, slots: set<nat>,
                          rate: Rating): map<Id, Hit>
    requires Rates(rate)
  {
    map uid | uid in slotOf && slotOf[uid] in slots && slotOf[uid] < |traces| && slotOf[uid] < |embeddings| ::
      Hit(uid, rate(traces[slotOf[uid]], embeddings[slotOf[uid]]), traces[slotOf[uid]].createdAt)
  }

  lemma PoolIsUsers(traces: seq<Trace>, users: Slots, user: string)
    requires Indexes(users, traces, AllSlots(|traces|), Users)
    ensures forall i: nat :: i in At(users, user) <==> i < |traces| && traces[i].user == user
  {
    hide AllSlots;
    var filed := Filed(traces, AllSlots(|traces|), Users);
    forall i: nat ensures i in At(users, user) <==> i < |traces| && traces[i].user == user {
      assert i in At(users, user) <==> i in filed && user in filed[i];
    }
  }

  lemma NoneRanked(traces: seq<Trace>, embeddings: seq<Vector>, slotOf: map<Id, nat>, pool: set<nat>, rate: Rating)
    requires Rates(rate)
    ensures Ranks([], SlotHits(traces, embeddings, slotOf, pool - pool, rate))
  {
  }

  lemma RankOneMore(traces: seq<Trace>, embeddings: seq<Vector>, slotOf: map<Id, nat>, done: set<nat>, slot: nat,
                    rate: Rating, hits: seq<Hit>)
    requires Rates(rate) && Located(traces, slotOf) && |traces| == |embeddings| && slot < |traces| && slot !in done
    requires Ranks(hits, SlotHits(traces, embeddings, slotOf, done, rate))
    ensures
      var hit := Hit(traces[slot].uid, rate(traces[slot], embeddings[slot]), traces[slot].createdAt);
      Ranks(hits + [hit], SlotHits(traces, embeddings, slotOf, done + {slot}, rate))
  {
    var uid := traces[slot].uid;
    var hit := Hit(uid, rate(traces[slot], embeddings[slot]), traces[slot].createdAt);
    var was, now := SlotHits(traces, embeddings, slotOf, done, rate),
      SlotHits(traces, embeddings, slotOf, done + {slot}, rate);
    assert uid !in was && now == was[uid := hit];
    RankAdded(hits, was, hit);
  }

  lemma RankAdded(hits: seq<Hit>, expected: map<Id, Hit>, hit: Hit)
    requires Ranks(hits, expected) && hit.id !in expected
    ensures Ranks(hits + [hit], expected[hit.id := hit])
  {
    var more := hits + [hit];
    forall i, j | 0 <= i < j < |more| ensures more[i].id != more[j].id { assert more[i] in hits; }
    var after := expected[hit.id := hit];
    forall id | id in after ensures after[id] in more {
      if id == hit.id { assert more[|hits|] == hit; } else { assert expected[id] in hits; }
    }
  }

  lemma SlotsAreUsers(traces: seq<Trace>, embeddings: seq<Vector>, slotOf: map<Id, nat>, pool: set<nat>, user: string,
                      rate: Rating)
    requires Rates(rate) && Located(traces, slotOf) && |traces| == |embeddings|
    requires forall i: nat :: i in pool <==> i < |traces| && traces[i].user == user
    ensures SlotHits(traces, embeddings, slotOf, pool, rate) == UserHits(ViewOf(traces, embeddings, slotOf), user, rate)
  {
  }
}
