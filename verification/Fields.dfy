/** `Registry` of `memory_core/memory/metadata.py` and the normalisation of incoming records in
    `memory_core/memory/service.py`. */
module Fields {
  import opened Types
  import opened Ordering

  datatype FieldType = Keyword | Keywords | Numeric | Boolean

  datatype Field = Field(name: string, kind: FieldType, readOnly: bool, aliases: seq<string>)

  datatype Registry = Registry(fields: map<string, Field>, aliases: map<string, string>) {

    function Resolve(name: string): Option<Field> {
      var canonical := if name in aliases then aliases[name] else name;
      if canonical in fields then Some(fields[canonical]) else None
    }
  }

  // ---------- construction ----------

  ghost predicate Distinct<T>(s: seq<T>) {
    forall i, j :: 0 <= i < j < |s| ==> s[i] != s[j]
  }

  /** Field names and aliases form one namespace without collisions. */
  ghost predicate ValidFields(fields: map<string, Field>) {
    && (forall n :: n in fields ==> fields[n].name == n && Distinct(fields[n].aliases))
    && (forall n, a :: n in fields && a in fields[n].aliases ==> a !in fields)
    && (forall n, m, a :: n in fields && m in fields && n != m && a in fields[n].aliases ==> a !in fields[m].aliases)
  }

  ghost predicate Free(field: Field, names: set<string>, aliases: map<string, string>) {
    Distinct(field.aliases) && forall a :: a in field.aliases ==> a !in names && a !in aliases
  }

  /** The alias table once `field` has registered its aliases on top of `before`. */
  ghost predicate Claimed(field: Field, before: map<string, string>, after: map<string, string>) {
    && (forall a :: a in after <==> a in before || a in field.aliases)
    && (forall a :: a in after ==> after[a] == if a in field.aliases then field.name else before[a])
  }

  /** The inner loop of `Registry.__init__`: one field registers its aliases, unless one is taken. */
  method ClaimAliases(names: set<string>, field: Field, aliases: map<string, string>)
      returns (r: Result<map<string, string>>)
    ensures r.Ok? <==> Free(field, names, aliases)
    ensures r.Ok? ==> Claimed(field, aliases, r.value)
  {
    var claimed := aliases;
    for i := 0 to |field.aliases|
      invariant Free(field.(aliases := field.aliases[..i]), names, aliases)
      invariant Claimed(field.(aliases := field.aliases[..i]), aliases, claimed)
    {
      var alias := field.aliases[i];
      ghost var prefix := field.aliases[..i];
      if alias in names || alias in claimed {
        if alias in prefix {
          var j :| 0 <= j < i && field.aliases[j] == alias;
        }
        return Err(Schema);
      }
      claimed := claimed[alias := field.name];
      assert field.aliases[..i + 1] == prefix + [alias];
    }
    assert field.aliases[..|field.aliases|] == field.aliases;
    r := Ok(claimed);
  }

  /** The alias table after the fields in `done`. */
  ghost predicate Claims(fields: map<string, Field>, done: set<string>, aliases: map<string, string>)
    requires done <= fields.Keys
  {
    && (forall a :: a in aliases ==> aliases[a] in done && a in fields[aliases[a]].aliases)
    && (forall n, a :: n in done && a in fields[n].aliases ==> a in aliases && aliases[a] == n && a !in fields)
    && (forall n :: n in done ==> fields[n].name == n && Distinct(fields[n].aliases))
  }

  /** The registry is what the constructor builds from its own fields. */
  ghost predicate Built(reg: Registry) {
    Claims(reg.fields, reg.fields.Keys, reg.aliases)
  }

  lemma ClaimsNeedValidFields(fields: map<string, Field>, aliases: map<string, string>)
    requires Claims(fields, fields.Keys, aliases)
    ensures ValidFields(fields)
  {
    forall n, m, a | n in fields && m in fields && n != m && a in fields[n].aliases ensures a !in fields[m].aliases {
      assert aliases[a] == n;
    }
  }

  lemma BuiltIsDetermined(a: Registry, b: Registry)
    requires Built(a) && Built(b) && a.fields == b.fields
    ensures a == b
  {
    forall x | x in a.aliases ensures x in b.aliases && b.aliases[x] == a.aliases[x] {
      assert x in b.fields[a.aliases[x]].aliases;
    }
    forall x | x in b.aliases ensures x in a.aliases {
      assert x in a.fields[b.aliases[x]].aliases;
    }
  }

  lemma ClaimOne(fields: map<string, Field>, done: set<string>, aliases: map<string, string>, name: string,
                 after: map<string, string>)
    requires done <= fields.Keys && Claims(fields, done, aliases)
    requires name in fields && name !in done && fields[name].name == name
    requires Free(fields[name], fields.Keys, aliases) && Claimed(fields[name], aliases, after)
    ensures Claims(fields, done + {name}, after)
  {
  }

  lemma TakenMeansInvalid(fields: map<string, Field>, done: set<string>, aliases: map<string, string>, name: string)
    requires done <= fields.Keys && Claims(fields, done, aliases) && name in fields && name !in done
    requires !Free(fields[name], fields.Keys, aliases)
    ensures !ValidFields(fields)
  {
  }

  /** `Registry.__init__` over the owner's stored definitions: it succeeds exactly on a collision-free
      namespace, and then maps every alias to the one field that declares it. */
  method BuildRegistry(fields: map<string, Field>) returns (r: Result<Registry>)
    requires forall n :: n in fields ==> fields[n].name == n
    ensures r.Ok? <==> ValidFields(fields)
    ensures r.Ok? ==> r.value.fields == fields && Built(r.value)
    ensures r.Err? ==> r.error == Schema
  {
    var aliases: map<string, string> := map[];
    var rest := fields.Keys;
    while rest != {}
      invariant rest <= fields.Keys
      invariant Claims(fields, fields.Keys - rest, aliases)
      decreases rest
    {
      var name :| name in rest;
      var claimed := ClaimAliases(fields.Keys, fields[name], aliases);
      if claimed.Err? {
        TakenMeansInvalid(fields, fields.Keys - rest, aliases, name);
        return Err(Schema);
      }
      ClaimOne(fields, fields.Keys - rest, aliases, name, claimed.value);
      aliases := claimed.value;
      assert fields.Keys - (rest - {name}) == (fields.Keys - rest) + {name};
      rest := rest - {name};
    }
    assert fields.Keys - rest == fields.Keys;
    ClaimsNeedValidFields(fields, aliases);
    r := Ok(Registry(fields, aliases));
  }

  /** A stored field name is never shadowed by an alias. */
  lemma NamesResolveToThemselves(reg: Registry, name: string)
    requires Built(reg) && name in reg.fields
    ensures reg.Resolve(name) == Some(reg.fields[name])
    ensures reg.fields[name].name == name
  {
  }

  // ---------- values ----------

  predicate TypeOk(kind: FieldType, v: Value) {
    match kind
    case Keyword => v.One? && v.item.Text?
    case Keywords => v.Many?
    case Numeric => v.One? && v.item.Number?
    case Boolean => v.One? && v.item.Flag?
  }

  /** One alternative of an applicability condition. */
  predicate AlternativeOk(kind: FieldType, v: Scalar) {
    match kind
    case Keyword => v.Text?
    case Keywords => v.Text?
    case Numeric => v.Number?
    case Boolean => v.Flag?
  }

  function CanonicalValue(v: Value): Value {
    match v
    case One(_) => v
    case Many(items) => Many(Canonical(items))
  }

  lemma CanonicalValueFixed(v: Value)
    ensures CanonicalValue(CanonicalValue(v)) == CanonicalValue(v)
  {
    if v.Many? {
      CanonicalSorted(v.items);
      CanonicalFixed(Canonical(v.items));
    }
  }

  // ---------- metadata ----------

  /** The field's own name, or the given name when it resolves to nothing. */
  function NameOf(reg: Registry, name: string): string {
    var field := reg.Resolve(name);
    if field.Some? then field.value.name else name
  }

  predicate EntryOk(reg: Registry, name: string, v: Value, allowReadOnly: bool) {
    var field := reg.Resolve(name);
    field.Some? && (field.value.readOnly ==> allowReadOnly) && TypeOk(field.value.kind, v)
  }

  /** No two spellings of one field. */
  ghost predicate OneSpelling(reg: Registry, names: set<string>) {
    forall n, m :: n in names && m in names && NameOf(reg, n) == NameOf(reg, m) ==> n == m
  }

  ghost function CanonicalNames(reg: Registry, names: set<string>): set<string> {
    set n | n in names :: NameOf(reg, n)
  }

  ghost function Spelling(reg: Registry, names: set<string>, name: string): (n: string)
    requires name in CanonicalNames(reg, names)
    ensures n in names && NameOf(reg, n) == name
  {
    var n :| n in names && NameOf(reg, n) == name; n
  }

  ghost predicate Acceptable(reg: Registry, data: map<string, Value>, allowReadOnly: bool) {
    OneSpelling(reg, data.Keys) && forall n :: n in data ==> EntryOk(reg, n, data[n], allowReadOnly)
  }

  ghost function Respelled(reg: Registry, data: map<string, Value>): map<string, Value> {
    map name | name in CanonicalNames(reg, data.Keys) :: CanonicalValue(data[Spelling(reg, data.Keys, name)])
  }

  /** What `Registry.normalize` returns: every value under its field's own name, lists sorted without repeats. */
  ghost function NormalizeData(reg: Registry, data: map<string, Value>, allowReadOnly: bool)
    : Result<map<string, Value>>
  {
    if Acceptable(reg, data, allowReadOnly) then Ok(Respelled(reg, data)) else Err(Schema)
  }

  /** The loop state of `normalize` after the names in `done`. */
  ghost predicate Filled(reg: Registry, data: map<string, Value>, done: set<string>, result: map<string, Value>)
    requires done <= data.Keys
  {
    && OneSpelling(reg, done)
    && result.Keys == CanonicalNames(reg, done)
    && forall n :: n in done ==> NameOf(reg, n) in result && result[NameOf(reg, n)] == CanonicalValue(data[n])
  }

  lemma FilledIsRespelled(reg: Registry, data: map<string, Value>, result: map<string, Value>)
    requires Filled(reg, data, data.Keys, result)
    ensures Respelled(reg, data) == result
  {
    forall c | c in result ensures result[c] == CanonicalValue(data[Spelling(reg, data.Keys, c)]) {
    }
  }

  lemma FillOne(reg: Registry, data: map<string, Value>, done: set<string>, result: map<string, Value>, name: string)
    requires done <= data.Keys && Filled(reg, data, done, result)
    requires name in data && name !in done && NameOf(reg, name) !in result
    ensures Filled(reg, data, done + {name}, result[NameOf(reg, name) := CanonicalValue(data[name])])
  {
    forall n | n in done ensures NameOf(reg, n) != NameOf(reg, name) {
      assert NameOf(reg, n) in result;
    }
    assert CanonicalNames(reg, done + {name}) == CanonicalNames(reg, done) + {NameOf(reg, name)};
  }

  method Normalize(reg: Registry, data: map<string, Value>, allowReadOnly: bool) returns (r: Result<map<string, Value>>)
    ensures r == NormalizeData(reg, data, allowReadOnly)
  {
    var result: map<string, Value> := map[];
    var rest := data.Keys;
    while rest != {}
      invariant rest <= data.Keys
      invariant Filled(reg, data, data.Keys - rest, result)
      invariant forall n :: n in data.Keys - rest ==> EntryOk(reg, n, data[n], allowReadOnly)
      decreases rest
    {
      var name :| name in rest;
      var field := reg.Resolve(name);
      if field.None? || (field.value.readOnly && !allowReadOnly) || !TypeOk(field.value.kind, data[name]) {
        assert !EntryOk(reg, name, data[name], allowReadOnly);
        return Err(Schema);
      }
      if field.value.name in result {
        ghost var twin := Spelling(reg, data.Keys - rest, field.value.name);
        assert !OneSpelling(reg, data.Keys);
        return Err(Schema);
      }
      FillOne(reg, data, data.Keys - rest, result, name);
      result := result[field.value.name := CanonicalValue(data[name])];
      assert data.Keys - (rest - {name}) == (data.Keys - rest) + {name};
      rest := rest - {name};
    }
    assert data.Keys - rest == data.Keys;
    FilledIsRespelled(reg, data, result);
    r := Ok(result);
  }

  // ---------- applicability ----------

  predicate ConditionOk(reg: Registry, name: string, alternatives: seq<Scalar>) {
    && alternatives != []
    && reg.Resolve(name).Some?
    && forall i :: 0 <= i < |alternatives| ==> AlternativeOk(reg.Resolve(name).value.kind, alternatives[i])
  }

  ghost predicate ConditionsOk(reg: Registry, conditions: map<string, seq<Scalar>>) {
    OneSpelling(reg, conditions.Keys) && forall n :: n in conditions ==> ConditionOk(reg, n, conditions[n])
  }

  ghost function RespelledConditions(reg: Registry, conditions: map<string, seq<Scalar>>): map<string, seq<Scalar>> {
    map name | name in CanonicalNames(reg, conditions.Keys) :: conditions[Spelling(reg, conditions.Keys, name)]
  }

  ghost function NormalizeConditions(reg: Registry, conditions: map<string, seq<Scalar>>)
    : Result<map<string, seq<Scalar>>>
  {
    if ConditionsOk(reg, conditions) then Ok(RespelledConditions(reg, conditions)) else Err(Schema)
  }

  /** `MemoryService._normalize`. */
  ghost function NormalizeMemory(reg: Registry, m: Memory): Result<Memory> {
    var data := NormalizeData(reg, m.metadata, false);
    if data.Err? then Err(data.error)
    else if m.content.Preference? then
      var conditions := NormalizeConditions(reg, m.content.applicability);
      if conditions.Err? then Err(conditions.error)
      else Ok(m.(metadata := data.value, content := m.content.(applicability := conditions.value)))
    else Ok(m.(metadata := data.value))
  }

  /** The applicability loop of `_normalize`; a name already written means two spellings of one field. */
  method NormalizeAlternatives(reg: Registry, conditions: map<string, seq<Scalar>>)
      returns (r: Result<map<string, seq<Scalar>>>)
    ensures r == NormalizeConditions(reg, conditions)
  {
    var applicability: map<string, seq<Scalar>> := map[];
    var rest := conditions.Keys;
    while rest != {}
      invariant rest <= conditions.Keys
      invariant OneSpelling(reg, conditions.Keys - rest)
      invariant applicability.Keys == CanonicalNames(reg, conditions.Keys - rest)
      invariant forall n :: n in conditions.Keys - rest ==>
          ConditionOk(reg, n, conditions[n]) && NameOf(reg, n) in applicability
            && applicability[NameOf(reg, n)] == conditions[n]
      decreases rest
    {
      var name :| name in rest;
      if !ConditionOk(reg, name, conditions[name]) { return Err(Schema); }
      var canonical := NameOf(reg, name);
      if canonical in applicability {
        ghost var twin := Spelling(reg, conditions.Keys - rest, canonical);
        assert !OneSpelling(reg, conditions.Keys);
        return Err(Schema);
      }
      forall n | n in conditions.Keys - rest ensures NameOf(reg, n) != canonical {
        assert NameOf(reg, n) in applicability;
      }
      applicability := applicability[canonical := conditions[name]];
      assert conditions.Keys - (rest - {name}) == (conditions.Keys - rest) + {name};
      rest := rest - {name};
    }
    assert conditions.Keys - rest == conditions.Keys;
    assert applicability == RespelledConditions(reg, conditions);
    r := Ok(applicability);
  }

  method NormalizeRecord(reg: Registry, m: Memory) returns (r: Result<Memory>)
    ensures r == NormalizeMemory(reg, m)
  {
    var data := Normalize(reg, m.metadata, false);
    if data.Err? { return Err(data.error); }
    if m.content.Preference? {
      var conditions := NormalizeAlternatives(reg, m.content.applicability);
      if conditions.Err? { return Err(conditions.error); }
      return Ok(m.(metadata := data.value, content := m.content.(applicability := conditions.value)));
    }
    return Ok(m.(metadata := data.value));
  }

  lemma NormalizedKeepsId(reg: Registry, m: Memory)
    requires NormalizeMemory(reg, m).Ok?
    ensures NormalizeMemory(reg, m).value.id == m.id
    ensures NormalizeMemory(reg, m).value.status == m.status && NormalizeMemory(reg, m).value.revision == m.revision
    ensures NormalizeMemory(reg, m).value.supersedes == m.supersedes
  {
  }

  lemma TrueNames(reg: Registry, n: string)
    requires Built(reg)
    ensures reg.Resolve(n).Some? <==> TrueName(reg, n) in reg.fields
    ensures reg.Resolve(n).Some? ==>
      reg.Resolve(n).value == reg.fields[TrueName(reg, n)] && NameOf(reg, n) == TrueName(reg, n)
  {
  }

  /** What is accepted: every name a field's own or an alias, of a field that may be written, with a value of its type,
      no field spelled twice. */
  lemma AcceptedDataMeaning(reg: Registry, data: map<string, Value>)
    requires Built(reg)
    ensures NormalizeData(reg, data, false).Ok? <==>
      && (forall n :: n in data ==>
            && TrueName(reg, n) in reg.fields && !reg.fields[TrueName(reg, n)].readOnly
            && TypeOk(reg.fields[TrueName(reg, n)].kind, data[n]))
      && forall n, m :: n in data && m in data && n != m ==> TrueName(reg, n) != TrueName(reg, m)
  {
    hide TypeOk, Built, NameOf, TrueName, Respelled;
    forall n
      ensures reg.Resolve(n).Some? <==> TrueName(reg, n) in reg.fields
      ensures reg.Resolve(n).Some? ==>
        reg.Resolve(n).value == reg.fields[TrueName(reg, n)] && NameOf(reg, n) == TrueName(reg, n)
    {
      TrueNames(reg, n);
    }
    if forall n :: n in data ==> EntryOk(reg, n, data[n], false) {
      assert forall n :: n in data ==> NameOf(reg, n) == TrueName(reg, n);
    }
  }

  lemma RespelledAt(reg: Registry, data: map<string, Value>, n: string)
    requires Acceptable(reg, data, false) && n in data
    ensures NameOf(reg, n) in Respelled(reg, data) && Respelled(reg, data)[NameOf(reg, n)] == CanonicalValue(data[n])
  {
    hide CanonicalValue, TypeOk, NameOf;
    assert NameOf(reg, n) in CanonicalNames(reg, data.Keys);
    assert Spelling(reg, data.Keys, NameOf(reg, n)) == n;
  }

  /** What comes back: each field named, and no other, carries its value, a list sorted without repeats. */
  lemma NormalizedDataMeaning(reg: Registry, data: map<string, Value>, n: string)
    requires Built(reg) && NormalizeData(reg, data, false).Ok?
    ensures
      var r := NormalizeData(reg, data, false).value;
      && (n in data ==>
            && TrueName(reg, n) in r
            && (data[n].One? ==> r[TrueName(reg, n)] == data[n])
            && (data[n].Many? ==>
                  && r[TrueName(reg, n)].Many? && StrictlySorted(r[TrueName(reg, n)].items)
                  && forall x :: x in r[TrueName(reg, n)].items <==> x in data[n].items))
      && (n in r ==> exists m :: m in data && TrueName(reg, m) == n)
  {
    hide TypeOk, Built, TrueName, NameOf;
    if n in data {
      TrueNames(reg, n);
      RespelledAt(reg, data, n);
      if data[n].Many? { CanonicalSorted(data[n].items); }
    }
    if n in Respelled(reg, data) {
      var m :| m in data && NameOf(reg, m) == n;
      TrueNames(reg, m);
      assert TrueName(reg, m) == n;
    }
  }

  /** Conditions are only respelled: each under its field's own name, its alternatives as they were. */
  lemma NormalizedConditionsMeaning(reg: Registry, conditions: map<string, seq<Scalar>>, n: string)
    requires Built(reg) && NormalizeConditions(reg, conditions).Ok?
    ensures
      var r := NormalizeConditions(reg, conditions).value;
      && (n in conditions ==> TrueName(reg, n) in r && r[TrueName(reg, n)] == conditions[n] && conditions[n] != [])
      && (n in r ==> exists m :: m in conditions && TrueName(reg, m) == n)
  {
    hide Built, TrueName, NameOf, AlternativeOk;
    if n in conditions {
      TrueNames(reg, n);
      assert ConditionOk(reg, n, conditions[n]);
      assert NameOf(reg, n) in CanonicalNames(reg, conditions.Keys);
      assert Spelling(reg, conditions.Keys, NameOf(reg, n)) == n;
    }
    if n in RespelledConditions(reg, conditions) {
      var m :| m in conditions && NameOf(reg, m) == n;
      TrueNames(reg, m);
      assert ConditionOk(reg, m, conditions[m]);
      assert TrueName(reg, m) == n;
    }
  }

  lemma AcceptedConditionsMeaning(reg: Registry, conditions: map<string, seq<Scalar>>)
    requires Built(reg)
    ensures NormalizeConditions(reg, conditions).Ok? <==>
      && (forall n :: n in conditions ==>
            && TrueName(reg, n) in reg.fields && conditions[n] != []
            && forall i :: 0 <= i < |conditions[n]| ==>
              AlternativeOk(reg.fields[TrueName(reg, n)].kind, conditions[n][i]))
      && forall n, m :: n in conditions && m in conditions && n != m ==> TrueName(reg, n) != TrueName(reg, m)
  {
    hide AlternativeOk, Built, NameOf, TrueName, RespelledConditions;
    forall n
      ensures reg.Resolve(n).Some? <==> TrueName(reg, n) in reg.fields
      ensures reg.Resolve(n).Some? ==>
        reg.Resolve(n).value == reg.fields[TrueName(reg, n)] && NameOf(reg, n) == TrueName(reg, n)
    {
      TrueNames(reg, n);
    }
    if forall n :: n in conditions ==> ConditionOk(reg, n, conditions[n]) {
      assert forall n :: n in conditions ==> NameOf(reg, n) == TrueName(reg, n);
    }
  }

  /** A record is normalised in its metadata and, if it is a preference, in its conditions, and nowhere else. */
  lemma NormalizedRecordMeaning(reg: Registry, m: Memory)
    ensures NormalizeMemory(reg, m).Ok? <==>
      && NormalizeData(reg, m.metadata, false).Ok?
      && (m.content.Preference? ==> NormalizeConditions(reg, m.content.applicability).Ok?)
    ensures NormalizeMemory(reg, m).Ok? ==>
      var r := NormalizeMemory(reg, m).value;
      && r == m.(metadata := NormalizeData(reg, m.metadata, false).value, content := r.content)
      && (if m.content.Preference?
          then r.content == m.content.(applicability := NormalizeConditions(reg, m.content.applicability).value)
          else r.content == m.content)
  {
    hide NormalizeData, NormalizeConditions;
  }

  function TrueName(reg: Registry, name: string): string {
    if name in reg.aliases then reg.aliases[name] else name
  }

  // ---------- normal records ----------

  predicate NormalEntry(fields: map<string, Field>, name: string, v: Value) {
    name in fields && !fields[name].readOnly && TypeOk(fields[name].kind, v) && CanonicalValue(v) == v
  }

  predicate NormalCondition(fields: map<string, Field>, name: string, alternatives: seq<Scalar>) {
    && name in fields && alternatives != []
    && forall i :: 0 <= i < |alternatives| ==> AlternativeOk(fields[name].kind, alternatives[i])
  }

  /** The record is spelled in the registry's own names and canonical values. */
  ghost predicate Normal(fields: map<string, Field>, m: Memory) {
    && (forall n :: n in m.metadata ==> NormalEntry(fields, n, m.metadata[n]))
    && (m.content.Preference? ==>
          forall n :: n in m.content.applicability ==> NormalCondition(fields, n, m.content.applicability[n]))
  }

  /** In detail: every field known, not the system's own, of its declared type and, if a list, sorted without repeats;
      every condition on a known field, with at least one alternative, each of the field's type. */
  lemma NormalMeaning(fields: map<string, Field>, m: Memory, n: string)
    requires Normal(fields, m)
    ensures n in m.metadata ==>
      && n in fields && !fields[n].readOnly
      && match fields[n].kind
         case Keyword => m.metadata[n].One? && m.metadata[n].item.Text?
         case Numeric => m.metadata[n].One? && m.metadata[n].item.Number?
         case Boolean => m.metadata[n].One? && m.metadata[n].item.Flag?
         case Keywords => m.metadata[n].Many? && StrictlySorted(m.metadata[n].items)
    ensures m.content.Preference? && n in m.content.applicability ==>
      && n in fields && m.content.applicability[n] != []
      && forall v :: v in m.content.applicability[n] ==>
           match fields[n].kind
           case Numeric => v.Number?
           case Boolean => v.Flag?
           case _ => v.Text?
  {
    if n in m.metadata && m.metadata[n].Many? { CanonicalSorted(m.metadata[n].items); }
  }

  /** Definitions are never changed or dropped, only added. */
  ghost predicate Extends(earlier: map<string, Field>, later: map<string, Field>) {
    forall n :: n in earlier ==> n in later && later[n] == earlier[n]
  }

  lemma NormalUnderExtension(earlier: map<string, Field>, later: map<string, Field>, m: Memory)
    requires Extends(earlier, later) && Normal(earlier, m)
    ensures Normal(later, m)
  {
  }

  lemma ResolvesToOwnField(reg: Registry, name: string)
    requires Built(reg) && reg.Resolve(name).Some?
    ensures NameOf(reg, name) in reg.fields
    ensures reg.fields[NameOf(reg, name)] == reg.Resolve(name).value
  {
  }

  lemma NormalizedIsNormal(reg: Registry, m: Memory)
    requires Built(reg) && NormalizeMemory(reg, m).Ok?
    ensures Normal(reg.fields, NormalizeMemory(reg, m).value)
  {
    var data := Respelled(reg, m.metadata);
    forall n | n in data ensures NormalEntry(reg.fields, n, data[n]) {
      var source := Spelling(reg, m.metadata.Keys, n);
      ResolvesToOwnField(reg, source);
      CanonicalValueFixed(m.metadata[source]);
    }
    if m.content.Preference? {
      var given := m.content.applicability;
      var conditions := RespelledConditions(reg, given);
      forall n | n in conditions ensures NormalCondition(reg.fields, n, conditions[n]) {
        var source := Spelling(reg, given.Keys, n);
        ResolvesToOwnField(reg, source);
      }
    }
  }

  lemma StoredNamesAreCanonical(reg: Registry, names: set<string>)
    requires Built(reg) && names <= reg.fields.Keys
    ensures OneSpelling(reg, names)
    ensures CanonicalNames(reg, names) == names
    ensures forall n :: n in names ==> NameOf(reg, n) == n && Spelling(reg, names, n) == n
  {
    forall n | n in names ensures NameOf(reg, n) == n {
      NamesResolveToThemselves(reg, n);
    }
    assert CanonicalNames(reg, names) == names;
  }

  lemma NormalDataIsFixed(reg: Registry, data: map<string, Value>)
    requires Built(reg) && forall n :: n in data ==> NormalEntry(reg.fields, n, data[n])
    ensures NormalizeData(reg, data, false) == Ok(data)
  {
    StoredNamesAreCanonical(reg, data.Keys);
    forall n | n in data ensures EntryOk(reg, n, data[n], false) {
      NamesResolveToThemselves(reg, n);
    }
    assert Respelled(reg, data) == data;
  }

  lemma NormalConditionsAreFixed(reg: Registry, conditions: map<string, seq<Scalar>>)
    requires Built(reg) && forall n :: n in conditions ==> NormalCondition(reg.fields, n, conditions[n])
    ensures NormalizeConditions(reg, conditions) == Ok(conditions)
  {
    StoredNamesAreCanonical(reg, conditions.Keys);
    forall n | n in conditions ensures ConditionOk(reg, n, conditions[n]) {
      NamesResolveToThemselves(reg, n);
    }
    assert RespelledConditions(reg, conditions) == conditions;
  }

  /** Normalising a stored record again, under the registry that stored it or any later one, changes nothing:
      an alias added later cannot capture a name already in use. */
  lemma NormalizeIsIdentityOnStored(fields: map<string, Field>, later: Registry, m: Memory)
    requires Extends(fields, later.fields) && Built(later) && Normal(fields, m)
    ensures NormalizeMemory(later, m) == Ok(m)
  {
    NormalUnderExtension(fields, later.fields, m);
    NormalDataIsFixed(later, m.metadata);
    if m.content.Preference? {
      NormalConditionsAreFixed(later, m.content.applicability);
    }
  }

  // ---------- registration ----------

  /** `register_metadata_field`: a definition is immutable, and a new one must not collide with any name or alias. */
  ghost function Register(reg: Registry, field: Field): Result<Registry> {
    if field.readOnly && !(field.name in reg.fields && reg.fields[field.name] == field) then Err(Schema)
    else if field.name in reg.fields && reg.fields[field.name] != field then Err(Schema)
    else if field.name in reg.fields then Ok(reg)
    else if !Free(field, reg.fields.Keys + {field.name}, reg.aliases) || field.name in reg.aliases then Err(Schema)
    else Ok(Registry(reg.fields[field.name := field],
                     reg.aliases + map a | a in field.aliases :: field.name))
  }

  /** Registering succeeds exactly on a definition the registry already has, or on a writable one whose name and
      aliases, all different, are nobody's name or alias yet. */
  lemma RegistersExactlyTheFree(reg: Registry, field: Field)
    requires Built(reg)
    ensures Register(reg, field).Ok? <==>
      || (field.name in reg.fields && reg.fields[field.name] == field)
      || (!field.readOnly && field.name !in reg.fields && field.name !in reg.aliases
          && (forall i, j :: 0 <= i < j < |field.aliases| ==> field.aliases[i] != field.aliases[j])
          && forall a :: a in field.aliases ==> a != field.name && a !in reg.fields && a !in reg.aliases)
    ensures Register(reg, field).Ok? ==>
      var after := Register(reg, field).value;
      && after.fields == reg.fields[field.name := field]
      && (forall a :: a in field.aliases ==> a in after.aliases && after.aliases[a] == field.name)
      && (forall a :: a in reg.aliases ==> a in after.aliases && after.aliases[a] == reg.aliases[a])
      && after.aliases.Keys == reg.aliases.Keys + set a | a in field.aliases
  {
  }

  lemma RegisterExtends(reg: Registry, field: Field)
    requires Built(reg) && Register(reg, field).Ok?
    ensures Built(Register(reg, field).value)
    ensures Extends(reg.fields, Register(reg, field).value.fields)
  {
    hide Claims;
    var after := Register(reg, field).value;
    if after != reg {
      RegisteredClaims(reg, field, after);
    }
  }

  lemma RegisteredClaims(reg: Registry, field: Field, after: Registry)
    requires Built(reg) && field.name !in reg.fields && field.name !in reg.aliases
    requires Free(field, reg.fields.Keys + {field.name}, reg.aliases)
    requires after == Registry(reg.fields[field.name := field], reg.aliases + map a | a in field.aliases :: field.name)
    ensures Built(after)
  {
    hide Distinct, Claims;
    AliasesLead(reg, field, after);
    FieldsClaim(reg, field, after);
    FieldsNamed(reg, field, after);
    ClaimsTogether(after);
  }

  lemma FieldsNamed(reg: Registry, field: Field, after: Registry)
    requires Built(reg) && after.fields == reg.fields[field.name := field] && Distinct(field.aliases)
    ensures forall n :: n in after.fields ==> after.fields[n].name == n && Distinct(after.fields[n].aliases)
  {
    hide Distinct;
  }

  lemma ClaimsTogether(reg: Registry)
    requires forall a :: a in reg.aliases ==> reg.aliases[a] in reg.fields && a in reg.fields[reg.aliases[a]].aliases
    requires forall n, a ::
      n in reg.fields && a in reg.fields[n].aliases ==> a in reg.aliases && reg.aliases[a] == n && a !in reg.fields
    requires forall n :: n in reg.fields ==> reg.fields[n].name == n && Distinct(reg.fields[n].aliases)
    ensures Built(reg)
  {
    hide Distinct;
  }

  lemma AliasesLead(reg: Registry, field: Field, after: Registry)
    requires Built(reg) && field.name !in reg.fields
    requires after == Registry(reg.fields[field.name := field], reg.aliases + map a | a in field.aliases :: field.name)
    ensures forall a ::
      a in after.aliases ==> after.aliases[a] in after.fields && a in after.fields[after.aliases[a]].aliases
  {
    hide Distinct;
    forall a | a in after.aliases
        ensures after.aliases[a] in after.fields && a in after.fields[after.aliases[a]].aliases {
      if a !in field.aliases { assert a in reg.aliases; }
    }
  }

  lemma FieldsClaim(reg: Registry, field: Field, after: Registry)
    requires Built(reg) && field.name !in reg.fields && field.name !in reg.aliases
    requires Free(field, reg.fields.Keys + {field.name}, reg.aliases)
    requires after == Registry(reg.fields[field.name := field], reg.aliases + map a | a in field.aliases :: field.name)
    ensures forall n, a ::
      n in after.fields && a in after.fields[n].aliases ==>
      a in after.aliases && after.aliases[a] == n && a !in after.fields
  {
    hide Distinct;
    forall n, a | n in after.fields && a in after.fields[n].aliases
        ensures a in after.aliases && after.aliases[a] == n && a !in after.fields {
      if n != field.name { assert a in reg.aliases && reg.aliases[a] == n; }
    }
  }
}
