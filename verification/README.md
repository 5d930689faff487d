# MemoryCore, verified

A Dafny 4.11 model of MemoryCore, a versioned memory store for agents, with proofs of what it promises. Four linked
components are modelled, each by the code's own operations, branches and error cases:

- **The versioned store and reconciliation.** One owner's counters, live rows, archives, field registry and audit trail, and
  the transactions on them: remembering under five reconciliation decisions, consolidation ("dreaming"), archival, field
  registration, legacy import. Writes run under BEGIN IMMEDIATE, so a transaction is one atomic step. Proved over whole
  runs: explicit rules never vanish, revisions name one payload, supersession forms disjoint finite chains, the generation
  is a version of the whole contents, and optimistic remembering is serialisable: every run of it is its requests, whole,
  in commit order.
- **The owner cache and recall.** Six posting maps, a metadata index with a lazily sorted range index, an LRU of payloads and
  the vectors of a restorable index, all updated row by row. Proved: whenever along a run it synchronises, the cache is what a
  rebuild from the stored rows gives; filters, preference matching and preference resolution mean what they say; and exactly
  when the candidate budget of a search, and the batches of historical recall, cannot be seen.
- **The maintenance protocol.** Leased jobs with token fencing, pinned dream scans with continuation jobs, proposals, reviews,
  retries, and the write-count trigger, as a state machine over any number of workers, callers and clock readings. Proved
  for every interleaving: lost leases never act, captures take effect at most once, each event causes one job, reviewed
  decisions meet exactly their state, what is stored without a review harms nothing, what is approved can be stored, scans
  neither fork nor skip, and the workers alone always come to rest with nothing left to do. Answers a task relies on stand on the content they cite.
- **The engines.** Exact and approximate vector search, the Rust conversation engine with swap-removal, top-k selection, and
  the score arithmetic over the reals.

## How it is laid out

Code that updates state is a class whose methods are proved against functions on values; theorems over runs are about those
functions. `OwnerTables` (Database), `Queue` (Queues) and the commits in Workers are the statements; Store, Reconciliation,
Dream, Jobs and Protocol are their specifications; Runs, Remember, Fencing, Effects, Reviews, Approvals, Pacing, Scans,
Quiescence and Guarantees prove what holds over runs and executions; Crowding and Incidents are runs and executions that
show what does not. `OwnerCache`, `MetadataIndex`, `Payloads`, `HnswIndex`, `VectorIndex`, `MemoryEngine`, `BatchCache` and `Ranking` are
the mutable structures of the other components; Rankings, Shortlist and Archival hold the theory of what their searches
answer. Lemmas named after a meaning say what a specification function amounts to without naming it: in the fields of the
records, case by case, or by the laws it obeys.

What the code cannot decide is a parameter: clock readings, new tokens and ids, tokenising, the embedder, the reconciler and
the planner, the nearest-neighbour search (any answer with as many distinct live labels as asked for), partial selection,
roots, powers, logarithms and reading a number back (by their defining properties). A JSON value is its canonical text, and
sha256 of canonical content is taken to be injective, so a digest is the content itself. Some records carry annotations
(`basis`, `window`, `pass`, `pins`, `advances`, `stored`, `origin`): no operation reads them; theorems are stated with them.

## Findings

Where a property turned out to hold only under a condition, the condition is exact, and the input is one the operations lead
to.

- **Historical recall shows its batches.** `recall_history` searches every 256 rows through a cache of its own, each within the
  candidate budget, and archiving moves a record behind all live ones, so into another batch. Over the states that runs reach,
  archiving cannot be seen if and only if at most 256 records are retained, or the budget covers a batch of 256, or words or
  cosines have no weight, or nothing can be answered (`Archival.RecallIgnoresArchival`; the order of rows likewise,
  `Archival.RecallIgnoresOrder`). For every other policy and limit `Archival.BatchesShow` gives a request, and a state reached
  by 257 transactions and a dream (`Crowding.FilledIsReached`), whose answer one archived record changes. With the shipped
  policy that is every limit below 37 (`Archival.DefaultsShowBatches`).
- **The candidate shortlist.** Every stored record has an embedding (`Runs.RecordsHaveEmbeddings`). On n eligible records with
  vectors a search answers as if it had scored them all, for every pool, if and only if n plus the limit is at most twice the
  budget plus one, or words or cosines have no weight, or the minimum is 1, or the limit 0 (`Shortlist.CoversExactly`).
- **A plan may merge a record into itself.** The checks pass, and the record ends active, one revision up, because the target
  is written last (`Dream.SelfMergeApplies`). No invariant is harmed (`Dream.MergeKeeps`).
- **A scan that moves on need not have less before it.** A proposal is handed over at a later state than it was planned at.
  What the scan has before it falls exactly when some record of the batch is still as it was read
  (`Scans.LiveWindowFallsExactly`), and there is an execution where none is (`Incidents.ScanMovesOnUnchanged`). What always
  falls is the number of keys ahead in the window as it was pinned, and that is the measure of
  `Quiescence.BackgroundStepsLower`.
- **The cursor can move back.** A plan applied by hand sets the owner's cursor to where that plan ends: it moves back exactly
  when that lies before it, and no worker step moves it back (`Scans.CursorMovesBackOnlyByHand`). There is an execution where
  a worker has moved it further at the plan's own generation (`Incidents.CursorMovesBack`).
- **Emptied entries stay.** `by_kind`, `by_status`, `by_project` and field presence keep empty sets where a rebuild has none
  (`Postings.EmptiedEntriesStay`); they agree key by key, not entry by entry (`Cache.CachesWithSameContentsAgree`).

## Model

| member | source | states |
|---|---|---|
| Fields.ClaimAliases | memory_core/memory/metadata.py:38-42 | one field registers its aliases exactly when none is a field name, already claimed or repeated; the table afterwards maps each to that field |
| Fields.BuildRegistry | memory_core/memory/metadata.py:35-42 | succeeds if and only if names and aliases form one collision-free namespace, and then every alias leads to the field that declares it |
| Fields.BuiltIsDetermined | memory_core/memory/metadata.py:35-52 | two registries built from the same definitions are equal, whatever order the loop took |
| Fields.NamesResolveToThemselves | memory_core/memory/metadata.py:44-52 | an alias never shadows a stored field name |
| Fields.Normalize | memory_core/memory/metadata.py:68-82 | equals the order-free specification: refused exactly on an unknown or forbidden field, a wrong type or two spellings of one field |
| Fields.NormalizeAlternatives | memory_core/memory/service.py:252-266 | applicability conditions: refused exactly on an empty list, an unknown field, a wrong type or two spellings |
| Fields.NormalizeRecord | memory_core/memory/service.py:248-269 | the whole record, metadata then applicability |
| Fields.AcceptedDataMeaning | memory_core/memory/metadata.py:68-82 | accepted if and only if every name is a writable field's own or an alias, its value of the field's type, and no field spelled twice |
| Fields.NormalizedDataMeaning | memory_core/memory/metadata.py:68-82 | each field named, and no other, carries its value: a scalar as it was, a list as the same texts sorted without repeats |
| Fields.AcceptedConditionsMeaning | memory_core/memory/service.py:252-266 | conditions are accepted if and only if every name is a field's own or an alias, no field spelled twice, with at least one alternative and each of the field's type |
| Fields.NormalizedConditionsMeaning | memory_core/memory/service.py:252-266 | conditions are only respelled: their alternatives stay as they were |
| Fields.NormalizedRecordMeaning | memory_core/memory/service.py:248-269 | a record is normalised in its metadata and, if a preference, in its conditions, and nowhere else |
| Fields.NormalizedIsNormal | memory_core/memory/service.py:248-269 | what comes out is spelled in the registry's own names with canonical values |
| Fields.NormalMeaning | memory_core/memory/metadata.py:53-82 | what is stored has a value of its declared type under every field, lists sorted, and at least one alternative of the field's type in every condition |
| Fields.NormalizeIsIdentityOnStored | memory_core/memory/metadata.py:68-82 | normalising a stored record again, under any later registry, changes nothing: no alias added later captures a name in use |
| Fields.RegisterExtends | memory_core/memory/catalog.py:49-78 | a registration keeps the namespace collision-free and every earlier definition unchanged |
| Fields.RegistersExactlyTheFree | memory_core/memory/catalog.py:49-78 | a definition is accepted if and only if it is registered already, or writable with a name and aliases, all different, that are nobody's yet; then its aliases lead to it and no other changes |
| Store.LaterTransitive | memory_core/memory/store.py:133-174 | the relation "every difference carries a newer generation, and an equal generation means equal contents" composes |
| Store.LinkedAfterInsert | memory_core/memory/reconciliation.py:118-150 | a successor may point at a superseded record nobody points at yet; links stay injective and lead to superseded records |
| Store.AcyclicAfterInsert | memory_core/memory/reconciliation.py:118-150 | a new link closes no cycle |
| Store.ReviseKeeps | memory_core/memory/store.py:162-174 | writing a record's next version keeps every invariant of the store and carries every record forward |
| Store.InsertKeeps | memory_core/memory/store.py:162-174 | so does inserting a new record |
| Reconciliation.AdmitsExactlyTheSuitable | memory_core/memory/reconciliation.py:50-104 | the nested checks admit a decision if and only if its id is new and, for an existing target, the target is served, allowed, active, at the expected revision and fit for that decision |
| Reconciliation.DecisionsSettle | memory_core/memory/reconciliation.py:105-153 | what each decision leaves of the target, whole: status, one revision up, updated now, the embedding it had, the new generation, and for evidence the sorted union of sources; and of the newcomer; in one generation with one audit entry, and no other row changed |
| Reconciliation.AuditNames | memory_core/memory/reconciliation.py:105-116 | each decision has a name of its own in the audit trail |
| Reconciliation.AppliedKeeps | memory_core/memory/reconciliation.py:105-153 | every applied decision leads to a well-formed later state |
| Reconciliation.AppliedTouches | memory_core/memory/reconciliation.py:105-153 | only the target's and the new record's rows differ, and the target is revised once |
| Reconciliation.AppliedKeepsRule | memory_core/memory/reconciliation.py:64-80 | no decision takes an explicit rule out of force; superseding one takes another explicit statement of the same rule |
| Dream.PrefixError | memory_core/memory/dream.py:240-331 | the first failing change decides the outcome of the whole loop |
| Dream.UntouchedReadsAgree | memory_core/memory/dream.py:248-254 | reading through the cache or through the transaction agrees for ids not yet touched, which is what the disjointness check is for |
| Dream.MergeKeeps | memory_core/memory/dream.py:272-307 | retiring an exact duplicate keeps every invariant, also when source and target are the same record |
| Dream.MergeSettles | memory_core/memory/dream.py:272-307 | the whole rows a merge leaves: source superseded, target with the sources of both, each one revision up, updated now and with the embedding it had |
| Dream.MergesOnlyDuplicates | memory_core/memory/dream.py:255-271 | a change to an existing record is applied if and only if it attaches that record, as stored and scanned, to an active candidate at the revision named, with the same scope, status, summary, metadata and content, neither touched before |
| Dream.SelfMergeApplies | memory_core/memory/dream.py:255-307 | a plan that merges a scanned record into itself passes the checks, and the record ends active, one revision on |
| Dream.PlanKeeps | memory_core/memory/dream.py:219-341 | an applied plan leads to a well-formed later state, counts no write, moves no cursor and raises each revision by at most one |
| Dream.PlanKeepsRule | memory_core/memory/dream.py:255-331 | an applied plan takes no explicit rule out of force |
| Dream.PlanStatesNothing | memory_core/memory/dream.py:318-322 | whatever a planner proposes, no record a plan adds is an explicit statement |
| Dream.PlanAddsWhatItProposes | memory_core/memory/dream.py:308-331 | every record a plan adds is one it proposes, normalised, with its vector; only provenance, status and link may differ |
| Planner.PlanDuplicates | memory_core/memory/dream.py:130-150 | every change retires a scanned record into an exactly equivalent neighbour with a smaller id, no id takes part twice, and a duplicate pair is left only where one of the two was taken |
| Planner.RetirementMeaning | memory_core/memory/dream.py:134-150 | field by field: of the two records that say the same, the one with the smaller id stays, named at the revision read |
| Planner.LeftAloneMeaning | memory_core/memory/dream.py:134-150 | field by field: a pair it could have planned is left only where one of the two already takes part |
| Planner.MergeConservesEvidence | memory_core/memory/dream.py:284-307 | merging two equivalent records keeps the union of sources over that content |
| Planner.PlannerAgreesWithValidator | memory_core/memory/dream.py:130-341 | at the generation it was computed from, every plan of the built-in planner passes all checks and loses no source of any active content |
| Runs.CommitIsSound | memory_core/memory/store.py:62-85 | every committed transaction leads to a well-formed later state and raises each revision by at most one |
| Runs.CommitKeepsRule | memory_core/memory/reconciliation.py:64-80 | no transaction of any kind takes an explicit rule out of force |
| Runs.ExplicitRulesNeverVanish | memory_core/memory/reconciliation.py:131-151 | over whole runs, a rule once stated is stated by some live, non-superseded explicit preference in every later state |
| Runs.GenerationDeterminesContents | memory_core/memory/store.py:132-147 | two states of a run with the same generation have the same rows, archives, fields and audit |
| Runs.RunAdvances | memory_core/memory/store.py:133-174 | any earlier state relates to any later one as one transaction does |
| Runs.RevisionNamesOnePayload | memory_core/memory/reconciliation.py:117-153 | each (id, revision) has one payload for all time |
| Runs.RetiredRecordsNeverChange | memory_core/memory/reconciliation.py:50-54 | superseded and disputed are terminal |
| Runs.IdsAreNeverReused | memory_core/memory/store.py:149-159 | an id once taken is refused for ever, archived or not |
| Runs.RetentionIsTransparent | memory_core/runtime/retention.py:47-78 | archiving changes neither what historical recall reads nor what a cache serves |
| Runs.RecordsHaveEmbeddings | memory_core/memory/reconciliation.py:105-153 | in every state of a run every record, live or archived, has an embedding |
| Runs.CommitKeepsEmbeddings | memory_core/memory/reconciliation.py:118-153 | no transaction of any kind changes the embedding of a record that is stored, live or archived |
| Runs.EmbeddingsNeverChange | memory_core/memory/reconciliation.py:141-153 | over whole runs, a record keeps the embedding it was stored with, through revision, supersession, dispute, merge and archival |
| Runs.ArchivesOnlyTheExpired | memory_core/runtime/retention.py:47-78 | a page archives only superseded records last updated before the cutoff, payload and embedding as they were, at most the limit, the oldest first, and all of them if there are fewer |
| Runs.AcceptsExactlyTheNew | memory_core/memory/service.py:330-350 | a record is accepted if and only if it can be normalised and is new, active, at revision 1 and succeeds nothing |
| Runs.ImportAddsOneRecord | memory_core/memory/migration.py:115-131 | an import adds the normalised record as one write, refused exactly on a taken id or a record that cannot be normalised |
| Runs.RegistrationTouchesNoRecord | memory_core/memory/catalog.py:49-78 | registering a field touches no record and counts no write; registering it again does nothing |
| Runs.ChainsAreFinite | memory_core/memory/reconciliation.py:131-140 | supersession has no cycle, and no chain is longer than the number of records |
| Runs.ChainsNeverMerge | memory_core/memory/reconciliation.py:131-140 | chains ending in the same record coincide from the end: supersession forms disjoint chains |
| Remember.Default | memory_core/memory/service.py:384-391 | creates exactly when no neighbour is structurally equivalent, and otherwise attaches to one that is |
| Remember.InspectionMeaning | memory_core/memory/service.py:330-383 | what a client is shown: active records of the user or of the record's own project, as stored, and one that says exactly the same whenever there is one |
| Remember.TargetsAreInReach | memory_core/memory/service.py:393-423 | a commit acts only on an active record of the user or of that project, at the revision named, and without an explicit decision only on a neighbour shown |
| Remember.FinishIsAtomic | memory_core/memory/service.py:393-423 | a commit that passes the generation check is the whole operation run at the state it commits to |
| Remember.StepIsSerial | memory_core/memory/service.py:325-423 | step by step: an inspection changes nothing, a finish either changes nothing or performs that client's own request as a whole at the store it commits to, anything else is its own transaction |
| Remember.InterleavingsAreSerial | memory_core/memory/service.py:325-423 | in any interleaving of any number of clients and other transactions, the final store is reached by running the committed requests, each client's own with a decision that may be taken there, and the other transactions one after another in commit order; an inspection and a failed finish change nothing |
| Remember.DefaultNeverDuplicates | memory_core/memory/service.py:352-363 | left to itself, remembering never stores a second active record with content already held |
| Database.OwnerTables.Bump | memory_core/memory/store.py:132-147 | the statements make the new state the specification names |
| Database.OwnerTables.Put | memory_core/memory/store.py:161-174 | likewise for one row |
| Database.OwnerTables.ApplyReconciliation | memory_core/memory/reconciliation.py:42-153 | equals the decision's specification; a refusal changes nothing |
| Database.OwnerTables.MergeDuplicate | memory_core/memory/dream.py:272-307 | source then target, in one generation |
| Database.OwnerTables.ApplyChange | memory_core/memory/dream.py:241-331 | one iteration of the loop against its specification |
| Database.OwnerTables.ApplyPlan | memory_core/memory/dream.py:235-344 | the loop over the changes and the closing bump, or no change at all |
| Database.DreamTable.ApplySaved | memory_core/memory/dream.py:180-359 | an unknown, applied or stale plan is refused; otherwise changes, mark and, unless the worker moves its own scan on, the cursor commit together, or nothing does |
| Database.OwnerTables.ArchiveSuperseded | memory_core/runtime/retention.py:54-78 | moves exactly the selected page, one generation, payload and embedding unchanged |
| Postings.InverseIsDetermined | memory_core/memory/cache.py:152-175 | an exact posting map without empty entries is unique, so upkeep and rebuild cannot differ |
| Postings.EmptiedEntriesStay | memory_core/memory/cache.py:162-164 | discarding the last id of an entry leaves an empty set a rebuild does not have, though no key can tell |
| Metadata.ChecksShapeAndDepth | memory_core/memory/metadata.py:84-104 | a filter is refused if and only if the nesting exceeds eight or some condition names no field or asks of one what its type does not allow, type by type: equality only with a value of that type, ranges of numbers, containment of lists |
| Metadata.NestingMeaning | memory_core/memory/metadata.py:84-90 | all and any nest alike: one deeper than the deepest condition they join |
| Metadata.AllLaws | memory_core/memory/metadata.py:149-153 | conditions joined by all hold together, in whatever groups; no condition holds always |
| Metadata.AnyLaws | memory_core/memory/metadata.py:149-153 | conditions joined by any hold singly, in whatever groups; no condition never holds |
| Metadata.PresenceLaws | memory_core/memory/metadata.py:154-177 | an absent field meets no condition; a present one exists and meets equality with its own value only |
| Metadata.EqualityLaws | memory_core/memory/metadata.py:172-177 | being one of several values is being equal to one of them, and a number is the range of itself |
| Metadata.RangeLaws | memory_core/memory/metadata.py:158-170 | a range is its two bounds, each of them inclusive, and a weaker bound holds wherever a stronger one does |
| Metadata.ListLaws | memory_core/memory/metadata.py:171-177 | containing any of several texts is containing one of them, containing all is containing each, and containing none of them still means being a list |
| Metadata.AnyMeaning | memory_core/memory/metadata.py:171-177 | joining the postings of the keys sought gives exactly the records that hold one of them |
| Metadata.RangeMeaning | memory_core/memory/metadata.py:156-170 | bisecting the sorted numbers and joining their postings gives exactly the records within the bounds |
| Metadata.ContainsAllMeaning | memory_core/memory/metadata.py:173-176 | an empty list matches present arrays only; otherwise all texts must be held |
| Metadata.SortNumbers | memory_core/memory/metadata.py:157-158 | the numbers posted under a field, ascending, each once |
| Metadata.MetadataIndex.Remove | memory_core/memory/metadata.py:121-131 | postings, presence and sorted lists stay exact; the record is gone from all of them |
| Metadata.MetadataIndex.Upsert | memory_core/memory/metadata.py:133-140 | they stay exact with the record's new metadata in place of the old |
| Metadata.MetadataIndex.Select | memory_core/memory/metadata.py:146-177 | returns exactly the ids of the universe whose metadata satisfies the filter, for any nesting of all and any |
| Metadata.MetadataIndex.SelectChecked | memory_core/memory/metadata.py:142-144 | the same for a checked filter; a refused one raises |
| Residency.UseMeaning | memory_core/memory/payloads.py:31-46 | a use puts its id last, and costs at most the one used longest ago, when the cache is full of others |
| Residency.UsedKeepsNewest | memory_core/memory/payloads.py:31-46 | evicting the oldest as the cache fills equals keeping the newest of an unbounded use order |
| Residency.ResidentAreTheLastUsed | memory_core/memory/payloads.py:31-46 | after any lookups the resident payloads are those of the last `capacity` distinct ids used |
| Residency.Payloads.Get | memory_core/memory/payloads.py:31-46 | returns the stored payload whatever was evicted, and never holds more than its capacity |
| Residency.Payloads.Set | memory_core/memory/payloads.py:48-50 | a changed row drops its resident payload |
| Residency.Payloads.Delete | memory_core/memory/payloads.py:52-54 | so does a removed one |
| Cache.ResyncIsRebuild | memory_core/memory/cache.py:72-94 | contents exact at an earlier state, patched by newer rows and archives, are those of a rebuild |
| Cache.ResyncVectorsIsRebuild | memory_core/memory/cache.py:133-138 | the same for the vectors |
| Cache.ServedMeaning | memory_core/memory/cache.py:72-94 | a cache serves exactly what the operations read: the active and the disputed rows |
| Cache.RestoreReplayIsRebuild | memory_core/memory/service.py:116-144 | vectors restored from an earlier snapshot, patched by newer rows and pruned to live ids, are those of a rebuild |
| Cache.CountDecides | memory_core/memory/cache.py:180-197 | as many fields met as the condition has means the condition holds |
| Cache.OwnerCache.UpdateRows | memory_core/memory/cache.py:96-138 | all indexes stay exact for the patched contents |
| Cache.OwnerCache.DiscardRecord | memory_core/memory/cache.py:152-174 | the record leaves every index, and no emptied entry stays where the source deletes it |
| Cache.OwnerCache.Sync | memory_core/memory/cache.py:72-94 | contents and vectors become what the newer rows and archives make of them |
| Cache.OwnerCache.Refresh | memory_core/memory/service.py:129-141 | from nothing, from an earlier state or from restored vectors, the cache ends exact for the committed state |
| Cache.OwnerCache.Eligible | memory_core/memory/cache.py:199-201 | exactly the served records in scope, active if asked |
| Cache.OwnerCache.Select | memory_core/memory/service.py:288-289 | exactly the served records whose own and system fields satisfy the filter; a malformed filter is refused |
| Cache.KindsSelect | memory_core/memory/cache.py:124-127 | filtering by kind selects exactly the preferences, decisions, observations or procedures, as named, and nothing for any other name |
| Cache.StatusesSelect | memory_core/memory/cache.py:124-127 | filtering by status selects exactly the active, superseded or disputed records, as named, and nothing for any other name |
| Cache.OtherFieldsSelect | memory_core/memory/cache.py:124-127 | any other condition reads the record's own metadata |
| Cache.EquivalentsMeaning | memory_core/memory/cache.py:140-151 | the index of equivalents finds exactly the active records with the same scope, status, summary, metadata and content |
| Cache.WordsMeaning | memory_core/memory/cache.py:140-151 | the lexical index finds exactly the records with a word in their summary |
| Cache.ScopesMeaning | memory_core/memory/cache.py:199-201 | the status and project indexes find exactly the records of a status, and of a project or the user's own |
| Cache.OwnerCache.Recall | memory_core/memory/payloads.py:31-46 | `cache.memories[id]` is the stored record |
| Cache.OwnerCache.MatchingPreferences | memory_core/memory/cache.py:180-197 | equals the naive scan: AND over fields, OR over values, in scope |
| Cache.AppliesMeaning | memory_core/memory/cache.py:180-197 | a preference applies when each field of its condition is present with one of its alternatives, as its value or among its values |
| Cache.CachesWithSameContentsAgree | memory_core/memory/cache.py:37-70 | two caches with the same contents are equal index for index, however each was built: headers, word, content and preference postings, metadata postings and values exactly; kinds, statuses, projects and field presence key by key; sorted numbers wherever both hold them; vectors once both are synchronised |
| Syncing.SyncsAtAnyPointsAreRebuilds | memory_core/memory/cache.py:72-174 | over any run of commits, a cache synchronised at arbitrary points holds what a cache built from scratch would |
| Syncing.RestartIsRebuild | memory_core/memory/service.py:155-195 | a process restarted from vectors saved anywhere earlier in the run ends with the vectors of a rebuild |
| Preferences.Narrow | memory_core/memory/preferences.py:28-34 | what stays relevant within one key: explicit before inferred, disputes kept, project before global |
| Preferences.Resolve | memory_core/memory/preferences.py:24-41 | the response is exactly what the precedence rules say, each memory once, in key order |
| Preferences.EachKeyOnce | memory_core/memory/preferences.py:24-41 | every matching key is decided or in conflict, never both and never neither |
| Preferences.EffectiveAgree | memory_core/memory/preferences.py:35-41 | what is decided carries one value per key and no dispute |
| Preferences.NothingIsLost | memory_core/memory/preferences.py:24-41 | a matching preference that is not shown is outranked by a rule of its own key that takes part itself, some rule of that key is shown, and nothing outside the matches is |
| Preferences.ShownMeaning | memory_core/memory/preferences.py:28-34 | what is shown of a key: explicit statements and disputes, or everything if nothing was stated; of those the project's, or everything if there are none |
| Preferences.DecidedMeaning | memory_core/memory/preferences.py:35-41 | a key is decided if and only if everything shown for it agrees and none of it is disputed |
| Preferences.ResolvePreferences | memory_core/memory/preferences.py:16-44 | the whole operation over a cache: every matching in-scope preference takes part |
| Scores.CauchySchwarz | src/lib.rs:302-315 | the inequality behind the cosine, by induction |
| Scores.CosineSimilarity | src/lib.rs:302-315 | one pass computes the cosine over the common length: within [-1, 1], times both norms the product, 0 for a zero vector |
| Scores.NewWeights | src/lib.rs:58-88 | refused exactly on a weight that is not finite or is negative, or a half-life that is not finite or not positive; accepted weights are the ones given, the half-life in seconds |
| Scores.ScoreBounds | src/lib.rs:90-102 | every term of the weighted score is bounded by its weight |
| Scores.ScoreMonotone | src/lib.rs:90-102 | a newer, weightier, more often used trace never scores lower at the same similarity |
| Scores.EachSignalByItsWeight | src/lib.rs:90-102 | scores of equally old traces differ by each weight times the difference of its own signal |
| Scores.HalfLifeHalves | src/lib.rs:90-102 | one half-life halves what recency contributes |
| Scores.FutureIsNew | src/lib.rs:90-102 | a trace from the future counts as new |
| Scores.HybridInUnit | memory_core/memory/cache.py:219-228 | the hybrid score lies in [0, 1] |
| Scores.HybridIsWeightedMean | memory_core/memory/cache.py:219-228 | it is the weighted mean of the positive part of the cosine and the share of the query's words |
| Ordering.ScoreCmpDesc | src/ranking.rs:9-16 | case by case: NaN last, then the order of numbers with the infinities at its ends and -0.0 directly below 0.0; ties only between equal scores |
| Ordering.BeforeTrichotomy | src/lib.rs:366-370 | score, recency and id form a total order |
| Ordering.BeforeMeaning | src/lib.rs:365-371 | the higher score first, at equal scores the newer, at equal times the id that is smaller at the first difference |
| Ordering.BelowMeaning | memory_core/memory/cache.py:229-232 | the recursive comparison of texts is the comparison at their first difference |
| Ordering.SortedUnique | src/ranking.rs:22-35 | the sorted permutation is unique, so storage order cannot show |
| Ordering.BestFolds | memory_core/indexing/semantic.py:96-104 | keeping the best k between batches gives the global best k |
| Ordering.CanonicalFixed | memory_core/memory/metadata.py:79-81 | a list already sorted without repeats is left alone |
| Ordering.FirstKeysIsSegment | memory_core/memory/dream.py:51-64 | a limited page is an initial segment of the scan order |
| Ordering.KeyMeaning | memory_core/memory/dream.py:51-64 | the scan order: by generation, then by the id that is smaller at the first difference |
| Rankings.TopOfPart | src/ranking.rs:22-35 | dropping candidates that are not among the best k changes nothing |
| Shortlist.ShortlistIsExact | memory_core/memory/cache.py:203-233 | answering from the shortlist is answering from every eligible record whenever eligible records plus limit are at most twice the budget plus one, or words have no weight, or nothing can exceed the minimum, or cosines have no weight and every eligible record has a vector |
| Shortlist.CoversExactly | memory_core/memory/cache.py:207-219 | that condition is exact: a policy and a limit answer in full on every pool of at most n eligible records with vectors if and only if they meet it |
| Shortlist.ReachOfTheBudget | memory_core/memory/cache.py:206-218 | with both weights in play: if and only if n plus the limit is at most one more than twice the floor, or than twice the limit times the multiplier |
| Shortlist.FullAnswerMeaning | memory_core/memory/cache.py:219-233 | scoring everything answers every candidate above the minimum, up to the limit, the higher score first and at equal scores the smaller id |
| Shortlist.AnswerIsScored | memory_core/memory/cache.py:219-233 | every score returned is the true hybrid score of an eligible record, above the minimum and at most 1; the answer is sorted and within the limit |
| Search.Ranking.TopK | src/ranking.rs:22-35 | partial selection, truncation and a sort give the prefix of the full sort |
| Search.NormalizedHasUnitNorm | src/vector_index.rs:8-22 | a stored vector has norm one, or is an allowed zero vector |
| Search.NormalizedKeepsDirection | src/vector_index.rs:8-22 | refused exactly on a wrong length or a zero vector where none is allowed; otherwise the embedding is a positive multiple of what is stored |
| Search.UnitProducts | src/vector_index.rs:78-80 | the product of two stored vectors is a cosine in [-1, 1] |
| Search.VectorIndex.Upsert | src/vector_index.rs:45-55 | a refused vector changes nothing |
| Search.VectorIndex.Remove | src/vector_index.rs:56-64 | removes exactly one id and says whether it was there |
| Search.VectorIndex.Search | src/vector_index.rs:65-89 | the k best of the stored vectors among the ids; refused exactly when the query cannot be normalised |
| Search.AnswerIgnoresOrder | src/vector_index.rs:76-88 | for distinct ids the answer does not depend on their order, and is complete |
| Search.BestIsAnswer | src/vector_index.rs:65-89 | the exact index meets the contract every backend is used under |
| Search.CountWords | memory_core/memory/cache.py:210-214 | counts by posting equal the words each record shares with the query |
| Search.SearchIndexes | memory_core/memory/cache.py:203-233 | over any index within its contract, the answer is the best of the eligible records that the first answer named or that have most query words |
| Search.HybridSearch | memory_core/memory/cache.py:203-233 | the same over the indexes of an owner's cache |
| Search.ExactBackendAnswers | memory_core/memory/cache.py:208 | over the exact index the first answer is the best cosines within the budget, so the search is determined |
| Search.CoveredSearchIgnoresBackend | memory_core/memory/cache.py:203-233 | with a budget that covers the eligible ids, whatever two indexes answer first, each within its contract, the searches are equal, and equal to scoring every eligible record |
| Search.CoveredSearchIsExact | memory_core/memory/cache.py:203-233 | over the exact index, the search over an owner's unit vectors equals scoring every eligible record whenever the shortlist of that pool suffices, and every score lies above the minimum and at most 1 |
| Hnsw.HnswIndex.Upsert | memory_core/indexing/semantic.py:62-85 | a vector of the wrong dimension or of norm zero is refused and changes nothing; any other is stored normalised under its old label or the next one, in a bijection onto 0..n-1 within a capacity that doubles when full |
| Hnsw.HnswIndex.Remove | memory_core/indexing/semantic.py:87-94 | exactly that id stops being searchable; labels stay |
| Hnsw.HnswIndex.Compact | memory_core/indexing/semantic.py:142-154 | relabelling in blocks of 256 keeps every searchable vector and the bijection, leaves no deleted label, numbers in id order, and makes room for twice the active vectors |
| Hnsw.HnswIndex.TakeSnapshot | memory_core/indexing/semantic.py:140-168 | compacts exactly when more than 32 labels and a fifth of them are deleted; changes nothing a search can see, and its manifest describes its graph |
| Hnsw.HnswIndex.Restore | memory_core/indexing/semantic.py:170-190 | another version, a damaged graph or labels that are not the graph's are refused and change nothing; a genuine snapshot brings back the vectors it was taken with |
| Hnsw.HnswIndex.ExactSearch | memory_core/indexing/semantic.py:96-104 | the fold over blocks of 1024 equals the global top k |
| Hnsw.HnswIndex.Find | memory_core/indexing/semantic.py:106-138 | refused exactly when the query cannot be normalised; otherwise terminates with exactly min(k, eligible) distinct eligible ids in order: exact exactly when few are eligible, else the best of the eligible neighbours asked for, or exact after all if at the ceiling too few of those are eligible |
| History.RecallHistory | memory_core/memory/history.py:12-41 | a refused filter raises; otherwise each batch of 256 is searched within its candidate budget, over exactly the records in scope, status and filter, and the answers are merged and cut after each |
| History.WantedMeaning | memory_core/memory/history.py:27-38 | recall filtered by kind or status wants exactly the records of that kind or status, in the user's scope or the project asked for, of a status asked for |
| History.UnfilteredMeaning | memory_core/memory/history.py:15-38 | an unfiltered recall wants every record of the user's scope or the project asked for, of a status asked for |
| History.RecallIsExact | memory_core/memory/history.py:22-41 | while the budget covers what each batch holds of the wanted records, recall answers with the best of all wanted records, scored without any budget |
| History.OneBatchIsOneSearch | memory_core/memory/history.py:22-41 | up to 256 rows the recall is one search |
| Archival.RecallIgnoresArchival | memory_core/memory/history.py:15-41 | over all states that runs reach with at most n retained records: archiving cannot be seen in recall if and only if n is at most 256, or the budget covers 256 eligible records, or only words or only cosines have weight, or nothing can be answered |
| Archival.RecallIgnoresOrder | memory_core/memory/history.py:15-41 | the same condition decides whether the order in which the rows of a table come can be seen |
| Archival.BatchesShow | memory_core/memory/history.py:22-41 | for every policy and limit beyond the condition: a state some run reaches, and a request whose answer archiving one record changes |
| Crowding.FilledIsReached | memory_core/memory/dream.py:255-341 | that state is reached by 257 records remembered in transactions of their own and a dream that merges one of them into another |
| Archival.DefaultsShowBatches | memory_core/memory/models.py:178-184 | with the shipped retrieval policy and more than 256 retained records, it holds exactly for limits of 37 and more |
| Knowledge.CitationsReadBack | memory_core/runtime/knowledge.py:54-58 | the id given to recalled evidence leads back to the memory and revision it was made from, whatever colons the id contains |
| Knowledge.DecimalIsTheNumber | memory_core/runtime/knowledge.py:54-58 | the revision in a citation is written in decimal, without leading zeros |
| Knowledge.PrefixDecides | memory_core/runtime/knowledge.py:54-58 | an id without the prefix cites nothing of the store, and one with the prefix but no further colon is malformed |
| Knowledge.IsFresh | memory_core/runtime/knowledge.py:34-45 | resolved, and every piece of evidence neither from the future nor older than the gap allows, in the same unit |
| Knowledge.IsCurrent | memory_core/runtime/knowledge.py:48-71 | fresh, and every citation of a memory names a live, active row at the revision cited; a malformed citation does not stand |
| Knowledge.StandsMeaning | memory_core/runtime/knowledge.py:34-71 | an answer stands if and only if it is resolved, none of its evidence is from the future or too old, none malformed, and each memory cited is live and active at the revision cited |
| Knowledge.AssertGaps | memory_core/runtime/core.py:309-319 | passes exactly when every gap of the task has a current answer |
| Knowledge.Unchanged | memory_core/runtime/knowledge.py:193-215 | an answer is recorded only if none of the memories it was given changed since they were recalled; memories with one citation are one version of one record |
| Knowledge.CurrentAnswersStandOnCitedContent | memory_core/runtime/knowledge.py:48-71 | over whole runs, an answer that passes as current stands on exactly what its citations named when they were made |
| Knowledge.StaleAnswersStayStale | memory_core/runtime/knowledge.py:34-71 | over whole runs, an answer that stood and stands no more never does again, whatever is stored and however long one waits |
| Engine.Tokenize | src/lib.rs:183-197 | one pass over the characters yields exactly the maximal alphanumeric runs, lowered, in order |
| Engine.TokensKeepLetters | src/lib.rs:183-197 | no letter is lost, added or moved, and there is one token for each place where a letter follows none |
| Engine.PostingsMeaning | src/lib.rs:204-225 | the tag index finds the traces with a tag of that normal form, the keyword index those with a word of their summary, the user index a user's own |
| Engine.MemoryEngine.Link | src/lib.rs:204-213 | all three indexes stay exact with the slot added |
| Engine.MemoryEngine.Unlink | src/lib.rs:216-225 | and with the slot removed, leaving no empty set |
| Engine.MemoryEngine.Ingest | src/lib.rs:229-264 | accepted exactly on a fitting dimension and importance; replaces or adds one trace; a rejected trace changes nothing |
| Engine.MemoryEngine.MarkAccessed | src/lib.rs:266-275 | raises one count by one, up to the 32-bit maximum, and nothing else |
| Engine.MemoryEngine.RemoveTrace | src/lib.rs:278-296 | swap-removal keeps slots, indexes and dimension exact and removes exactly that trace |
| Engine.SearchCandidates | src/lib.rs:322-373 | refused exactly on a query of the wrong dimension; otherwise the user's own traces, each once with its weighted score, as many as there are up to the limit, and of any two the one with the higher score, at equal scores the newer, at equal times the smaller uid is answered whenever the other is, and earlier |
| Engine.SameViewSameAnswer | src/lib.rs:322-373 | two engines holding the same traces give the same result, whatever their slots, hash order and history |
| Engine.CandidatesAreScored | src/lib.rs:347-373 | every candidate is a trace of the user with its true score, within what the weights allow, and the result is sorted and within the limit |
| Engine.RankPool | src/lib.rs:349-372 | the search for any rating, NaN included: refused on a wrong dimension, otherwise the best of the user's traces |
| Engine.NanComesLast | src/lib.rs:365-371 | whatever the ratings: a trace rated NaN comes after every trace rated a number, and is answered only if all of those are |
| Jobs.BackoffGrows | memory_core/runtime/queue.py:259-268 | retries wait longer each time, never more than an hour |
| Pacing.BackoffDoubles | memory_core/runtime/queue.py:259-268 | the first retry waits the retry time, each next one twice as long as the last, up to an hour |
| Pacing.BackoffGrowsStrictly | memory_core/runtime/queue.py:259-268 | below the cap every retry waits strictly longer than the last |
| Pacing.RetryWaits | memory_core/runtime/queue.py:247-268 | a worker that gives up leaves its job failed on the last attempt, and otherwise pending until the wait is over; its proposal is dropped |
| Pacing.RetryStartsOver | memory_core/runtime/core.py:391-411 | a retry by hand takes a failed, proposed or rejected job and leaves it pending at once, without attempts, result, token or lease |
| Pacing.LeaseLasts | memory_core/runtime/queue.py:188-225 | a lease is held from its step on for exactly the lease time, and counts as one attempt |
| Pacing.LeaseNeverStolen | memory_core/runtime/queue.py:171-187 | a job is leased only while attempts remain, and only when it is due or its last lease has run out: no one holds it then |
| Pacing.SoonestIsTaken | memory_core/runtime/queue.py:171-187 | waiting jobs are taken in the order in which they become due, and by id when they become due together |
| Pacing.SweepFailsTheExhausted | memory_core/runtime/queue.py:158-170 | sweeping fails exactly the running jobs whose last lease has run out, and touches no other |
| Pacing.HeldUntilItRunsOut | memory_core/runtime/queue.py:152-187 | while a lease lasts, neither sweeping nor another claim touches its job |
| Pacing.WritesMakeDreamsDue | memory_core/runtime/queue.py:140-150 | in every execution, after every stored capture and remembered record: past the write threshold some dream job waits or runs, and a new one is made only then and only if none did |
| Pacing.ScanGoesOn | memory_core/runtime/dreams.py:36-84 | while records of the window remain, one new job takes the window over from the plan's cursor and no write is accounted for; at its end exactly the writes it began with are, and the trigger runs |
| Pacing.DreamEnds | memory_core/runtime/worker.py:117-126 | a dream ends done with its plan marked applied, or proposed, not approved, with the plan and its generation; either way its lease is over |
| Pacing.CaptureEnds | memory_core/runtime/worker.py:117-126 | a capture ends done with the id it stored or added evidence to, or proposed with the proposal as computed; either way its lease is over |
| Pacing.CaptureIsDue | memory_core/runtime/queue.py:92-138 | a new event makes exactly one job, due at once, that carries exactly the report |
| Pacing.HandPlansRead | memory_core/memory/dream.py:46-73 | a plan by hand reads the oldest of what the scan has before it, and only if there is nothing, the oldest of everything again |
| Pacing.ByHandAccounts | memory_core/memory/dream.py:342-359 | a plan applied by hand takes the cursor to where it ended, accounts for the writes it was made at, and leaves jobs alone |
| Queues.Queue.Capture | memory_core/runtime/queue.py:109-138 | a replay gets the same job, different content or an archived event is refused, a new event makes one job |
| Queues.Queue.CaptureFinding | memory_core/runtime/core.py:287-307 | a replay is recognised by content, whenever it happens, and changes nothing; an archived event or a closed task is refused; a new event makes one job |
| Queues.Queue.ScheduleDream | memory_core/runtime/queue.py:140-150 | one dream job at most waits, and only past the write threshold |
| Queues.Queue.Claim | memory_core/runtime/queue.py:152-209 | exhausted leases fail, then the first ready job in (available, id) order is leased for the lease time under the new token, one attempt up, or none is ready |
| Queues.Queue.Finish | memory_core/runtime/queue.py:211-245 | only under a live lease with the current token |
| Queues.Queue.Fail | memory_core/runtime/queue.py:247-268 | a worker that lost its lease changes nothing; otherwise the job is requeued or failed without a result |
| Queues.Queue.Review | memory_core/runtime/core.py:351-389 | only a proposed job, and acceptance only at the recorded generation; decision, generation or plan stay, the result says approved exactly on acceptance, and the job is pending or rejected |
| Queues.Queue.Retry | memory_core/runtime/core.py:391-411 | only failed, proposed or rejected jobs, with everything reset |
| Queues.Queue.ScanFor | memory_core/runtime/dreams.py:8-33 | the window is pinned once; a retry or restart gets the same one |
| Queues.Queue.Advance | memory_core/runtime/dreams.py:36-84 | equals the specification: continue or account, once per job, the cursor forward only |
| Workers.CommitDream | memory_core/runtime/worker.py:254-270 | the saved plan is applied and marked, the job acknowledged under its lease and the scan moved on in one transaction, or nothing changes |
| Workers.OfferDream | memory_core/runtime/worker.py:117-126 | a proposal is handed over and the scan moved on together, under the lease |
| Workers.CommitCapture | memory_core/runtime/worker.py:171-209 | generation, decision, trigger, lease, permission and acknowledgement in one transaction: stored exactly when policy, neighbours, decision and approval permit it; otherwise rolled back, and a proposal records the generation before the rolled-back bump; which error on refusal |
| Fencing.StepKeeps | memory_core/runtime/queue.py:152-268 | every step keeps running equal to having a token, pending below the maximum, results of the right kind, claims true of their rows |
| Effects.LostLeasesNeverAct | memory_core/runtime/queue.py:211-233 | a lease once finished, expired into failure or taken over never acts again, under any clocks |
| Effects.RowsAreConsistent | memory_core/runtime/queue.py:152-268 | in every reachable state: running means a token, pending means attempts left, tokens are not shared |
| Effects.DoneIsFinal | memory_core/runtime/queue.py:226-245 | done is terminal and its result never changes |
| Effects.CapturesTakeEffectOnce | memory_core/runtime/worker.py:171-209 | each capture job commits at most one memory change, and has committed one exactly when its row says done |
| Effects.EventsCauseOneJob | memory_core/runtime/queue.py:109-138 | events, archived or not, and capture jobs are in one-to-one correspondence |
| Effects.NoEventIsCapturedTwice | memory_core/runtime/retention.py:131-167 | an event keeps its one job for good, also once archived |
| Effects.ArchivedEventsAreSettled | memory_core/runtime/retention.py:131-167 | in every execution, once an event is archived its task is over and all the task's jobs are done, for good |
| Reviews.WindowShrinks | memory_core/runtime/dreams.py:23-28 | a pinned window only loses records: whatever changes moves past its end |
| Reviews.StoresAreLater | memory_core/memory/store.py:133-174 | in every execution the store only moves to later states |
| Reviews.ReviewedCaptureMeetsItsState | memory_core/runtime/worker.py:162-209 | an approved capture is stored only on exactly the records its decision was computed from |
| Reviews.PlansMeetTheirState | memory_core/memory/dream.py:219-234 | a plan, reviewed or not, is applied only to exactly the records it was read from |
| Reviews.DraftsRecordTheirState | memory_core/runtime/worker.py:183-195 | the recorded generation, one less than after the bump, is the generation of the state the proposal was computed from |
| Reviews.ApprovalOnlyByReview | memory_core/runtime/core.py:361-380 | a job becomes approved only by a review that found it current, and a failed attempt drops the approval |
| Approvals.UnreviewedCapturesAreHarmless | memory_core/runtime/worker.py:171-195 | in every execution, while semantic changes are not applied, a capture whose claim was not approved takes no row out of Active and adds no link, and revises a row only under the policy for exact duplicates and only an inspected neighbour with the same scope, status, summary, metadata and content |
| Approvals.OnlyTheRestIsDrafted | memory_core/runtime/worker.py:171-195 | a creation, an approved decision, an exact duplicate under its policy, or anything while semantic changes are applied, is never put up for review |
| Approvals.TheRestIsStored | memory_core/runtime/worker.py:171-209 | and each of them can be stored: the step is enabled and its row ends done |
| Approvals.UnreviewedPlansOnlyMerge | memory_core/runtime/worker.py:229-252 | in every execution, while semantic changes are not applied, a plan nobody approved adds and removes no record; what changes was active and says what it said, and what it retires lives on in a duplicate with the sources of both, all only under the policy for exact duplicates |
| Approvals.OnlyTheRestIsOffered | memory_core/runtime/worker.py:229-252 | a plan is offered only if it changes something, semantic changes are not applied, and duplicates are not either or some change is not the retirement of one |
| Approvals.CapturesStoreTheReport | memory_core/runtime/worker.py:137-161 | what a capture adds is the report as captured: an observation of its summary at its time, in its task's project or the user's scope, on its evidence or, without any, its task, with the task's attributes |
| Approvals.ReviewsRecord | memory_core/runtime/core.py:361-380 | an accepted proposal is pending and approved, a refused one rejected and not approved; decision, generation and plan stay as proposed, and nothing else changes |
| Approvals.ReviewsArePossible | memory_core/runtime/core.py:361-370 | a proposal can always be refused, and accepted if and only if nothing was stored since it was made |
| Approvals.AcceptedCaptureIsStored | memory_core/runtime/worker.py:162-209 | in every execution, after an accepted review of a capture: once it is the next job it can be leased and the reviewed decision stored, whatever the policy applies unreviewed |
| Approvals.ApprovedCaptureIsStored | memory_core/runtime/worker.py:162-209 | the same at any later state of the execution at which the owner's generation has not moved |
| Approvals.ApprovedPlanIsApplied | memory_core/runtime/worker.py:211-270 | an approved plan at the present generation can be leased, its scan pinned, and the plan applied, whatever the policy applies unreviewed |
| Scans.NoRecordIsReadTwice | memory_core/runtime/dreams.py:36-84 | no record lies in two advanced batches of one pass |
| Scans.EveryRecordIsReadOnce | memory_core/memory/dream.py:48-64 | in a completed pass, every record of the window it pinned that stayed unmodified lies in exactly one batch |
| Scans.PinsAreWindows | memory_core/runtime/dreams.py:8-33 | what a pass pinned is the whole window of a state of the execution: everything after the owner's cursor then |
| Scans.PassesDoNotFork | memory_core/runtime/dreams.py:43-45 | however often a job is retried, reclaimed or approved late, a pass has at most one open window |
| Scans.CursorMovesBackOnlyByHand | memory_core/memory/dream.py:342-354 | the owner's cursor moves back exactly when a saved plan that ends before it is applied by hand; no worker and no other request moves it back |
| Incidents.CursorMovesBack | memory_core/memory/dream.py:180-359 | an execution: a plan is drafted by hand, a worker offers one at the same generation and moves the cursor further, then the first is applied and the cursor moves back |
| Scans.LiveWindowFallsExactly | memory_core/runtime/dreams.py:36-84 | in every execution: when a scan moves on, the number of records still before it falls exactly when some record of the batch is still as it was read |
| Incidents.ScanMovesOnUnchanged | memory_core/runtime/dreams.py:36-84 | an execution: the one record of a batch is written again before the plan is offered, and the scan moves on with as much before it as it had |
| Quiescence.FinishedPassStaysQuiet | memory_core/runtime/dreams.py:59-66 | a finished pass with no later write leaves no new job behind |
| Quiescence.BackgroundStepsLower | memory_core/runtime/worker.py:71-115 | every background step, retention in the idle branch included, lowers a well-founded measure or changes nothing |
| Quiescence.BackgroundRunsFall | memory_core/runtime/worker.py:71-115 | along any run of background steps that change something the measure only falls, so no state recurs |
| Quiescence.QueuesDrain | memory_core/runtime/queue.py:140-150 | there is no infinite run of background steps that each change something |
| Quiescence.WorkIsTakenUp | memory_core/runtime/queue.py:152-209 | while some job is pending or running, a worker with a late enough clock and a fresh token can sweep or lease, and changes the system |
| Quiescence.RestIsDrained | memory_core/runtime/worker.py:71-115 | where no background step changes anything, no job is pending or running, no finished one still has its payload, and no superseded row is live |
| Quiescence.WorkersComeToRest | memory_core/runtime/worker.py:71-115 | from every state the workers alone reach such a state of rest in finitely many steps |
| Guarantees.StepCommits | memory_core/runtime/worker.py:117-270 | every store change of the protocol, plans applied by hand included, is one or two of the store's own transactions |
| Guarantees.ExplicitRulesSurviveMaintenance | memory_core/memory/reconciliation.py:64-80 | explicit rules stay in force through every interleaving of maintenance and foreground work |

## Left out

- Several owners: every statement is scoped by owner, so the model is of one.
- SQL text, sessions, WAL and pragmas, DDL: one transaction is one atomic step, and rollback restores the state.
- Request validation, JSON schema generation, catalogue listings other than field registration, and the MCP server.
- Session receipts, context rendering, the Claude adapter and the run lease.
- The legacy stores and their migration, except the transaction that imports one record.
- Floating point: arithmetic is over the reals, without rounding; an int and a float of the same value are one number. The
  comparator alone tells the infinities, NaN and the two zeros apart.
- History.BatchCache.UpdateRows: files what a recall reads (words, status, project, metadata, vectors); the equivalence and
  preference indexes of such a cache are not kept, and no id comes twice.
- Search.HybridSearch: the vector index's first answer is a parameter with the contract both backends meet, and the query comes
  normalised, as in History.RecallHistory; the normalising and its refusals are `Search.VectorIndex.Search` and
  `Hnsw.HnswIndex.Find`.
- Hnsw.HnswIndex.TakeSnapshot: the blob is the graph itself and its digest a function of it; graph quality is not modelled.
- Quiescence.QueuesDrain: is about steps that change something; a worker that polls and finds nothing is not counted.
- Quiescence.WorkersComeToRest: no worker is promised to be scheduled; the run to rest exists, and no run goes on for ever.
- That repeated dreaming merges every duplicate: records skipped as already taken may not be revisited, and the code does not
  promise it.
- Task completion in one transaction: captures and completion are separate steps, which allows more interleavings than the
  code, and completion does not wait for the gaps.
- Knowledge.Unchanged: the providers, the evaluator and the researcher of knowledge resolution, and the row it writes, are not
  part of the model; the checks on what they return are.
- Database.DreamTable.ApplySaved: plans moved to the archive of plans are unknown to it, and it takes the vectors ready made.
- Protocol.DraftsByHand: a plan requested by hand is read and saved in one step; the code reads it earlier at the same
  generation.
- Nested posting dictionaries: `postings[field][key]` is one map keyed by the pair, so an emptied field leaves nothing behind.
- The vector index's internal update counter and checkpoint threshold, eviction of whole owner caches, and lock objects.
- Compression of archives, which is lossless, and archival of applied plans.
- The `error` column of jobs and the retention table's timestamps: any done job may be compacted, any fully done task's event
  archived.
