# Verified models of RAGFlow's workflow engine, metadata filters and document rewriting

Three parts of RAGFlow are modelled here in Dafny, and their correctness properties are proved for all
inputs, all runs or all reachable states.

**The agent canvas** (`agent/canvas.py`). A workflow runs in waves over a growing path of component ids.
`CanvasRun.dfy` holds the wave loop twice: as a class that updates its path, its queue of deferred
components and its events in place, and as functions that the methods are proved against. Components are
oracles (`World`): which ids their inputs refer to, how they end, which branch they take. A run is cut off
by the wave in which the cancel flag is first seen, so no bound is put on its length.
`CanvasProperties.dfy` and `CanvasAccounting.dfy` prove what whole runs keep; `CanvasControl.dfy` says where
each position hands control, what it tells, and when a wave or a run ends how. Inside a run a streamed
message is split into sentences (`MessageStream.dfy`), which a four-slot queue, two workers finishing in
any order, and a reorder buffer turn into audio in sentence order (`Speech.dfy`, a step relation over
every interleaving).

**Metadata filters** (`common/metadata_utils.py`, `common/metadata_es_filter.py`,
`common/metadata_gaussdb_filter.py`). The same filter list can be evaluated in memory over an inverted
index, compiled into an Elasticsearch `bool` query, or compiled into a SQL predicate over JSONB.
`MetaFilter.dfy` and `MetaIndex.dfy` model the first and give it a specification, `MetaDates.dfy` and
`MetaCompare.dfy` say what it accepts of dates, numbers and texts; `EsFilter.dfy` and `EsMeaning.dfy` model
the second, with an evaluator for queries, `EsValues.dfy` says what it asks of a value; `MetaAgreement.dfy`,
`MetaMembership.dfy` and `MetaRequests.dfy` say exactly when the two find the same documents.
`GaussFilter.dfy` and `GaussMeaning.dfy` model the third, with three-valued logic and positional
parameters, `SqlComparisons.dfy` says what it selects for a value; `CommaTexts.dfy` what stands between
commas and dots; `SqlAgreement.dfy` compares it with the in-memory filter. `SqlText.dfy` renders it as pieces
of text, `SqlReading.dfy` parses the pieces back by SQL precedence, `SqlPlaceholders.dfy` and
`KeyPercents.dfy` say what a database driver makes of the text, `PathLiterals.dfy` and `KeyReading.dfy`
what the validator of generated SQL and the database read in the literal of a key. `Patterns.dfy` has the
wildcard and LIKE patterns both rely on, `MetaUpdate.dfy` the merging of extracted metadata.

**Rewriting and merging documents** (`agent/dsl_migration.py`, `agent/dsl_preserve.py`,
`common/misc_utils.py`). `Migration*.dfy`, `VariableRefs.dfy` and `ReferencePattern.dfy` cover the
renaming of legacy components, including the references inside templates, `MigrationFields.dfy` field by
field; `Preserve*.dfy` the merge of an autosaved document with the stored one, `PreserveFields.dfy` field by
field; `CanonKeys.dfy` canonical keys for nested values.

What Python, the database and the search engine do beyond the code modelled here is a parameter of the
theorems: the record `Python` (lower-casing, digit tests, `ast.literal_eval`, `str`, unusual
comparisons), `Engine` (numeric and range queries, keywords of values that are not strings) and
`Database` (`lower`, texts of JSON values, reading numbers and times).

## Findings

These are places where the code does not do what its comments or its other path say, or where a law
holds only under a condition. Each is stated as lemmas: the exact condition, and in most cases a concrete
input on which the law fails.

- `not contains` is not safe on multi-valued fields, although `common/metadata_es_filter.py:83-85` says
  so. In memory one value without the text is enough; the query rejects a document if any value has it
  (`NotContainsDisagrees`). The two agree exactly where the values of the field do not differ on the
  positive filter (`NegativeFiltersAgreeIff`).
- `empty` finds documents without the key in Elasticsearch and never in memory (`EmptyDisagrees`,
  `EmptyAgreesIff`); `not empty` differs on fields with blank and other values (`NotEmptyDisagrees`,
  `NotEmptyAgreesIff`). `=` a date finds a date with white space around it in memory only
  (`EqualDateAgreesIff`).
- `in` with a text value searches that text in memory, but compares with its comma-separated parts in
  Elasticsearch (`CsvMembershipDisagrees`). Whatever the query finds memory finds, and the two agree
  exactly on documents with a text that is a part, or with none that occurs in the value
  (`CommaTextAgreesIff`, which has `not in`, too; `TextMembershipAgreesIff` covers texts that spell a
  list, `NumberMembershipAgreesIff` numbers and booleans, which memory cannot search).
- A metadata key with a percent sign puts a `%` into the SQL text that a driver with `%s` parameters
  reads as part of a placeholder. Placeholders and parameters match exactly when every run of percent
  signs in the keys is even (`PlanPlaceholdersIff`, `PercentKeyIsNotClean`), and the literals are sent as
  written exactly when no key has a percent sign (`PlanIsSentIff`): a pair of them is sent as one
  (`DoublePercentIsSentAsOne`).
- A part of a key that spells `null`, in any case, is written without quotes, so the database reads it as
  no text and finds nothing (`NullKeyIsNotFound`). A path is received as its parts with pairs of percent
  signs halved and without those nulls, or not at all (`PathIsReceivedAs`); the keys of a plan arrive
  exactly when none has a percent sign or a part that spells `null` (`PlanReachesKeysIff`). The validator
  of generated SQL has no nulls and reads every written path back (`ParseWritten`).
- A field that is null counts as a value for the negative operators in SQL and as none in memory
  (`NullDisagrees`); on fields of one text, or none, that is the only difference but for `empty`
  (`SingleTextsAgreeIff`, `SqlAgreement.EmptyAgreesIff`).
- In GaussDB, `=` with a text finds an element of an array only if the element is written in lower case
  (`MixedCaseElementIsMissed`). It means equality without regard to case exactly on arrays that do not
  hold the text in other cases only (`ArrayEqualityIff`).
- An autosave of an agent without a parameter dictionary loses its stored prompt, tools and outputs:
  they are written into a fresh dictionary (`agent/dsl_preserve.py:42-48`) that nothing refers to
  (`AgentKeepsFieldIff`, `MissingParamsLoseTools`).
- An autosave with an empty agent form loses the stored prompt and tools of the graph's copy of the
  node, because what is restored is written into a fresh dictionary (`FormKeepsPromptIff`,
  `EmptyFormLosesTools`).
- Two components whose ids become equal in the migration overwrite each other; nothing is lost exactly
  when the new ids are distinct (`NothingLostIffInjective`, `CollidingIdsLoseAComponent`).
- A link entry is rewritten as a template before it is renamed as an id; an entry of the path or an end
  of an edge is only renamed. An entry such as `{Splitter:0@x}` therefore changes in a link and stays in
  the path (`ReferenceLinksAreRewritten`, `TemplateLinksAreRewritten`). A link is renamed as in the path
  exactly if it is a component id or refers to no component that gets a new id (`LinkIsRenamedIff`). The
  migrated document is isomorphic to the original as long as no two names meet under the renaming each of
  them gets (`MigrationIsIsomorphic`); where all links are renamed as in the path, it is enough that the id
  map is injective on all names together (`InjectiveRenamingStaysApart`).
- Suspending drops pending ids that are no components; the saved path is a permutation of the pending
  one exactly when there are none (`SavedIsPermutation`, `UnknownIdsAreDropped`).
- A top-level `frozenset` and an equal `set` get different keys, as the comment at
  `common/misc_utils.py:336-340` says (`SetAndFrozenSet`); `KeysCoincideIff` has the exact condition.

## Model

| member | source | states |
|---|---|---|
| Speech.ReorderBuffer.CollectResults | agent/canvas.py:704-709 | the result queue is emptied into the buffer, keyed by sentence |
| Speech.ReorderBuffer.ReleaseReady | agent/canvas.py:710-717 | the loop pops exactly what the release function says, with its audio |
| Speech.ReorderBuffer.DrainReady | agent/canvas.py:701-717 | one drain is collecting followed by releasing; the result queue is left empty |
| Speech.ReleaseIsMaximalRun | agent/canvas.py:710-714 | a drain releases exactly the gap-free run of finished sentences and keeps everything else |
| Speech.CollectKeepsEverything | agent/canvas.py:704-709 | no finished sentence is lost or overwritten by a drain |
| Speech.DrainIsSpoken | agent/canvas.py:701-717 | the bytes one drain emits are those the sentences it moves past ended with, in order, a failed one giving none; no clip is empty |
| Speech.StepKeepsInv | agent/canvas.py:681-717 | every step of producer, worker or drain keeps the protocol's invariant |
| Speech.RunKeepsInv | agent/canvas.py:681-717 | so does every interleaving |
| Speech.ScheduledArePartitioned | agent/canvas.py:672-717 | each scheduled sentence is at exactly one of queue, worker, result, buffer, consumed |
| Speech.AudioInSentenceOrder | agent/canvas.py:701-717 | audio leaves in strictly increasing sentence order; the bytes released so far are those of the sentences consumed so far, in order, a failed one giving none; no clip is empty and none is skipped |
| Speech.NoDeadlock | agent/canvas.py:672-699 | with the four-slot queue every unfinished state has a next step |
| Speech.ProducerWaitsIff | agent/canvas.py:672-699 | in every reachable state the producer waits exactly while four sentences are queued, and at the join exactly while some outcome is not known |
| Speech.StepDoesWork | agent/canvas.py:681-717 | every step lowers the remaining work |
| Speech.RunsAreBounded | agent/canvas.py:748-776 | no interleaving is longer than the work it starts with |
| Speech.FinishedMeansAllReleased | agent/canvas.py:765-771 | after the join and the last drain nothing is left anywhere, and the bytes released are those of all sentences of the program, in order |
| Speech.WithoutWorkers | agent/canvas.py:692-699 | without a speech model nothing is scheduled and the producer never waits |
| MessageStream.Message.ProcessChunk | agent/canvas.py:719-746 | one chunk changes buffer, content and thinking mode, schedules sentences and emits an event as specified |
| MessageStream.Message.Consume | agent/canvas.py:748-771 | a whole stream, with the unfinished sentence scheduled at the end |
| MessageStream.SplitConserves | agent/canvas.py:737-744 | the split loop loses no text, makes no empty sentence and stops with no sentence end left |
| MessageStream.SentenceEndsAtMatch | agent/canvas.py:677 | a sentence ends where the leftmost match of the regular expression does, and nowhere if there is none |
| MessageStream.SplitsAtMatches | agent/canvas.py:737-744 | a buffer is cut at every leftmost match behind the cut before, until there is none |
| MessageStream.TextIsConserved | agent/canvas.py:719-771 | what is scheduled concatenates to the text outside think markers, what is shown to the stored content |
| MessageStream.EventsFollowChunks | agent/canvas.py:719-746 | every chunk that is not empty is told by one event, in order: `<think>` and `</think>` by their markers, other text as it is |
| MessageStream.ProgramQueuesSentences | agent/canvas.py:696-699 | with a speech model each sentence that is not empty is queued, in order |
| MessageStream.DrainsBeforeEveryChunk | agent/canvas.py:751-764 | what is ready is drained once before every chunk |
| MessageStream.FinishedStreamSpokeEverything | agent/canvas.py:748-776 | for every stream and interleaving, the finished message has handed over exactly the text outside think markers, consumed all its sentences, and released the bytes they ended with, in order |
| MessageStream.SilentStreamNeverWaits | agent/canvas.py:692-699 | a stream without speech never waits |
| CanvasRun.Canvas.RunBatch | agent/canvas.py:572-591 | the in-place filter with its shrinking bound terminates and leaves prefix, kept batch and the rest |
| CanvasRun.Canvas.FilterPending | agent/canvas.py:651-652 | the same for everything pending, as each wave calls it |
| CanvasRun.Canvas.FlushPartials | agent/canvas.py:786-791 | deferred components finish from the front until one is still a stream |
| CanvasRun.Canvas.AppendPath | agent/canvas.py:815-828 | ids are appended one by one, skipping one equal to the current last |
| CanvasRun.Canvas.SettleError | agent/canvas.py:793-803 | an error goes to its goto list, its default value, or fails the run |
| CanvasRun.Canvas.ReportNode | agent/canvas.py:805-813 | a node finishes now or is deferred while its content is a stream; containers do neither |
| CanvasRun.Canvas.SettlePosition | agent/canvas.py:654-843 | post-processing of one position: events, errors and goto, deferral, successors |
| CanvasRun.Canvas.SettleWave | agent/canvas.py:654-843 | the same for the positions of a wave in order |
| CanvasRun.Canvas.RunWave | agent/canvas.py:638-866 | one wave: started events, batch, post-processing, error, suspension |
| CanvasRun.Canvas.RunWaves | agent/canvas.py:637-867 | the wave loop |
| CanvasRun.Canvas.Run | agent/canvas.py:518-867 | a whole run from a fresh or a resumed path |
| CanvasRun.KeptWasPending | agent/canvas.py:572-591 | the filtered batch is no longer than the pending one and has no id that was not pending |
| CanvasProperties.KeptIsTheGreedyFilter | agent/canvas.py:572-591 | the kept ids are the subsequence chosen by keeping exactly the ready ones |
| CanvasProperties.KeptHaveTheirInputs | agent/canvas.py:583-591 | each kept ordinary component has every referenced id earlier on the path |
| CanvasProperties.ResumedKeepsAll | agent/canvas.py:584 | a resumed run drops nothing |
| CanvasProperties.RunIsWaves | agent/canvas.py:637-867 | every run is a sequence of completed waves and one that stops |
| CanvasProperties.WaveKeepsPrefix | agent/canvas.py:637-867 | a wave leaves the committed prefix alone; a failed one leaves just that prefix |
| CanvasProperties.CommittedPrefixIsStable | agent/canvas.py:637-848 | what was committed at any wave is unchanged at every later one |
| CanvasProperties.SettleAppendsTargets | agent/canvas.py:793-843 | a position appends only control targets; an error with goto appends exactly its goto list |
| CanvasProperties.RunIsTraced | agent/canvas.py:793-843 | every id a run appends is a start or the target of an edge of an earlier position of that run |
| CanvasProperties.RunSafety | agent/canvas.py:634-867 | prefix stability and tracing for whole runs, with the path an error leaves |
| CanvasProperties.SavedIsPermutation | agent/canvas.py:850-852 | the saved path is a permutation of the pending one exactly when all pending ids are components |
| CanvasProperties.UnknownIdsAreDropped | agent/canvas.py:850-852 | a pending id that is no component, which the saved path loses |
| CanvasProperties.FillUpsFirst | agent/canvas.py:851-852 | the waiting forms come first |
| CanvasProperties.SuspendedRunResumes | agent/canvas.py:850-866 | a suspended run saves exactly its pending components; if the first form carries its type name the next run resumes at position 0 and keeps them all, otherwise it starts over behind them |
| CanvasProperties.PendingRank | agent/canvas.py:815-848 | on a ranked canvas everything pending in wave k has rank at least k |
| CanvasProperties.LaterCancelIsUnseen | agent/canvas.py:637-867 | a run that ends by itself does not depend on when a later cancel would be seen |
| CanvasProperties.RankedRunsEnd | agent/canvas.py:637-652 | a ranked run ends by itself within top rank + 1 waves |
| CanvasProperties.TraceFitsRanks | agent/canvas.py:637-652 | no run has more completed waves than ranks |
| CanvasAccounting.FlushBalances | agent/canvas.py:786-791 | a flush moves ids from the deferred queue to finished events, in order |
| CanvasAccounting.SettleBalances | agent/canvas.py:783-813 | a settled position is booked exactly once, as finished or deferred, unless it is a container |
| CanvasAccounting.RunIsAccounted | agent/canvas.py:783-813 | between waves, post-processed occurrences equal own finished events plus deferrals, deferrals are first in, first out |
| CanvasAccounting.EveryStepIsAccounted | agent/canvas.py:783-813 | the same after every single position |
| CanvasControl.FlushIsMaximal | agent/canvas.py:786-791 | a flush finishes the deferred components from the front, in order, up to the first that is still a stream |
| CanvasControl.SettledReports | agent/canvas.py:654-832 | everything a settled position tells, in order, which component is deferred, and when the run has failed |
| CanvasControl.SettledHandsOn | agent/canvas.py:793-843 | where a settled position hands control, kind by kind: each id of it stands on the path behind the one before, one that equals the id in front of it sharing its place, and nothing else is appended; an error with goto appends its list |
| CanvasControl.TargetsStand | agent/canvas.py:815-848 | in every run, whatever a settled position hands control to stands on the path when its wave is over, behind the positions that ran or as the last of them |
| CanvasControl.PendingRunsIff | agent/canvas.py:572-591 | a pending component runs exactly if it is the start or a form, the path begins with a form, or every component its inputs refer to stands in front of it |
| CanvasControl.VerdictIff | agent/canvas.py:637-866 | when a wave ends how: crashed iff a pending id is no component, cancelled iff all are and the flag is seen, errored iff a component that ran failed with neither goto nor default, suspended iff none did, a form is pending and an answer is missing, and it goes on otherwise |
| CanvasControl.RunEndsAs | agent/canvas.py:518-870 | a run starts at `begin` behind its path, or at the front of one that begins with a form; it completes exactly if its waves exhaust the path, and otherwise ends as its last wave does |
| CanvasControl.SavedInOrder | agent/canvas.py:850-852 | the saved path is the pending forms in order, then the other pending components in order |
| CanvasControl.WaveTells | agent/canvas.py:638-650 | a wave first tells of every pending component, in order, that it starts; nothing told before is changed |
| Patterns.ReplacesEscape | common/metadata_es_filter.py:576-578 | the three replacements in a row escape each special character once |
| Patterns.EscapedReadsLiterally | common/metadata_es_filter.py:576-578 | escaped text reads back as exactly its characters, whatever follows |
| Patterns.WildcardContains | common/metadata_es_filter.py:295-304 | `*text*` matches exactly the strings in which the text occurs |
| Patterns.WildcardEnds | common/metadata_es_filter.py:310-312 | `*text` matches exactly the strings ending with the text |
| Patterns.LikeContains | common/metadata_gaussdb_filter.py:191-198 | `%text%` under LIKE asks for an occurrence and is never malformed (section 8.5 of ISO/IEC 9075-2:2003) |
| Patterns.LikeStarts | common/metadata_gaussdb_filter.py:207-212 | `text%` asks for a prefix |
| Patterns.LikeEnds | common/metadata_gaussdb_filter.py:214-219 | `%text` asks for a suffix |
| MetaFilter.Prepare | common/metadata_utils.py:49-88 | the reassigned sides of a comparison are the specified operands; a non-date is skipped for a date |
| MetaFilter.FilterOut | common/metadata_utils.py:40-129 | exactly the documents of the buckets that accept the original value, whatever the order of the buckets |
| MetaFilter.Select | common/metadata_utils.py:131-150 | all or some of the filters; order, running set and early return do not show |
| MetaCompare.NumbersAreCompared | common/metadata_utils.py:79-123 | where both texts read as numbers, each of the six comparisons accepts exactly the values whose number stands in it to the number asked for |
| MetaCompare.TextsAreCompared | common/metadata_utils.py:79-123 | where neither text is asked for as a date and one of them reads as no literal, the lowered texts are compared, in the order of their first differing character |
| MetaCompare.QuotedTextsAreCompared | common/metadata_utils.py:79-123 | where both read as quoted texts, those are compared |
| MetaCompare.UnlikeLiterals | common/metadata_utils.py:79-125 | a text and a number are never equal and in no order |
| MetaCompare.TextsAreSearched | common/metadata_utils.py:89-111 | what contains, in, empty and their negatives find in a text, without regard to case |
| MetaCompare.EndsAreSearched | common/metadata_utils.py:104-107 | what start with and end with find |
| MetaCompare.ListsAreSearched | common/metadata_utils.py:100-103 | in a list finds a text among the members, without regard to case |
| MetaCompare.OnlyTextsAreSearched | common/metadata_utils.py:94-125 | a value that is no text neither is contained nor is missing anywhere, and nothing is in a number, a boolean or null, or not in it |
| MetaDates.DatesAreOrdered | common/metadata_utils.py:54-64 | YYYY-MM-DD strings are ordered and equal as (year, month, day) |
| MetaDates.DateFilterAccepts | common/metadata_utils.py:54-67 | a comparison with a date is the comparison of dates, and passes over every other value |
| MetaIndex.IndexField | api/db/services/doc_metadata_service.py:833-840 | one field adds the document to the buckets of its texts and to no other |
| MetaIndex.BuildIndex | api/db/services/doc_metadata_service.py:825-840 | the index holds a document under a text exactly if the document has it |
| MetaIndex.FilterMeans | common/metadata_utils.py:131-138 | filtering over the index finds the documents of which some value meets the filter |
| MetaIndex.SelectDocuments | common/metadata_utils.py:30-150 | indexing and filtering together find exactly the documents meant by all or some filters |
| EsFilter.PlanPushdown | common/metadata_es_filter.py:329-346 | the loop plans every filter or fails with the first unsupported one |
| EsFilter.CsvOrList | common/metadata_es_filter.py:472-504 | the members of a list or comma-separated text, lower-cased and trimmed |
| EsFilter.IsPushdownSupported | common/metadata_es_filter.py:349-368 | accepted exactly if all operators are known and safe and all keys are non-empty strings |
| EsMeaning.TranslationMeans | common/metadata_es_filter.py:194-312 | the clauses of each operator ask for its meaning on the stored values |
| EsValues.EqualAsks | common/metadata_es_filter.py:412-435 | what = and ≠ a text ask for: a date as it is, a number or a boolean it reads as, what stands in quotes, or the trimmed text, in lower case |
| EsValues.RangeAsks | common/metadata_es_filter.py:438-457 | what a range asks for: a date as it is, a number or a boolean the text reads as, or the trimmed text |
| EsValues.InListAsks | common/metadata_es_filter.py:472-504 | what in a list asks for: one of the members, texts in lower case and trimmed |
| EsValues.InTextAsks | common/metadata_es_filter.py:483-504 | what in a text asks for that spells no list: one of the parts between its commas that are not blank |
| EsValues.InSpelledListAsks | common/metadata_es_filter.py:483-504 | what in a text asks for that spells a list or a tuple: one of its members |
| EsValues.TranslationFailsIff | common/metadata_es_filter.py:194-312 | a filter cannot be translated exactly if its key is no text or empty, its operator unknown, or its value missing, no single value, empty or without members where the operator needs one |
| EsValues.PushableIff | common/metadata_es_filter.py:349-368 | the check before planning accepts exactly filters with a key and a safe operator, and such a filter can only fail to be translated by its value |
| CommaTexts.CommasAreSplit | common/metadata_es_filter.py:491 | splitting at commas is undone by joining, and no part has a comma |
| CommaTexts.TrimmedInOrder | common/metadata_es_filter.py:491 | the parts that count are those that are not blank, trimmed, in order |
| EsMeaning.ClausesAreAtomic | common/metadata_es_filter.py:116-134 | a filter is one clause, true exactly when all of it is met |
| EsMeaning.PlansFailIff | common/metadata_es_filter.py:329-346 | a list of filters is translated exactly if each of them can be |
| EsMeaning.PlanFailsIff | common/metadata_es_filter.py:329-346 | a plan is made exactly for a known logic and filters that can all be translated, and keeps the logic |
| EsMeaning.QueryMeans | common/metadata_es_filter.py:147-177 | the query accepts a document iff its knowledge base is in scope and all, or some, filters accept it |
| MetaAgreement.ValueAccepts | common/metadata_utils.py:90-115 | one value meets a filter in memory as it does for the engine |
| MetaAgreement.EngineAsks | common/metadata_es_filter.py:264-312 | the query asks for one stored text that meets the filter, or for the key and no such text |
| MetaAgreement.PositiveFiltersAgree | common/metadata_es_filter.py:264-312 | contains, start with, end with, in a list and = agree on fields with any number of values |
| MetaAgreement.NegativeFiltersAgreeIff | common/metadata_es_filter.py:77-86 | the negative operators agree exactly where the values do not differ on the positive filter |
| MetaAgreement.SingleValuesAreNotMixed | common/metadata_es_filter.py:77-82 | so they agree on single-valued fields |
| MetaAgreement.EmptyAgreesIff | common/metadata_es_filter.py:238-256 | empty agrees exactly on documents with a value |
| MetaAgreement.EmptyDisagrees | common/metadata_es_filter.py:238-256 | a document without the key, which only the engine finds empty |
| MetaAgreement.NotEmptyAgreesIff | common/metadata_es_filter.py:258-262 | not empty disagrees exactly on fields with blank and other values |
| MetaAgreement.NotEmptyDisagrees | common/metadata_es_filter.py:258-262 | a field with a blank and another value, which not empty finds in memory only |
| MetaAgreement.EqualDateAgreesIff | common/metadata_es_filter.py:264-266 | = a date agrees exactly if no value is that date with white space around it, unless one is the date itself |
| MetaAgreement.NotContainsDisagrees | common/metadata_es_filter.py:83-86 | a two-valued field on which not contains differs, although the filter passes the pre-check |
| MetaMembership.PartsOccur | common/metadata_es_filter.py:491 | every part of a comma-separated text is trimmed and occurs in the text |
| MetaMembership.TextMembershipAgreesIff | common/metadata_es_filter.py:284-293 | in, and not in, with a text value: the exact condition on the texts of the field under which both sides agree |
| MetaMembership.CommaTextAgreesIff | common/metadata_es_filter.py:472-504 | for in a comma-separated text the engine finds no more than memory, and as much exactly if no text occurs in the value without some text being a part; for not in the exact condition, too |
| MetaMembership.NumberMembershipAgreesIff | common/metadata_es_filter.py:492-493 | in, and not in, a number: memory finds nothing, so the sides agree where the engine finds nothing, whatever its mapping makes of a number |
| MetaMembership.CsvMembershipDisagrees | common/metadata_es_filter.py:472-491 | a value in which the text occurs without being a part |
| MetaRequests.FilterAgrees | common/metadata_es_filter.py:194-312 | one filter of any operator agrees under the condition proved for it |
| MetaRequests.RequestsAgree | common/metadata_utils.py:272-293 | a whole request, joined by and or or, finds the same documents on both paths |
| MetaRequests.RequestsAgreeOverIndex | common/metadata_utils.py:272-293 | the same against filtering over the index built of the documents |
| GaussFilter.CollectMembers | common/metadata_gaussdb_filter.py:233-240 | the loop collects the members' equalities and their parameters in step, or the first error |
| GaussFilter.CollectParams | common/metadata_gaussdb_filter.py:122-124 | the loop joins the parameter lists in filter order |
| GaussMeaning.TranslationFits | common/metadata_gaussdb_filter.py:132-231 | every translated filter takes exactly the parameters it comes with |
| CommaTexts.DotsAreSplit | common/metadata_gaussdb_filter.py:350-358 | a key is split into a path at its dots: joining the parts gives the key, and no part has a dot |
| GaussMeaning.PlanFits | common/metadata_gaussdb_filter.py:117-125 | so does every plan |
| SqlComparisons.PlanFailsIff | common/metadata_gaussdb_filter.py:295-302 | a predicate is made exactly for a known logic and filters that can all be translated |
| GaussMeaning.JoinOrSelects | common/metadata_gaussdb_filter.py:182-184 | joined predicates read their own parameters off the common list, for OR |
| GaussMeaning.JoinAndSelects | common/metadata_gaussdb_filter.py:117-125 | the same for AND |
| GaussMeaning.JoinDeniedSelects | common/metadata_gaussdb_filter.py:186-189 | the key exists and no fragment is true; an unknown one does not deny |
| GaussMeaning.PlanSelects | common/metadata_gaussdb_filter.py:117-125 | a plan selects a document iff all, or some, of its filters do; an empty plan selects all |
| GaussMeaning.MembershipSelects | common/metadata_gaussdb_filter.py:182-189 | not in selects the documents with the key that in does not |
| GaussMeaning.NegativesComplement | common/metadata_gaussdb_filter.py:163-205 | ≠, not in, not contains select exactly the documents with the key that the positive twin does not select (section 6.34 of ISO/IEC 9075-2:2003) |
| GaussMeaning.EmptyPartitions | common/metadata_gaussdb_filter.py:242-254 | empty and not empty select each document exactly once between them |
| GaussMeaning.TextFiltersSelect | common/metadata_gaussdb_filter.py:191-219 | what contains, start with and end with find in the text and in the value |
| GaussMeaning.EqualTextSelects | common/metadata_gaussdb_filter.py:221-231 | = a text: strings without regard to case, array elements only as written |
| SqlComparisons.NumberRangeSelects | common/metadata_gaussdb_filter.py:167-180 | a range with a number selects exactly where the text at the path reads as a number that stands in it |
| SqlComparisons.TimeRangeSelects | common/metadata_gaussdb_filter.py:167-176 | a range with a time selects exactly where the text at the path reads as a time that stands in it |
| SqlComparisons.EqualValueSelects | common/metadata_gaussdb_filter.py:221-231 | = a number or a boolean selects that value and arrays that hold it, = None selects null |
| SqlComparisons.EqualBlankSelects | common/metadata_gaussdb_filter.py:226-228 | = the empty text selects the empty text |
| SqlComparisons.InListSelects | common/metadata_gaussdb_filter.py:182-184 | in a list selects exactly where = one of the members does |
| SqlComparisons.InTextSelects | common/metadata_gaussdb_filter.py:182-184 | in a text selects where = a member does that it spells or, where it spells no list, a part between its commas that is not blank |
| SqlComparisons.TranslationFailsIff | common/metadata_gaussdb_filter.py:132-157 | a filter cannot be translated exactly if its key is no path, its operator unknown, or its value one the operator cannot be asked about, spelled out operator by operator |
| GaussMeaning.ArrayEqualityIff | common/metadata_gaussdb_filter.py:221-231 | on an array, = a text is equality with an element without regard to case exactly if the text is not there in other cases only |
| GaussMeaning.MixedCaseElementIsMissed | common/metadata_gaussdb_filter.py:221-231 | an array element in mixed case that = does not find |
| SqlAgreement.SingleTextsAgreeIff | common/metadata_gaussdb_filter.py:132-240 | on a field that is missing, null or one text, contains, start with, end with, =, in and the negatives agree with the in-memory filter, but for the negatives on null |
| SqlAgreement.EmptyAgreesIff | common/metadata_gaussdb_filter.py:242-254 | on such a field not empty agrees, and empty exactly if there is a text |
| SqlAgreement.RequestsAgree | common/metadata_gaussdb_filter.py:117-125 | so the plan of a request selects a document exactly if the in-memory filter finds it |
| SqlAgreement.NullDisagrees | common/metadata_gaussdb_filter.py:199-205 | a null field that not contains selects in SQL only |
| SqlReading.ReadIff | common/metadata_gaussdb_filter.py:256-284 | a parser by SQL precedence reads the pieces of a text as a tree exactly if the tree is grouped and the text is its own |
| SqlReading.TranslationReadsBack | common/metadata_gaussdb_filter.py:163-254 | the pieces of the text of every filter are read as exactly the tree that was meant |
| SqlReading.PlanReadsBack | common/metadata_gaussdb_filter.py:117-125 | so are the pieces of the text of every plan, for and as well as or |
| SqlPlaceholders.RenderedPlaceholdersIff | common/metadata_gaussdb_filter.py:256-284 | the text of a predicate has exactly its placeholders iff no key path brings in others |
| KeyPercents.CleanKeyIff | common/doc_store/gaussdb_conn_base.py:158-174 | the path of a key brings in no placeholder exactly if every run of percent signs in the key is even |
| KeyPercents.PlanPlaceholdersIff | common/metadata_gaussdb_filter.py:117-125 | placeholders of a plan consume exactly its parameters iff every run of percent signs in its keys is even |
| KeyPercents.PlanIsSentIff | common/metadata_gaussdb_filter.py:117-125 | the statement a driver makes of a plan has every literal as it was written iff no key has a percent sign |
| KeyPercents.PercentKeyIsNotClean | common/doc_store/gaussdb_conn_base.py:158-174 | the key `%` breaks the count |
| KeyPercents.DoublePercentIsSentAsOne | common/doc_store/gaussdb_conn_base.py:158-174 | the key `%%` keeps the count and is sent as another key |
| PathLiterals.ParseJsonbPath | common/doc_store/gaussdb_conn_base.py:177-209 | the character loop reads a literal as the specified path, or refuses it |
| PathLiterals.ParseWritten | common/doc_store/gaussdb_conn_base.py:158-209 | a written path is read back by the validator exactly if it has segments and none is empty |
| PathLiterals.DatabaseReads | common/doc_store/gaussdb_conn_base.py:158-174 | as the text of an array, a written path has its segments as elements, but for those that spell null |
| KeyReading.PathIsReceivedAs | common/doc_store/gaussdb_conn_base.py:158-174 | after the driver and the database, a path has its percent signs halved and no nulls, or is an error |
| KeyReading.PathArrivesIff | common/doc_store/gaussdb_conn_base.py:158-174 | a path arrives as it was meant iff no segment has a percent sign or spells null |
| KeyReading.ArrivedFindsValue | common/doc_store/gaussdb_conn_base.py:158-174 | where a path arrives, the database finds the value that was meant |
| KeyReading.PlanReachesKeysIff | common/metadata_gaussdb_filter.py:117-125 | a plan is sent as written and the keys of all its filters arrive iff no key has a percent sign or a part that spells null |
| KeyReading.NullKeyIsNotFound | common/doc_store/gaussdb_conn_base.py:158-174 | the value under the key `null` is not found |
| MetaUpdate.DedupeList | common/metadata_utils.py:296-305 | the loop keeps the first value of each text, in order |
| MetaUpdate.DedupeKeepsTexts | common/metadata_utils.py:296-305 | no text is lost, none is left twice, nothing is made up |
| MetaUpdate.DedupeKeepsFirsts | common/metadata_utils.py:296-305 | the values kept are exactly those whose text no earlier one has, in order |
| MetaUpdate.Metadata.UpdateKey | common/metadata_utils.py:328-402 | one key is merged, replaced or kept by its kind, the others stay |
| MetaUpdate.Metadata.Update | common/metadata_utils.py:308-404 | every key on its own, whatever their order |
| MetaUpdate.GivenTextsAreAdded | common/metadata_utils.py:380-393 | given texts are added to a list of texts: the result has the texts of both and no others, each once |
| MetaUpdate.GivenOrStored | common/metadata_utils.py:328-402 | in every other case, whether the given or the stored value is kept |
| MetaUpdate.MergingTwice | common/metadata_utils.py:308-404 | merging the same metadata again changes nothing |
| ReferencePattern.EveryMatchIsFound | agent/dsl_migration.py:32 | every match of the regular expression at the start of a text is found, with its groups |
| ReferencePattern.EveryFindIsAMatch | agent/dsl_migration.py:32 | whatever is found is a match of the regular expression |
| ReferencePattern.CharacterClasses | agent/dsl_migration.py:32 | the character classes of the regular expression, by their members |
| VariableRefs.MatchFits | agent/dsl_migration.py:32 | a match lies inside the text, has an id, and ends behind all closing braces |
| VariableRefs.ScanShows | agent/dsl_migration.py:67-71 | scanning a text into references and characters loses nothing |
| VariableRefs.MatchReadsAgain | agent/dsl_migration.py:67-69 | a match with its id replaced is a match again, with the new id |
| VariableRefs.MatchFails | agent/dsl_migration.py:67-71 | where there is no match, rewriting what follows creates none |
| VariableRefs.RewritingCommutesWithScanning | agent/dsl_migration.py:63-71 | the references of the rewritten text are the original ones renamed, in order, all other text unchanged |
| Migration.NewIdIsFixed | agent/dsl_migration.py:54-61 | a new id is its own new id |
| Migration.NewNameIsFixed | agent/dsl_migration.py:22-26 | a new name is its own new name |
| MigrationFields.LegacyIds | agent/dsl_migration.py:22-61 | each legacy prefix of an id becomes its own new one, every other id stays |
| MigrationFields.LegacyNames | agent/dsl_migration.py:22-30 | each legacy name becomes its own new one, every other name stays |
| MigrationFields.RewritesEveryString | agent/dsl_migration.py:73-80 | every string at any depth is rewritten, and nothing else of a value changes |
| MigrationIdempotence.NormalizeSettles | agent/dsl_migration.py:49-164 | a migrated document has nothing left to migrate |
| MigrationIdempotence.SettledStays | agent/dsl_migration.py:49-164 | a document with nothing to migrate is left as it is |
| MigrationIdempotence.MigrationIsIdempotent | agent/dsl_migration.py:35-164 | migrating twice is migrating once, for every document |
| MigrationGraph.BuildIdMap | agent/dsl_migration.py:53-61 | the loop builds the id map |
| MigrationGraph.RewriteComponents | agent/dsl_migration.py:82-105 | the loop rewrites and re-keys every component, later ones overwriting |
| MigrationGraph.RewriteNodes | agent/dsl_migration.py:113-144 | nodes are rewritten where they stand |
| MigrationGraph.RewriteEdges | agent/dsl_migration.py:146-158 | edges are rewritten where they stand |
| MigrationGraph.Workflow.Migrate | agent/dsl_migration.py:49-164 | the whole migration field by field |
| MigrationGraph.ReferencesAreMigrated | agent/dsl_migration.py:63-71 | with the document's own id map, references in a text are the migrated references |
| MigrationGraph.NothingLostIffInjective | agent/dsl_migration.py:82-105 | no component is lost exactly when new ids are distinct |
| MigrationGraph.CollidingIdsLoseAComponent | agent/dsl_migration.py:105 | two ids that meet |
| MigrationIsomorphism.MigrationIsIsomorphic | agent/dsl_migration.py:49-164 | with names that stay apart, components, links, path and edge ends of a migrated document are the renamed ones, and hold exactly if they held before |
| MigrationIsomorphism.LinksAreImages | agent/dsl_migration.py:82-105 | the links of the migrated components are the images of the links before, and no others |
| MigrationIsomorphism.PlacesAreImages | agent/dsl_migration.py:106-158 | path entries and pairs of edge ends of a migrated document are the images of those before, and no others |
| MigrationFields.ComponentReads | agent/dsl_migration.py:85-102 | every field of a migrated component: object name, links, parent id, and all other texts |
| MigrationFields.NodeReads | agent/dsl_migration.py:114-130 | every field of a migrated node: id, parent id, type, data, and the others as they were |
| MigrationFields.DataReads | agent/dsl_migration.py:132-141 | every field of its data: label, name, form, and the others as they were |
| MigrationFields.EdgeReads | agent/dsl_migration.py:146-158 | every field of a migrated edge: both ends, its id, and the others as they were |
| MigrationFields.NodesMigrated | agent/dsl_migration.py:113-122 | a migrated document has as many nodes as before, and node i has the renamed id and parent id of node i |
| MigrationFields.NodesAreImages | agent/dsl_migration.py:113-118 | its node ids are the images of the node ids before, and no others |
| MigrationFields.EdgesJoinNodes | agent/dsl_migration.py:113-152 | where renaming keeps the ends of edges apart from other nodes, an end of a migrated edge is the id of a node exactly if it was one before |
| MigrationFields.DocumentReads | agent/dsl_migration.py:160-162 | history, messages and reference are rewritten, fields the migration does not know stay |
| MigrationFields.LongestComeFirst | agent/dsl_migration.py:145 | the ids replaced inside edge ids are those of the components, each once, longest first |
| MigrationFields.EqualLengthsKeepOrder | agent/dsl_migration.py:145 | ids of one length are replaced in the order of the components |
| MigrationFields.ReplacedInTurn | agent/dsl_migration.py:156-157 | each id is replaced in the text that the replacement of the ids before it leaves |
| MigrationFields.ReplacesFirst | agent/dsl_migration.py:156-157 | the first occurrence of an id is replaced, and the rest in turn |
| MigrationFields.ReplacesNothing | agent/dsl_migration.py:156-157 | text in which an id does not occur stays |
| MigrationIsomorphism.LinkIsRenamedIff | agent/dsl_migration.py:63-96 | a link is renamed as an entry of the path would be iff it is a component id or refers to no component that gets a new id |
| MigrationIsomorphism.InjectiveRenamingStaysApart | agent/dsl_migration.py:53-110 | where all links are renamed as in the path, an id map that is injective on all names keeps them apart |
| MigrationIsomorphism.ReferenceLinksAreRewritten | agent/dsl_migration.py:85-107 | a link that is a reference is rewritten at its id, while the same text in the path stays |
| MigrationIsomorphism.TemplateLinksAreRewritten | agent/dsl_migration.py:85-107 | a link to `{Splitter:0@x}` becomes one to `{TokenChunker:0@x}` |
| PreserveProperties.AgentReads | agent/dsl_preserve.py:51-61 | an agent's parameters after a save, field by field |
| PreserveFields.PromptIsGoodIff | agent/dsl_preserve.py:26-35 | which prompts are worth keeping: texts with more than white space, and lists whose first message has one |
| PreserveFields.SysPromptIsGoodIff | agent/dsl_preserve.py:38-40 | which system prompts are: texts with more than white space, other than the placeholder, and other values that count as true |
| PreserveFields.TruthyIff | agent/dsl_preserve.py:58-60 | which tools and outputs are: those that are not empty |
| PreserveFields.BeginReads | agent/dsl_preserve.py:64-68 | every field of the begin parameters after a save |
| PreserveProperties.AgentTwice | agent/dsl_preserve.py:51-61 | restoring twice is restoring once |
| PreserveProperties.BeginTwice | agent/dsl_preserve.py:64-68 | the same for the begin mode |
| PreserveProperties.MergedComponent | agent/dsl_preserve.py:115-128 | each component is merged with the stored one of its id, or kept |
| PreserveFields.ComponentParams | agent/dsl_preserve.py:115-128 | the parameters of a merged component: as those of a begin, of an agent, or as they were sent |
| PreserveFields.ComponentStays | agent/dsl_preserve.py:115-128 | everything else of a component stays as it was sent |
| PreserveProperties.NodesTwice | agent/dsl_preserve.py:87-100 | merged forms stay under a second merge, ids are kept |
| PreserveFields.LookupIsLast | agent/dsl_preserve.py:87-89 | the form of a node is merged with that of the last stored node with its id |
| PreserveFields.NodeFormReads | agent/dsl_preserve.py:88-100 | every field of a merged node form: as those of a begin, of an agent, or as they were sent |
| PreserveFields.NodeStays | agent/dsl_preserve.py:88-100 | everything else of a node stays as it was |
| PreserveProperties.MissingNodesAre | agent/dsl_preserve.py:79-84 | exactly the stored agent and tool nodes whose ids are absent come back |
| PreserveProperties.MissingEdgesAre | agent/dsl_preserve.py:102-108 | exactly the stored edges whose keys are absent come back |
| PreserveFields.AgentOrToolIff | agent/dsl_preserve.py:83 | agents and tools are told by the prefixes of their ids |
| PreserveFields.SameEdgeIff | agent/dsl_preserve.py:104-107 | two edges count as the same iff they agree on both ends and both handles, a missing one counting as null |
| PreserveFields.ElementsInOrder | agent/dsl_preserve.py:77 | the nodes, or edges, sent are the dictionaries in the list, in order |
| PreserveFields.StoredNodesInOrder | agent/dsl_preserve.py:76 | the stored nodes that count are the dictionaries with an id, in order |
| PreserveFields.MissingNodesInOrder | agent/dsl_preserve.py:79-84 | missing nodes come back in the order in which they were stored |
| PreserveFields.MissingEdgesInOrder | agent/dsl_preserve.py:105-108 | so do missing edges |
| PreserveFields.GraphReads | agent/dsl_preserve.py:71-109 | the nodes and edges sent come first and the missing ones behind them; other fields of the graph stay |
| PreserveFields.DocumentReads | agent/dsl_preserve.py:112-130 | a document keeps every field that was sent but its components and its graph |
| PreserveInPlace.ParamTable.PreserveAgent | agent/dsl_preserve.py:51-61 | the dictionary is updated in place as specified, also when it is the stored one itself |
| PreserveInPlace.ParamTable.PreserveBegin | agent/dsl_preserve.py:64-68 | the same for the begin mode |
| PreserveInPlace.AppendMissingNodes | agent/dsl_preserve.py:76-85 | the loop appends exactly the missing nodes, against the ids sent |
| PreserveInPlace.AppendMissingEdges | agent/dsl_preserve.py:102-109 | the loop appends exactly the missing edges |
| PreserveInPlace.PatchForms | agent/dsl_preserve.py:87-100 | node forms are patched where they stand |
| PreserveInPlace.Workflow.MergeWith | agent/dsl_preserve.py:112-130 | the whole merge in place |
| PreserveSaves.MergeIsIdempotent | agent/dsl_preserve.py:112-130 | merging the result again with the same stored document changes nothing |
| PreserveSaves.MergeUnites | agent/dsl_preserve.py:71-109 | a save holds the union of edge keys, the ids sent and the stored agent and tool ids, and no others |
| PreserveSaves.EdgesSurviveIff | agent/dsl_preserve.py:72-75 | the stored edges survive exactly when the graph sent can be written to or there were none |
| PreserveSaves.SavesAccumulate | agent/dsl_preserve.py:71-109 | over any series of saves, edge keys and agent and tool ids are exactly those ever seen |
| PreserveSaves.AgentAfterSave | agent/dsl_preserve.py:115-128 | a save keeps the stored value of a field exactly if it is good, the one sent is not, and the agent comes with a parameter dictionary |
| PreserveSaves.AgentKeepsFieldIff | agent/dsl_preserve.py:42-48 | a good stored field that the agent sent lacks survives exactly when it comes with a parameter dictionary |
| PreserveSaves.MissingParamsLoseTools | agent/dsl_preserve.py:42-48 | an agent without one that loses its stored tools |
| PreserveSaves.SettledIff | agent/dsl_preserve.py:51-61 | a series of versions settles on a good one exactly if some good version was followed only by versions with a dictionary |
| PreserveSaves.SettledOnTheLast | agent/dsl_preserve.py:51-61 | and then on the last good one |
| PreserveSaves.AgentsKeepTheLastGood | agent/dsl_preserve.py:42-61 | over any series of saves an agent ends with a good prompt, system prompt, tools or outputs exactly if a good version was followed only by saves with a dictionary, and then with the last good one |
| PreserveSaves.FormKeepsPromptIff | agent/dsl_preserve.py:92-100 | the graph's copy of a good field survives exactly when the form sent is not empty |
| PreserveSaves.EmptyFormLosesTools | agent/dsl_preserve.py:92-100 | an empty form that loses the stored tools |
| CanonKeys.KindIsKept | common/misc_utils.py:310-328 | the canonical form tells the kind of a value |
| CanonKeys.CanonicalIffEqual | common/misc_utils.py:310-328 | canonical forms are equal exactly when the values are, at any nesting |
| CanonKeys.KeysCoincideIff | common/misc_utils.py:331-345 | when two keys coincide, for all values |
| CanonKeys.SetFreeKeysCoincide | common/misc_utils.py:331-345 | on set-free values keys coincide exactly when the values are equal |
| CanonKeys.SetAndFrozenSet | common/misc_utils.py:336-340 | an equal set and frozenset have different keys |

## Left out

The canvas:

- Component bodies, events' payloads, timestamps, logging, Redis and the database; a component's inputs, outcome, branch and whether its content is still a stream are given by `World`.
- A cancel flag seen before the run starts, and the invocation of several components at once inside a wave: outcomes are given per position, and an exception leaving the batch ends the run as a crash or a cancellation.
- A path with an id that is no component ends the run as a crash, as looking it up raises an error.
- The text cleaning and the synthesis in speech, aborting a stream half-way.
- What callers do between two runs of one canvas.

Metadata filters:

- Case folding of characters on which Python and the search engine differ: agreement is stated for texts that both fold alike, which includes all ASCII text. Lower-casing is per character.
- Range queries on text fields, `=` on values that look like literals, fields that hold other than strings: their meaning depends on index mappings. So do the dynamic mapping's date detection and its limit on keyword length, and keys with dots, which Elasticsearch reads as paths.
- MetaMembership.NumberMembershipAgreesIff: the condition is what the engine finds for a number on a text field, which depends on the mapping.
- Whether the two paths agree on `in` with a dictionary or another object as the value: what Python makes of it is a parameter. A value without members is refused by the query and left to memory.
- Bucket keys that are lists: a dictionary key cannot be one, so the list branches of the in-memory filter are never taken on an index.
- A filter without a key or value entry raises an error in memory; here the entry is null.
- The order of the documents found, paging, limits, and the database and search clients.
- What the SQL predicates select is stated for the paths as they are meant; which keys arrive so is stated separately. The reading of string literals is the standard one, without backslash escapes. Fields of several texts are compared with the in-memory filter for `=` only, since the others look at the text of the whole array, which is a parameter. That the characters of a predicate split into its pieces is not stated.
- GaussDB: the aliases and the white-space normalisation of operator names, and the calendar check of date prefixes, which is a parameter (`Reader`). Array elements addressed by a path segment, `lower`, and the text of JSON values are parameters of `Database`.
- `common/metadata_infinity_filter.py`, filters written by a language model, and JSON text given to the metadata merge instead of a dictionary.

Documents:

- Ids inside edge ids are replaced one id after the other (`ReplacesFirst`, `ReplacesNothing`, `LongestComeFirst`); that an edge id goes on naming both ends is not claimed, since an id may occur in it by chance.
- A document in which `obj` or `data` is a non-empty value other than a dictionary, where ids or edge ends cannot be hashed, or where `nodes` or `edges` cannot be iterated raises an error in the merge; the model leaves such parts alone.
- Nested dictionaries and lists are values: the classes update the top level of a document, a parameter table or an array of nodes in place, and sharing of parts between the stored and the merged document is not modelled beyond a parameter table merged with itself.
- CanonKeys.CanonicalIffEqual: leaves are hashable values whose equality is given; values that are neither containers nor hashable, which are keyed by their representation, are not modelled.
