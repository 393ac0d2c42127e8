# EvidenceVault: verified model

EvidenceVault keeps compliance evidence of many tenants in one state behind a lock, compiles a tenant's records into an evidence graph, records reviews and daily snapshots, tracks unresolved issues, sends reminders, and stores the state in JSON files. This project models that logic in Dafny and proves what its documentation and tests promise.

`dafny verify dfyconfig.toml` checks everything.

## How the project is laid out

| files | what they model |
|---|---|
| `Text`, `MaximalRuns`, `Slug`, `Sorting`, `Keyed` | trimming and comparison of text, maximal runs, the `slug` loop, stable sorting, maps keyed by an identifier and the lists a traversal may give |
| `References`, `Evidence`, `Records` | the reference parser and printer, the rules for one item, the persisted records |
| `GraphModel`, `GraphBuilder`, `EvidenceGraph` | what the graph builder emits as functions, and the builder itself as loops over two mutable maps |
| `GraphHealth`, `GraphOrder` | counts, degraded reasons, health; comparators, the caps and their in-place compaction |
| `GraphSources`, `GraphRefs`, `GraphIdentity`, `GraphClosure`, `GraphTheorems`, `GraphAgreement`, `GraphWitnesses` | why an edge exists, what node and edge identifiers can coincide, closure, the theorems about the finished graph, agreement of its separate passes, graphs that show where a promise ends |
| `GraphContents`, `GraphLinks`, `GraphReading` | what the nodes, edges, actions, summary and reasons of a finished graph say, and its order, all in the fields of the records themselves |
| `Store`, `EvidenceService`, `MappingEditor`, `Operations`, `Evaluation`, `Adjudication`, `Audit`, `Billing`, `Reminders` | the shared state and each service's write closures as methods on it |
| `SystemRuns`, `RunsOfEvidence`, `RunsOfHistory`, `RunsOfIssues`, `RunsOfMarks`, `SystemTheorems`, `RunsOfManifests` | all services as one state machine whose atomic steps interleave in any way, its invariants, and the theorems about runs |
| `SystemGraph`, `SystemTenants`, `SystemReminders` | the graph built from what a run has stored, what other tenants change in it (nothing), how often a reminder is attempted |
| `FileStore`, `SystemRestart` | saving and loading the fourteen files under errors and crashes, and exactly which states a restart can find |
| `SystemRecovery`, `RunsWithRestarts` | what the services' promises become in such a state, and what runs keep that go on from it |
| `SystemWitnesses` | concrete runs that show where a promise ends |

Every method that changes the state ensures a `…Step` predicate (`CreateStep`, `EventStep`, …); the state machine in `SystemRuns` takes the same predicates as its transitions, so the theorems about runs are about what the methods do. Operations that make two writes are two steps, and the state machine remembers the calls that are between them.

## Modelling choices

- An instant is a number of nanoseconds since Go's zero time, in UTC; a day is the floor of its division by 86 400 seconds. Clock readings, mailer answers and new identifiers are parameters. Identifiers drawn in a run are pairwise different (`id.New` draws 144 random bits).
- The `slug` loop works on lowered text. Lower-casing there is exact for what the loop can keep: ASCII capitals, U+0130 and U+212A, the only other characters whose lower case is an ASCII letter. For the keys that find duplicate references and owners, `strings.ToLower` is an arbitrary function `Fold`; no property of it is needed.
- The two time layouts are parameters. Results about identifiers assume that the stamps of the graph's own reviews and events, in the layout `20060102T150405`, consist of digits and `T` (`StampsAreText`); the layout prints nothing else for the years 0 to 9999.
- A map traversal is an arbitrary list of the map's values; theorems hold for every such list. `sort.SliceStable` and `sort.Slice` are a stable sort, which is characterised by three lemmas in `Sorting`; where the source uses the unstable sort no result depends on the order of equal elements.
- The JSON codec is any codec that decodes what it encoded and never encodes to nothing. A rename is atomic, and durable once it has taken effect.
- A reminder mark is the pair of item and day instead of their concatenation; the day's text holds no `:`.
- The narratives that `buildHistory` asks the operations service for are an input of the builder, like the items and the tenant data.
- The two writes of one call are two steps. If the first cannot be saved the source ends the call; in the model it stays pending. A restart ends all pending calls, and identifiers drawn before it are not drawn again.
- Selecting a reminder is two steps, the check and the mark: the source does both under a read lock, which keeps writers out but not another selection.
- A node or an edge carries identifier, type, caption, status, tenant and times. Of the metadata only what the mapping editor reads back is kept; summaries, reasons and confidence words are left out.

## Where code and expectation differ

The code is followed in each case.

- `docs/evidence-graph.md:99` lists a penalty for unresolved issues, which `graphHealth` does not apply. `GraphHealth.HealthAsDocumentedIff` says exactly when the two scores are equal; `GraphHealth.HealthNotAsDocumented` is a tenant that scores 100 and not 97.
- The mapping editor prints references joined by `, ` and parses them again. That keeps every list it parsed itself (`References.EditorRoundTrip`), but not every stored list: `Create` accepts a reference with a comma, and saving the form as printed then splits it (`References.CommaIsSplitBySave`). `MappingEditor.PrintedFormIsSaved` states exactly when nothing changes.
- An edge of the graph can lack its source node: an event's entity is taken for an evidence item. `GraphTheorems.GraphDanglesIff` gives the exact condition for every combination of the caps. `GenerateReviewReport` logs the report as entity (`internal/operations/service.go:513`), so the graph built right after the first report has such an edge (`GraphWitnesses.ReportEventDangles`); and so has a graph whose items were read before an item was created and its `evidence.created` event logged (`internal/http/server.go:186`).
- `Build` reads the items before the proofpacks. An item that is created and exported in between is in a manifest and not in the list, so its edge is missing (`SystemWitnesses.ExportBetweenReads`). An export reads all items and items are only added in front, so `SystemGraph.GraphShowsManifests` can say exactly which entries are shown: those from which on the manifest is no longer than the list, and those that share their slugs with such an entry.
- Several passes count the same gaps. The two that count items agree always; the number of gap edges agrees exactly when the items concerned have distinct slugs (`GraphAgreement.PassesCountAlike`). Two identifiers that differ only in `-` and `_` have one slug (`GraphWitnesses.GapEdgesMerge`).
- Reminder runs that overlap can attempt a reminder twice (`SystemWitnesses.TwoAttempts`). Which overlap matters can be said at the check: only one that finds a key free while another selection has found it and not marked it yet. Without such a check every key is taken once (`SystemReminders.NoOverlapTakesOnce`), and after any such check two more steps take one twice (`OverlapTakesTwice`).
- A write that fails half-way leaves the files a mixture of old and new parts, and later writes may fail as well. A restart finds each part as of some moment not before the last acknowledged call (`SystemRestart.RestartIsPatched`, `RestartIsNotBefore`), and every such combination of moments is found after some failures (`EveryPatchIsFound`). What the services promise about one part survives (`SystemRecovery.RestartOfRun`), also in all later steps and after any number of restarts (`RunsWithRestarts.RestartsKeepParts`). What they promise about two parts need not (`SystemWitnesses.TornManifest`, `TornMilestones`, `TornResolution`); `SystemRecovery` says exactly when it does: a manifest is whole when it is no longer than the list of items, milestones follow the log when none was set between the two moments, resolutions match their events when there are as many of both.
- A payment event that is marked and not logged when the process stops is never logged (`SystemWitnesses.NeverLogged`); it is still never logged twice, since the mark is saved before the entry is written (`RunsWithRestarts.MarkIsDurable`). A reminder's mark is set under the read lock and reaches the disk only with a later write, so a reminder that was sent can be sent again after a crash (`SystemWitnesses.SentAgain`), exactly if its mark was not found (`AttemptsStayOnce`, `LostMarkSecondAttempt`).

## Model

| member | source | states |
|---|---|---|
| MaximalRuns.RunsAreMaximal | internal/evidencegraph/graph.go:753-774 | the runs computed step by step are the maximal runs: each is a stretch of kept characters bounded by others or the ends, in order, and every kept character is in one |
| MaximalRuns.RunsOfJoin | internal/evidencegraph/graph.go:753-774 | words joined by a separator are recovered as the runs of the joined text |
| Text.SpaceCharacters | internal/http/evidence_graph.go:99-118 | white space is exactly the 25 characters that the Unicode standard calls so |
| Slugs.SlugLoop | internal/evidencegraph/graph.go:753-774 | the loop with its `lastDash` flag and the final trims yields the maximal runs of `[a-z0-9]` of the lowered text joined by single dashes, or `unknown` if there are none |
| Slugs.SlugReadsBack | internal/evidencegraph/graph.go:753-774 | a slug is non-empty text of `[a-z0-9-]`, is its own lower case, and its runs are the word list it was made from |
| Slugs.KeptCharacters | internal/evidencegraph/graph.go:753-774 | the kept characters are the 26 small letters and the ten digits |
| Slugs.LoweredCharacters | internal/evidencegraph/graph.go:753-774 | lower-casing maps the capitals to the small letters in order and two more characters to letters, and leaves every other as it is |
| Slugs.SlugShape | internal/evidencegraph/graph.go:753-774 | every dash of a slug stands alone between two kept characters; a text without a letter or digit is `unknown`, any other keeps its words |
| Slugs.SlugIsIdempotent | internal/evidencegraph/graph.go:753-774 | a slug of a slug is that slug |
| Slugs.SlugCollidesIffSameWords | internal/evidencegraph/graph.go:753-774 | two texts have one slug exactly when their word lists agree, where no words counts as the word `unknown` |
| Slugs.EdgeIDDecodes | internal/evidencegraph/graph.go:746-748 | two edge identifiers are equal exactly when the slugs of type, source and target are |
| GraphRefs.SlugSeparatesNodeIDs | internal/evidencegraph/graph.go:740-751 | two node identifiers that the builder makes, of whatever kinds, have one slug only if they are equal |
| GraphRefs.EdgeTypesSeparate | internal/evidencegraph/graph.go:217-334 | no two of the builder's edge types share a slug |
| GraphIdentity.EdgeIDsSeparate | internal/evidencegraph/graph.go:195-204 | the edge map merges two edges of a graph only if type, source and target all coincide |
| References.SplitRefsLoop | internal/http/evidence_graph.go:99-118 | the loop with its `seen` map gives the list that `SeparatorsCut`, `OneReference` and `FirstsAreKept` determine from the text alone: cut at commas and line ends, white space collapsed, the first of each non-empty key |
| References.SeparatorsCut | internal/http/evidence_graph.go:99-118 | for all texts `a` and `b`, a comma, `\n` or `\r\n` between them gives the references of `a` and then those of `b`, less repeated ones |
| References.OneReference | internal/http/evidence_graph.go:99-118 | nothing else cuts: a text with neither comma nor line end is one reference with the same words and single blanks, or none if it is blank |
| References.FirstsAreKept | internal/http/evidence_graph.go:103-117 | of the references cut off, exactly the first non-empty one of each key is kept, in order |
| References.NormalizeRefsLoop | internal/evidence/service.go:185-201 | the loop trims and keeps the first of each non-empty key |
| References.NormalizeKeepsFirsts | internal/evidence/service.go:185-201 | every reference is trimmed, and exactly the first non-blank one of each key is kept, in order |
| References.DistinctKeepsOnePerKey | internal/http/evidence_graph.go:103-117 | what is kept has distinct keys and no blank, comes from the input, and no key of the input is lost |
| References.ParsedIsClean | internal/http/evidence_graph.go:99-118 | every parsed reference is free of commas and line ends, single-spaced and non-blank, and the keys are distinct |
| References.EditorRoundTrip | templates/evidence_graph.html:38 | printing a parsed list as `ref, ref, ` and parsing again gives the same list, for every raw text |
| References.EditorKeepsExactlyCleanLists | templates/evidence_graph.html:38 | print-then-parse keeps a list exactly when its references are clean and its keys distinct |
| References.NormalizeFixes | internal/evidence/service.go:185-201 | normalising changes nothing exactly for lists of trimmed, non-blank references with distinct keys |
| References.NormalizeKeepsParsed | internal/evidence/service.go:185-201 | normalising never changes what the form parser produced |
| References.SaveWithoutEdits | internal/http/evidence_graph.go:86-90 | print, parse and normalise keep a stored list exactly when no reference has a comma or white space other than single blanks |
| References.CommaIsSplitBySave | internal/http/evidence_graph.go:86-90 | the stored list with the one reference `a,b` is changed by a save without edits |
| Evidence.PreparedItems | internal/evidence/service.go:69-106 | what `Create` and `Update` validate has normal references and an allowed status, so two of the six rejections cannot occur there |
| Evidence.ValidateMeans | internal/evidence/service.go:86-117 | an item is rejected for the first of its problems in the fixed order, and accepted exactly if it has none; titles, words, limits and dates written out |
| Evidence.StatusMeans | internal/evidence/service.go:69-85 | `missing` and `archived` stay; otherwise `expired` exactly for an expiry day before today, `expiring` exactly for one within the reminder days, `active` exactly without an expiry or for a later one |
| Records.DayMeans | internal/evidence/service.go:69-85 | a day is 86 400 seconds long, and days count from the zero time, downwards as well |
| Evidence.DueMeansExpiring | internal/evidence/service.go:69-85 | an item in the reminder window by instants is `expiring` by whole days at that instant, unless it is missing or archived |
| Sorting.SortIsStable | internal/evidencegraph/graph.go:615-659 | elements that the comparator does not separate keep their order |
| Sorting.SortedIsUnique | internal/evidencegraph/graph.go:624-647 | with a comparator that separates the elements a multiset has one sorted list |
| Keyed.TraversalDoesNotMatter | internal/evidencegraph/graph.go:206-215 | any two traversals of the keyed map sort to the same list |
| Keyed.Range | internal/evidencegraph/graph.go:206-215 | ranging over a map gives every value once, in some order |
| GraphHealth.SummarizeEvidenceInfo | internal/evidencegraph/graph.go:385-409 | the loop's counters are the numbers of expired, ownerless and stale items, and its sets the distinct owner keys and risks |
| GraphHealth.StatsMean | internal/evidencegraph/graph.go:385-409 | in the items' own fields: how many have both owner fields blank, the word `expired`, or an update more than 180 days ago; the set of folded owner texts and of risks |
| GraphHealth.DegradedReasonsLoop | internal/evidencegraph/graph.go:485-524 | each reason is given exactly when an item or a record of its kind is missing or bad, in the fixed order |
| GraphHealth.ReasonsMean | internal/evidencegraph/graph.go:485-524 | the reasons are, in order, those of the nine whose condition on the records' own fields holds |
| GraphHealth.CountMissing | internal/evidencegraph/graph.go:508-516 | the counters are the numbers of items without control and without vendor references |
| GraphHealth.GraphHealthLoop | internal/evidencegraph/graph.go:526-566 | the loop's score is the clamped linear form: 100 minus fixed weights times the numbers of items with each gap, minus the penalties for the history |
| GraphHealth.HealthMeans | internal/evidencegraph/graph.go:526-566 | the score in the records' own fields, with every weight written out |
| GraphHealth.HealthUpToOrder | internal/evidencegraph/graph.go:526-566 | permuting the items does not change the score |
| GraphHealth.HealthOfAddition | internal/evidencegraph/graph.go:526-566 | adding an item anywhere to a non-empty list never raises the score |
| GraphHealth.HealthOfRepair | internal/evidencegraph/graph.go:526-566 | repairing one item (owner, control or vendor mapping, refresh, expiry) never lowers the score |
| GraphHealth.ReasonsAreGaps | internal/evidencegraph/graph.go:485-524 | no reason is given exactly when there are items, none has a gap, and there are two reviews and a proofpack |
| GraphHealth.FullHealthMeansNoReasons | internal/evidencegraph/graph.go:526-566 | the score is in 0..100, and it is 100 exactly when no reason is given and the latest review is at most nine days old |
| GraphHealth.HealthAsDocumentedIff | docs/evidence-graph.md:84-106 | the code's score is the documented one exactly when there is no review, the latest has no unresolved issue, or the other penalties reach 100 |
| GraphHealth.HealthNotAsDocumented | docs/evidence-graph.md:99 | a tenant that scores 100 where the document says 97 |
| GraphHealth.DocumentedMeans | docs/evidence-graph.md:84-106 | the documented score is less by three for each unresolved issue of the latest review, at most eighteen |
| GraphOrder.NodeOrdering | internal/evidencegraph/graph.go:624-647 | the node comparator is a strict weak order |
| GraphOrder.EdgeOrdering | internal/evidencegraph/graph.go:624-647 | the edge comparator is a strict weak order |
| GraphOrder.CompactEdges | internal/evidencegraph/graph.go:579-590 | the two-index compaction in place leaves, in order, exactly the edges with both ends kept |
| GraphOrder.ApplyCaps | internal/evidencegraph/graph.go:568-613 | the nodes are the first ones plus a cap node, the edges the first ones among those whose ends are kept, both sorted, and a reason is given for each cap that fired |
| GraphOrder.CapsBoundAndClose | internal/evidencegraph/graph.go:568-613 | at most `maxNodes + 1` nodes and `maxEdges` edges remain; once the node cap fires both ends of every edge are among the kept nodes |
| GraphOrder.CappedEdgesStaySorted | internal/evidencegraph/graph.go:568-613 | on sorted edges the second sort changes nothing |
| GraphOrder.CapNodeIsInserted | internal/evidencegraph/graph.go:568-613 | the capped nodes are the kept prefix in unchanged order with one cap node inserted |
| GraphBuilder.Work.AddNode | internal/evidencegraph/graph.go:182-193 | the node map is the log of added nodes put by identifier, with missing times filled in |
| GraphBuilder.Work.AddEdge | internal/evidencegraph/graph.go:195-204 | the same for edges, under the identifier computed from type, source and target |
| GraphBuilder.BuildItem | internal/evidencegraph/graph.go:217-251 | one item adds exactly its evidence node, owner, reference nodes and edges, and gap edges; what each of them says is in `GraphContents.GraphSays` and `GraphLinks.GraphTies` |
| GraphBuilder.BuildEvidence | internal/evidencegraph/graph.go:217-251 | the loop adds those of every item, in order |
| GraphBuilder.BuildProofpacks | internal/evidencegraph/graph.go:253-271 | each proofpack adds its node and an edge for exactly the manifest entries that name a listed item |
| GraphBuilder.BuildHistory | internal/evidencegraph/graph.go:273-304 | reviews, events, reports, comparison, readiness, exports and narratives add exactly their nodes and edges |
| GraphBuilder.BuildComparison | internal/evidencegraph/graph.go:306-317 | with fewer than two reviews only the unavailable node is added, otherwise a node and one edge between the two latest reviews |
| GraphBuilder.BuildPilotAndExports | internal/evidencegraph/graph.go:319-334 | the readiness node and three export nodes with their edges are added |
| GraphBuilder.CollectActions | internal/evidencegraph/graph.go:336-371 | the loop and the sort give the item actions of every item and the tenant actions, in the fixed order |
| GraphBuilder.FillWork | internal/evidencegraph/graph.go:129-140 | after the whole pass the two maps hold what was emitted, later entries overwriting earlier ones |
| GraphSources.ActionsAreNeeds | internal/evidencegraph/graph.go:336-371 | the targets of the listed actions are exactly what has a gap: expired, ownerless, stale or unmapped items, and what the tenant's history lacks or is ready for |
| GraphSources.EmittedIffJustified | docs/evidence-graph.md:76-82 | an edge is emitted exactly when a record gives a reason for it: an owner field, an explicit reference, a gap of an item or of the history, a manifest entry naming a listed item, or a record of the history; the step on which closure rests |
| GraphClosure.EvidenceNodeIffListed | internal/evidencegraph/graph.go:217-251 | the node an evidence identifier stands for exists exactly when some listed item has the same slug |
| GraphClosure.JustifiedEdgesClose | internal/evidencegraph/graph.go:217-371 | for any items and any tenant data, the target of an edge is a node, and its source is one exactly unless an event names an unlisted entity; the guards of separate functions agree |
| GraphClosure.CapIDIsFree | internal/evidencegraph/graph.go:568-613 | no emitted node has the cap node's identifier |
| EvidenceGraph.DeriveTopRisks | internal/evidencegraph/graph.go:411-430 | whatever order the risk map is ranged in, the list is the sorted distinct risks and the three gap lines, cut at five |
| EvidenceGraph.Summarize | internal/evidencegraph/graph.go:432-483 | the summary is that of the items, data and actions |
| EvidenceGraph.BuildGraph | internal/evidencegraph/graph.go:128-147 | the graph is one function of the inputs, whatever order the two maps are ranged in |
| EvidenceGraph.Build | internal/evidencegraph/graph.go:111-148 | an error for a blank tenant, then for a failed list of items, then for failed tenant data; otherwise that graph, with 500 and 1000 for limits that are not positive; its contents are stated in plain fields by `GraphContents`, `GraphLinks` and `GraphReading` |
| GraphContents.GraphSays | internal/evidencegraph/graph.go:182-334 | every node of a finished graph has the identifier, type, caption, status and times of a record, in that record's own fields (an evidence node: `expired` and `missing` stay, then `ownerless`, then `stale` after 180 days, then the stored word or `degraded`); or it is the cap node, and only if the node cap fired |
| GraphContents.GraphShows | internal/evidencegraph/graph.go:182-334 | conversely, in a graph that the node cap did not cut, every item, owner, reference, proofpack, report, snapshot, event, narrative, action and export has its node, and so have the tenant, its readiness and the comparison |
| GraphContents.ItemIsShown | internal/evidencegraph/graph.go:217-251 | in a graph that the node cap did not cut, an item whose slug no other item has is shown by its own node, with exactly the status, times and references of that item |
| GraphLinks.GraphTies | internal/evidencegraph/graph.go:195-371 | every edge of a finished graph has the identifier, type, ends, status and time of a link, gap, manifest entry or record, in that record's own fields |
| GraphReading.HistoryIsNewestFirst | internal/evidencegraph/graph.go:615-622 | the builder works on the loaded records newest first, records of one time in loaded order, none lost |
| GraphReading.GraphIsInOrder | internal/evidencegraph/graph.go:624-682 | the nodes, edges and actions of a finished graph are in the documented order, the severities written out as a list |
| GraphReading.ActionsSay | internal/evidencegraph/graph.go:336-371 | an action is listed exactly if an item or the tenant's history asks for it, with type, severity, impact, title and target written out |
| GraphReading.SummarySays | internal/evidencegraph/graph.go:432-483 | every number, word and text of the summary in the records' own fields |
| GraphReading.TopRisksSay | internal/evidencegraph/graph.go:411-430 | the risks are alphabetical, at most five, each named by an item or one of the three gap lines that hold, and none left out comes before the last |
| GraphReading.GraphReasonsSay | internal/evidencegraph/graph.go:485-613 | the reasons of a finished graph are those of its records and one for each cap that cut something off, with the counts |
| GraphReading.GraphKeeps | internal/evidencegraph/graph.go:568-613 | of the sorted edges a graph keeps exactly those between the first nodes, in order; if not all of them, then the first ones, as many as the edge cap lets through |
| GraphTheorems.GraphCloses | internal/evidencegraph/graph.go:111-148 | in every finished graph an edge's target is a node, and its source is one exactly if the node cap fired or the edge is not an event about an unlisted entity |
| GraphTheorems.GraphDanglesIff | internal/evidencegraph/graph.go:111-148 | once the node cap fires no edge dangles; otherwise an edge dangles exactly when one of the first sorted edges, as many as the edge cap lets through, is an event about an entity whose slug no listed item has, and in an uncut graph exactly when an event names such an entity |
| GraphWitnesses.ReportEventDangles | internal/operations/service.go:504-515 | the graph built after a tenant's first review report, with the default caps, has a dangling edge |
| GraphTheorems.GraphFollowsSourceRules | docs/evidence-graph.md:76-82 | every edge of a finished graph has a reason in the records, and an uncut graph has an edge for every reason |
| GraphTheorems.GraphIsCapped | internal/evidencegraph/graph.go:568-613 | a finished graph has at most `maxNodes + 1` nodes and `maxEdges` edges: the sorted prefix with one cap node, and the first edges between kept nodes |
| GraphTheorems.SortedListsAreUnique | internal/evidencegraph/graph.go:624-647 | identifiers and edge triples are distinct, and no other list with the same members is sorted |
| GraphTheorems.GraphIsTenantScoped | internal/evidencegraph/graph.go:111-148 | every node and edge of a finished graph carries the tenant it was built for |
| SystemTenants.LoadTenantGraphData | internal/evidencegraph/source.go:25-39 | the five loaded lists are the rows of that tenant alone, and all are empty without a store |
| SystemTenants.OthersNeverShow | docs/evidence-graph.md:119-121 | over any run, steps for other tenants leave a tenant's graph the same, whenever between them its items, records and narratives are read |
| GraphAgreement.PassesCountAlike | internal/evidencegraph/graph.go:241-409 | for each gap the summary's count equals the number of next actions of its type, and equals the number of gap edges exactly when the items with that gap have distinct slugs |
| GraphAgreement.EdgesCountGaps | internal/evidencegraph/graph.go:241-249 | the gap edges are at most as many as the items with the gap, and as many exactly for distinct slugs |
| GraphWitnesses.GapEdgesMerge | internal/evidencegraph/graph.go:241-249 | two items with one gap and the identifiers `a-b` and `a_b` have two actions and fewer than two gap edges |
| GraphAgreement.NoReasonIffFirstActionActive | internal/evidencegraph/graph.go:485-524 | before the caps no reason is given exactly when there are items and the first sorted action is `active` |
| FileStore.SavePart | internal/persistence/file_store.go:70-96 | whatever fails or crashes, the part's file is its old content, or the new content exactly when the rename took effect; no other part changes |
| FileStore.Persist | internal/persistence/file_store.go:68-99 | the parts before the fault are saved, in the traversal's order, and the call ends as the first fault says |
| FileStore.SavedIsPrefix | internal/persistence/file_store.go:68-99 | saving stops at the first fault; what landed is the prefix before it, and the part it befell exactly if the crash came after the rename; the call ends as that fault says |
| FileStore.Load | internal/persistence/file_store.go:48-67 | the load fails exactly if some file cannot be read, or is not empty and does not decode; otherwise each part is the empty one for an absent or empty file and what its file decodes to for any other |
| FileStore.LoadMeans | internal/persistence/file_store.go:48-67 | the same of the function that the theorems about restarts use, in terms of the files and the codec alone |
| FileStore.Store.Write | internal/persistence/file_store.go:40-47 | the state becomes what the closure leaves even on an error, and the files what the closure's outcome, the order and the faults determine |
| FileStore.LoadAfterWrite | internal/persistence/file_store.go:40-99 | a load after any write succeeds with each part old or new; a write that returned nil loads as the memory; a failing closure changes no file |
| FileStore.EveryMixtureHappens | internal/persistence/file_store.go:68-99 | for every proper subset of the parts some order leaves exactly that subset new, when the call then stops with any error or crash |
| FileStore.RunsNeverTear | internal/persistence/file_store.go:40-99 | over any run of writes, crashes and restarts, a load succeeds and each part is its initial value or one that some write tried to save |
| FileStore.AcknowledgedIsDurable | internal/persistence/file_store.go:40-47 | right after any write that returned nil a load equals the memory, however many earlier writes failed half-way |
| EvidenceService.Create | internal/evidence/service.go:137-159 | the answer and the rows are those that `CreatedItem` describes; a failure changes nothing, and other tenants never change |
| EvidenceService.CreatedItem | internal/evidence/service.go:137-159 | it fails exactly at the limit or for a problem of the item, named in order; otherwise the new row is the item with the drawn identifier, equal times, its distinct trimmed references, and `expired`, `expiring` or `active` exactly by its dates unless it was `missing` or `archived` |
| EvidenceService.Update | internal/evidence/service.go:160-183 | the answer and the rows are those that `UpdatedItem` describes; a failure changes nothing |
| EvidenceService.UpdatedItem | internal/evidence/service.go:160-183 | it fails exactly for a problem of the item or an unknown identifier; otherwise the first row with the identifier, and no other, is the item with the old identifier and creation time, the new time, its distinct references, and the status of its dates |
| EvidenceService.AttachFile | internal/evidence/service.go:202-216 | the file is recorded and the item touched exactly if the item exists; otherwise nothing changes |
| EvidenceService.AttachedItem | internal/evidence/service.go:202-216 | path and time are set on the first item with the identifier and the file is appended; without such an item nothing changes |
| MappingEditor.UpdateMappings | internal/http/evidence_graph.go:67-97 | get, replace the three parsed lists, update, and log an event, written out, after a successful update; its two early errors and a rejected update change nothing |
| MappingEditor.SaveAsPrinted | internal/http/evidence_graph.go:67-97 | preparing the printed form keeps a normal item's references exactly when none has a comma or white space other than single blanks |
| MappingEditor.PrintedFormIsSaved | internal/http/evidence_graph.go:67-97 | submitting the printed form of a stored item always succeeds, and keeps its references under exactly that condition |
| EvidenceService.RecordProofpack | internal/proofpack/service.go:45-52 | the manifest in front names the items that were read, in order |
| EvidenceService.CreateKeepsRows | internal/evidence/service.go:137-159 | creating keeps rows valid, normal, within the limit and distinct for a new identifier, and moves no other row |
| EvidenceService.UpdateKeepsRows | internal/evidence/service.go:160-183 | updating keeps rows valid and distinct, and every identifier and creation time |
| EvidenceService.AttachKeepsRows | internal/evidence/service.go:202-216 | so does attaching a file |
| OperationsService.RecordEvent | internal/operations/service.go:531-563 | the event goes to the front of its tenant's log and the milestone of its type is set if it was not; other tenants are untouched |
| OperationsService.RecordKeepsMilestones | internal/operations/service.go:531-563 | the incremental switch agrees with reading the milestones off the whole log: oldest event of each type, second-oldest review |
| OperationsService.MilestonesMean | internal/operations/service.go:531-563 | the record that a log stands for: the times of the oldest events of five types and of the second-oldest review |
| OperationsService.RecordKeepsReached | internal/operations/service.go:531-563 | a milestone that is set never changes |
| OperationsService.StoreReview | internal/operations/service.go:519-529 | the snapshot goes to the front of its tenant's list |
| OperationsService.StoreReport | internal/operations/service.go:504-515 | the report goes to the front of its tenant's list |
| OperationsService.GraphAgreesWithComparison | internal/evidencegraph/graph.go:306-317 | on a newest-first list the graph's sort is the identity, and its comparison node is `unresolved` exactly when the service calls the comparison degrading |
| OperationsService.ComparisonMeans | internal/operations/service.go:234-264 | every difference, the whole days rounded towards zero, and the word for the trend, in the fields of the two reviews |
| OperationsService.PilotMeans | internal/operations/service.go:200-232 | week, readiness and a missed cadence by the number of reviews and the time of the first listed one |
| OperationsService.StageMeans | internal/operations/service.go:272-304 | the stage is the first of five whose condition holds |
| OperationsService.ReviewStreak | internal/operations/service.go:343-357 | the streak is the length of the longest prefix whose gaps are at most nine days |
| OperationsService.StreakGrowsOrRestarts | internal/operations/service.go:343-357 | a new review makes the streak one longer or one |
| OperationsService.StoreOperationalSnapshot | internal/operations/service.go:487-499 | today's entry is replaced, or a new day put in front of at most ninety |
| OperationsService.StoredIsLastOfDays | internal/operations/service.go:483-502 | after any history the stored list is the newest ninety of the snapshots not followed by one of the same day |
| OperationsService.StoredHistory | internal/operations/service.go:483-502 | with a clock that never goes back the days strictly decrease, each entry is the last of its day, and a day that is missing is older than ninety stored ones |
| Evaluation.EvaluateItem | internal/operations/service.go:359-392 | the counters move by what the item is, and the owner's unresolved count leaves a missing owner out |
| Evaluation.Evaluate | internal/operations/service.go:394-422 | the counts are those of the items, the owner list has one entry per trimmed owner with that owner's totals, most unresolved first |
| Evaluation.EvaluationMeans | internal/operations/service.go:394-422 | in the items' own fields: the numbers of expired, expiring, ownerless and stale items, the clamped score, and the owners with most unresolved items first, each with the numbers of its items |
| Evaluation.EvaluationConserves | internal/operations/service.go:394-422 | owner totals sum to the number of items and owner unresolved to `Unresolved - MissingOwner`; `Unresolved` is the sum of the four counts; the score is the clamped linear form |
| Evaluation.EvaluationUpToOrder | internal/operations/service.go:394-422 | permuting the items changes no count and no owner's totals |
| AdjudicationService.EnsureIssue | internal/operations/adjudication.go:20-43 | the first open issue of the kind is returned, or a new one put in front; other tenants are untouched |
| AdjudicationService.EnsureMeans | internal/operations/adjudication.go:20-43 | the answer is the first open issue of the kind and nothing changes, or a new open issue, written out, is in front |
| AdjudicationService.ResolveIssue | internal/operations/adjudication.go:45-78 | the issue with the identifier is closed and one event recorded, with the same time and reason; already resolved or not found changes nothing |
| AdjudicationService.ResolveMeans | internal/operations/adjudication.go:45-78 | the first issue with the identifier gets time and reason if it is open, and one event, written out, is in front; otherwise the answer says why and nothing changes |
| AdjudicationService.EnsureKeepsIssues | internal/operations/adjudication.go:20-43 | at most one open issue per evidence and type, and the returned identifier is that of an open issue of the kind |
| AdjudicationService.ResolveKeepsIssues | internal/operations/adjudication.go:45-78 | resolved issues and events stay in one-to-one correspondence, and no other issue changes |
| AuditService.Log | internal/audit/audit.go:17-22 | the entry is appended |
| AuditService.ListByTenant | internal/audit/audit.go:23-39 | the reverse loop gives the tenant's entries newest first, at most `limit` of them if the limit is positive |
| AuditService.ListedMeans | internal/audit/audit.go:23-39 | the lines show, last logged first and each once, the tenant's entries in their own words; if not all, then exactly `limit` of them, the last ones |
| AuditService.ListedAfterLog | internal/audit/audit.go:17-39 | a new entry moves to the front of its tenant's list and leaves every other tenant's list alone |
| BillingService.RecordAndProcessEvent | internal/billing/service.go:99-115 | a known event is reported as a duplicate and changes nothing; a new one is marked and logged |
| RemindersService.Select | internal/reminders/service.go:30-48 | whatever order the tenants come in: only due stored items are selected, each for a free key, exactly their keys become marked, and no due item is left unmarked |
| RemindersService.SelectionMeans | internal/reminders/service.go:30-48 | the selected items are stored, in their windows by instants, not marked before, and marked for the day; nothing else is marked, and no stored item in its window is left without a mark |
| RemindersService.SelectedAreExpiring | internal/reminders/service.go:30-48 | every selected item is `expiring` at that instant, unless missing or archived |
| RemindersService.Run | internal/reminders/service.go:23-60 | one audit entry per selected item, in order: `"status":"sent"` exactly when the mailer delivered it and `"status":"failed"` otherwise, all other fields written out; the result is the number of delivered ones |
| SystemTheorems.RunKeeps | internal/persistence/repo.go:143-147 | the invariants below hold in every state of every run, however the services' writes interleave |
| SystemTheorems.RunEvolves | internal/persistence/repo.go:143-147 | between any two states of a run items keep identifier and creation time, set milestones their time, resolved issues everything |
| SystemTheorems.StoredItemsAreValid | internal/evidence/service.go:137-216 | every stored item passes `Validate`, carries its own tenant, has normal references, and each tenant holds at most the limit |
| SystemTheorems.ItemIDsAreUnique | internal/evidence/service.go:137-216 | one identifier is one item of one tenant |
| SystemTheorems.ManifestsAreKnown | internal/proofpack/service.go:35-55 | every file and every manifest entry names an item of its tenant, then and at every later moment, even when the items changed between reading and recording |
| SystemTheorems.RecordFollowsLog | internal/operations/service.go:200-304 | the activation record is always what the event log stands for; reviews equal review events plus calls in progress; with none in progress, comparison exports are ready exactly when the two latest reviews compare and exactly when the second review is on record, and then the stage is `recurring` or `expansion-ready` |
| SystemTheorems.SnapshotsAreLastOfDays | internal/operations/service.go:483-502 | the stored snapshots are always the newest ninety last-of-day ones of the tenant's whole history |
| SystemTheorems.IssuesStayResolved | internal/operations/adjudication.go:20-78 | at every moment one open issue per kind and a one-to-one correspondence of resolved issues and events; a resolved issue is the same ever after |
| SystemReminders.NoOverlapTakesOnce | internal/reminders/service.go:30-58 | over any run without overlapping checks, in every state the keys between check and mark are different and free, and each marked key was taken once |
| SystemReminders.StepKeepsFree | internal/reminders/service.go:30-48 | from a state whose found keys are different and free a step keeps them so exactly if it is not an overlapping check |
| SystemReminders.OverlapTakesTwice | internal/reminders/service.go:30-48 | in any run, after a check that overlaps with another two more steps take a key twice |
| SystemReminders.SerialNeverRemarks | internal/reminders/service.go:30-48 | so when selections follow one another no step marks a marked key |
| SystemReminders.SelectionIsSerial | internal/reminders/service.go:30-48 | what the selecting method does in one go is a sequence of such steps that does not overlap |
| SystemReminders.OneAttemptPerDay | internal/reminders/service.go:23-60 | in every run the audit log has exactly one entry per attempt, in order; without overlapping checks no item is tried twice for one day, over any run mixed with creates and updates |
| SystemWitnesses.TwoAttempts | internal/reminders/service.go:30-58 | a run with one overlapping check that attempts a reminder twice |
| SystemTheorems.PaymentsLoggedOnce | internal/billing/service.go:99-115 | a payment event is logged at most once, and exactly once when it was seen and its call is over |
| RunsOfMarks.StepKeepsExcess | internal/billing/service.go:99-115 | from any state whatever, no step of any service changes by how much the entries and pending calls of a payment event exceed its mark |
| SystemGraph.ManifestJustified | internal/evidencegraph/graph.go:253-271 | for any inputs a manifest edge has a reason exactly when some entry with its slugs names a listed item |
| RunsOfManifests.ManifestsAreTails | internal/proofpack/service.go:35-55 | in every state of every run a stored or pending manifest is the list of the identifiers of the tenant's oldest items, in order |
| RunsOfManifests.EntryIsKnownIff | internal/proofpack/service.go:35-55 | for the items of any moment and the proofpacks of any other, an entry names an item exactly when the manifest from it on is no longer than the list of items |
| SystemGraph.GraphShowsManifests | internal/evidencegraph/graph.go:111-148 | for items and proofpacks read at any two moments of a run, in either order: an uncut graph shows a manifest entry exactly when some entry with its slugs names an item listed then, and that is exactly when the manifest from such an entry on is no longer than the list |
| SystemWitnesses.ExportBetweenReads | internal/evidencegraph/graph.go:117-127 | a run in which an item is created and exported between the two reads, so that its manifest entry is not shown |
| SystemRestart.RestartIsPatched | internal/persistence/file_store.go:40-99 | after any writes of the services, each of which may fail half-way, and a crash, the store opens and each part of the state is that of some moment of the run |
| SystemRestart.RestartIsNotBefore | internal/persistence/file_store.go:40-99 | and of no moment before the last call that returned nil |
| SystemRestart.EveryPatchIsFound | internal/persistence/file_store.go:40-99 | conversely, whatever the writing calls are, every state put together from parts of their moments is what a restart finds after some of their saves failed |
| SystemRestart.MixtureIsFound | internal/persistence/file_store.go:68-99 | every mixture of the saved and the new state that is not wholly new is what some crash leaves |
| SystemRecovery.RestartOfRun | internal/persistence/file_store.go:40-99 | the services run, their calls are saved or not in any way, and the store opens again: the state is put together from moments of the run, with valid and distinct items within the limit, one open issue of a kind, at most ninety snapshots and at most one entry per payment event |
| SystemRecovery.RestartKeepsItems | internal/evidence/service.go:137-216 | whatever parts a restart finds, every item is valid, of its tenant, normal and within the limit |
| SystemRecovery.RestartKeepsItemIDs | internal/evidence/service.go:137-216 | and one identifier is one item of one tenant |
| SystemRecovery.RestartKeepsSnapshots | internal/operations/service.go:483-502 | the stored snapshots are the newest ninety last-of-day ones of some moment |
| SystemRecovery.RestartKeepsOneOpen | internal/operations/adjudication.go:20-43 | there is at most one open issue of a kind |
| SystemRecovery.RestartKeepsPayments | internal/billing/service.go:99-115 | a payment event is logged at most once |
| SystemRecovery.RestartKeepsManifests | internal/proofpack/service.go:35-55 | whatever parts a restart finds, a manifest names items, all of it, exactly when it is no longer than the list of items; otherwise exactly its last entries do, as many as there are items |
| SystemRecovery.RestartKeepsMilestones | internal/operations/service.go:531-563 | for a log and a record of any two moments, the record follows the log exactly when no step between the two logs an event that sets a milestone of the tenant |
| SystemRecovery.RestartKeepsResolutions | internal/operations/adjudication.go:45-78 | whatever parts a restart finds, resolved issues and events correspond exactly when there are as many of these as of those |
| RunsWithRestarts.RestartsKeepParts | internal/persistence/file_store.go:40-99 | in runs with any number of restarts, each from parts of any earlier moments, every state has valid, normal, distinct items of their tenants within the limit, one open issue of a kind, and the newest ninety last-of-day snapshots of a history |
| RunsWithRestarts.RestartsKeepItemIDs | internal/evidence/service.go:137-216 | and no identifier is that of two items, of whatever tenants |
| RunsWithRestarts.PaymentsGoOn | internal/billing/service.go:99-115 | from a restart on, an event found marked is never logged again, and one found neither marked nor logged is logged once for its mark |
| RunsWithRestarts.LostMarkLogsTwice | internal/billing/service.go:99-115 | an event found logged and not marked would be logged twice by two more steps |
| RunsWithRestarts.MarkIsDurable | internal/billing/service.go:99-115 | that state is not found: once the call that marks an event returned nil, a restart finds the mark, whatever failed later |
| RunsWithRestarts.AttemptsStayOnce | internal/reminders/service.go:30-58 | from a restart that found the marks of all attempts no item is tried again for one day, if no checks overlap |
| RunsWithRestarts.LostMarkSecondAttempt | internal/reminders/service.go:30-58 | from a restart that lost the mark of an attempt, a due item with that key is tried a second time by three steps that overlap with nothing |
| SystemWitnesses.TornManifest | internal/persistence/file_store.go:68-99 | a create whose save fails at its first file and an export whose save crashes after `proofpacks.json`: the store opens on a manifest that names nothing |
| SystemWitnesses.TornMilestones | internal/persistence/file_store.go:68-99 | an event that landed without its milestone |
| SystemWitnesses.TornResolution | internal/persistence/file_store.go:68-99 | a resolved issue that landed without its event |
| SystemWitnesses.NeverLogged | internal/billing/service.go:99-115 | the process stops between the two writes of a payment event; whatever follows, the event is marked and never logged |
| SystemWitnesses.SentAgain | internal/reminders/service.go:30-58 | a reminder is sent, the save of its log entry crashes after `audit_logs.json`, and after the restart it is sent again |
| RunsOfEvidence.EvidenceKept | internal/evidence/service.go:137-216 | every atomic step of any service keeps the evidence invariant of every tenant |
| RunsOfHistory.HistoryKept | internal/operations/service.go:483-563 | every atomic step keeps milestones, reviews and snapshots in agreement with the logs |
| RunsOfHistory.ReadyMeansRecurring | internal/operations/service.go:200-304 | readiness, comparability and the second milestone coincide when no review call is in progress |
| RunsOfIssues.IssuesKept | internal/operations/adjudication.go:20-78 | every atomic step keeps the issues of every tenant |
| RunsOfMarks.MarksKept | internal/reminders/service.go:23-60 | every atomic step keeps marks, attempts and audit entries in agreement |

## Left out

- The Postgres store: SQL through a driver that is not part of this model, and not wired into the server.
- HTTP routing, sessions, authentication, templates other than the mapping editor's loop, payment signatures, e-mail delivery, file upload: library calls.
- Exports of the graph as Markdown, text and JSON, and all message wording: string assembly.
- `buildTrends`, `calculateActivationPercent`, friction, upgrade and founder signals, narratives' text: single expressions over the summary.
- The order of owners with equal unresolved counts, which the source leaves to an unstable sort over a map.
- What Go does with two map accesses at one instant: checks and marks of overlapping reminder selections interleave in the model, each in one step.
- Attached files, and review counts against the event log, after a restart from a mixture: only the pairs of parts named above are treated.
- Aliasing inside slices: the source updates array elements in place under the lock, the model replaces the sequence.
- Disk behaviour beyond the directory's contents: no reordering of a rename against the sync before it.
- 64-bit saturation of `time.Sub` and overflow of counters.
