# supply-stream: a verified model

supply-stream watches package registries, captures the releases it sees, compares each with its predecessor, crawls dependency graphs and reports what looks suspicious. This project models the algorithms inside it in Dafny and proves what they do on every input, every graph and every run. Where the code does not do what it sets out to do, the model keeps the code as it is: a lemma names an input that shows the gap, and another says exactly when the property does hold.

`dafny verify dfyconfig.toml` checks everything.

## What is proved

**The recency cache** (`RecencyCache`, `BoundedMap`). The class updates its queue, map and clock as the code does; each method is tied to a step on abstract states. Compaction runs before the new generation is stored, so the key being written can lose its stamp. The proofs say which key that is, that there is never more than one, which key goes instead, and that the capacity is kept in every run exactly when it is at least two. A run agrees with a least-recently-used list all the way exactly when no operation makes room while the oldest key is hidden; compacting after the write would make that every run.

**Captures and diffs** (`CaptureLifecycle`, `CaptureOutcomes`, `CaptureBackfill`, `BackfillOutcomes`). One action is one await-separated effect on disk, store, ledger replay or in-flight task; a crash may come between any two. Event ids name ecosystem, package and version, so each event has a final directory of its own, and the safety of an event depends on its own tasks alone. A ready event keeps its file in every run exactly when three things are kept apart: a staged capture of it and any other capture of it, a staged capture of it and a lineage backfill that writes it, and a staged capture of it and a sweep that has removed its files but not yet its directory. The program keeps none of them apart, and each has a run that leaves a ready event without `capture.json`; the first two need a crash, the third does not. A backfill settles a requested event exactly when the store has its row or its capture is on disk. The ledger line is appended first, so a crash right behind it leaves an event without a row, and marking a failure only updates rows. Where nothing fails, captures achieve what they are for: a capture, a diff or a lineage backfill that is alone on its event ends in at most twelve steps, whatever other events do in between, with the row, the file and the diff request it was started for, and a replayed event ends ready. An effect that fails is marked instead, and diffs are asked for by nothing else. The daemon starts the worker without this replay (`crates/supply-stream-core/src/lib.rs:125`), so there the replay is not what follows a crash.

**Four searches** (`OfflineFocus`, `LocalFocus`, `LayeredFocus`, `Collector`, over `Ball`). All are measured against one definition, the packages within a number of steps. A search that is cut keeps as many as fit, nearest first and each next to another, and says so exactly when something is left out; which edges it then reports is stated for cut and uncut searches alike. `FocusAgreement` compares the three focus searches. The local search counts visited packages and not queued ones. When fewer packages than the limit lie short of the rim, what is visited stays within the limit exactly when the whole ball does. When as many or more do, the search ends at the limit or above it, by no more than one step beyond the radius that reaches it; on a line it ends at the limit, on a star above it. When the ball fits its capacity, the crawl returns the same for every order in which fetches complete.

**Budgets and paging** (`BaselineWindows`, `BaselinePaging`, `BaselineEdges`, `NpmCensus`, `NpmListing`). Windows over pages read one slice of the ranked table, and every package of a window is in a batch of at most fifty that is asked for; without an edge limit every top package is. The greedy edge quotas are a fair split, over windows and over the batches of one. A quota of zero reads as no limit, so the edge limit holds exactly when it allows every window an edge. The npm listing never returns a wrong id; it returns all it should, however requests fail, exactly when no stretch of hidden ids fills a page of the smallest size it can be driven to. With pages of one row it stops after one id.

**Loops with a declarative specification**: edit distance (`EditDistance`, `ConfusableNames`), findings (`Findings`, `FindingsProperties`), broaden runs (`BroadenSelection`, `BroadenRun`), the staging cache (`StagingCache`, `StagingFit`), the project name scanner (`PypiNames`), and the verdict on a release (`ContentSummary`, `Assessment`).

`Wrappers`, `Naturals`, `Sequences` and `Sorting` hold shared definitions.

Definitions that the code and its specification share are tied down by laws in plain terms: what expires, which page sizes are tried, what a limit of zero means, how findings are ordered, where a name's core begins and ends, and when a release is suspicious.

## Conventions

Package names, event ids, paths and versions are only compared, so numbers stand for them; where the text matters they are strings. Names are taken after normalisation unless a normalisation function is a parameter. Registries, query services and failures are parameters or free choices, so that a theorem about all inputs is one about all their behaviours. Maps and sets that the code visits in an unspecified order are visited in any order.

## Model

| member | source | states |
|---|---|---|
| BoundedMaps.BoundedMap.constructor | crates/supply-stream-core/src/bounded_map.rs:24-31 | a new cache is empty, and its capacity is at least one |
| BoundedMaps.BoundedMap.Get | crates/supply-stream-core/src/bounded_map.rs:33-35 | reading returns the stored value and leaves the recency order alone |
| BoundedMaps.BoundedMap.GetClonedRefresh | crates/supply-stream-core/src/bounded_map.rs:37-44 | a hit returns the value and moves the key to the end of the recency list; a miss changes nothing |
| BoundedMaps.BoundedMap.GetMut | crates/supply-stream-core/src/bounded_map.rs:50-60 | a hit rewrites the value and refreshes the key, a miss changes nothing |
| BoundedMaps.BoundedMap.Insert | crates/supply-stream-core/src/bounded_map.rs:62-84 | the new state is the step of the abstract cache; it is that of a plain recency list exactly when room need not be made while the oldest key is hidden |
| BoundedMaps.BoundedMap.Remove | crates/supply-stream-core/src/bounded_map.rs:86-90 | the key and its value go, the others keep their order |
| BoundedMaps.BoundedMap.EvictOldest | crates/supply-stream-core/src/bounded_map.rs:100-112 | the pop loop skips stale stamps and drops the oldest key that the queue still shows |
| BoundedMaps.BoundedMap.Touch | crates/supply-stream-core/src/bounded_map.rs:114-124 | refreshing is a step of the abstract cache |
| BoundedMaps.BoundedMap.PushThenStamp | crates/supply-stream-core/src/bounded_map.rs:119-123 | queueing the stamp, compacting and only then storing the generation is the abstract write |
| BoundedMaps.BoundedMap.CompactOrderIfNeeded | crates/supply-stream-core/src/bounded_map.rs:132-145 | past its limit the queue becomes the live stamps in order of generation, whatever order the hash map is visited in |
| BoundedMaps.PlaceStamp | crates/supply-stream-core/src/bounded_map.rs:138-144 | sorting the live entries by generation gives one queue for every order of insertion |
| RecencyCache.Run | crates/supply-stream-core/src/bounded_map.rs:20-146 | every reachable state keeps the invariant: ascending generations, bounded queue, at most one hidden key, size at most max(capacity, 2) |
| RecencyCache.StepKeepsInv | crates/supply-stream-core/src/bounded_map.rs:50-145 | every operation keeps that invariant |
| RecencyCache.WrittenHides | crates/supply-stream-core/src/bounded_map.rs:66-72 | a write hides its own key exactly when it rebuilds the queue, and a rebuild restores the key hidden before |
| RecencyCache.EvictedDropsVictim | crates/supply-stream-core/src/bounded_map.rs:100-112 | eviction drops the least recently used key among those still shown, and no other |
| RecencyCache.StepIsLruIff | crates/supply-stream-core/src/bounded_map.rs:50-145 | one operation acts as on a plain recency list exactly when it does not make room while the oldest key is hidden |
| RecencyCache.WrongVictim | crates/supply-stream-core/src/bounded_map.rs:76-78 | otherwise the second oldest key goes, or none when there is no second |
| RecencyCache.RunIsLruIff | crates/supply-stream-core/src/bounded_map.rs:50-145 | a run agrees with a plain recency list after each of its operations exactly when none of them makes room while the oldest key is hidden |
| RecencyCache.RunIsLru | crates/supply-stream-core/src/bounded_map.rs:50-145 | a run without such an operation ends as the plain recency list does |
| RecencyCache.LateRunIsLru | crates/supply-stream-core/src/bounded_map.rs:50-145 | with compaction moved behind the generation write, every run is a run of a plain recency list |
| RecencyCache.LateStepKeepsInv | crates/supply-stream-core/src/bounded_map.rs:50-145 | and then nothing is ever hidden and the capacity is kept |
| RecencyCache.CapacityOneHoldsTwo | crates/supply-stream-core/src/bounded_map.rs:76-82 | at capacity one, an insertion, twenty refreshes and another insertion leave two entries |
| RecencyCache.CapacityKeptIff | crates/supply-stream-core/src/bounded_map.rs:62-112 | every run stays within the capacity exactly when the capacity is at least two |
| RecencyCache.CapacityZeroIsOne | crates/supply-stream-core/src/bounded_map.rs:24-31 | a capacity of zero behaves as one in every run |
| CaptureLifecycle.StepKeepsInv | crates/supply-stream-core/src/capture.rs:554-721 | every action, of any event's fetch, analysis, promotion, diff, lineage backfill, sweep, triage, crash or restart, keeps the invariant of an event whose staged captures are kept apart from its other captures, from lineage backfills and from half-finished sweeps |
| CaptureLifecycle.RunKeepsInv | crates/supply-stream-core/src/capture.rs:554-721 | so in every run that event, once ready, has its capture.json, and its diff.json once the diff is ready |
| CaptureLifecycle.TaskSteps | crates/supply-stream-core/src/capture.rs:981-1001 | a step of one event's task leaves directories, rows and diff requests of all other events alone, and the other tasks too |
| CaptureLifecycle.RenameKeepsInv | crates/supply-stream-core/src/capture.rs:2497-2516 | the rename publishes a staged directory that still holds its capture.json, and strands no ready event |
| CaptureLifecycle.DiffWriteKeepsInv | crates/supply-stream-core/src/autodiff.rs:207-221 | a diff task writes its file before it records it |
| CaptureLifecycle.LineageWriteKeepsInv | crates/supply-stream-core/src/history.rs:143-166 | a lineage backfill writes the previous release's file, unless there is one, before it records it ready |
| CaptureLifecycle.LineageStartKeepsInv | crates/supply-stream-core/src/history.rs:91-141 | once the registry has answered it may go on when no staged capture of that release is under way |
| CaptureLifecycle.RecordKeepsInv | crates/supply-stream-core/src/store.rs:1989-2054 | storing, reconciling or recording an event makes a job ready only when its file is there |
| CaptureLifecycle.SweepKeepsInv | crates/supply-stream-core/src/capture.rs:2565-2607 | a sweep that takes a staged directory whole, or leaves a staged capture alone, strands no ready event |
| CaptureLifecycle.OverlapStrands | crates/supply-stream-core/src/capture.rs:2497-2514 | two captures of one event: the second promotion clears what the first was recorded with, and a crash leaves the event ready without a file |
| CaptureLifecycle.LineageStrands | crates/supply-stream-core/src/history.rs:97-166 | a release that arrives while its lineage backfill waits for the registry: the backfill makes it ready, its own promotion clears the directory, and a crash leaves it so |
| CaptureLifecycle.SweepStrands | crates/supply-stream-core/src/capture.rs:2594-2607 | a sweep that has removed a staged capture.json when the rename comes: the event is recorded ready without a file, and without a crash |
| CaptureLifecycle.AlwaysSafeIff | crates/supply-stream-core/src/capture.rs:554-721 | a ready event keeps its files in every run exactly when those three are kept apart for it |
| CaptureLifecycle.AsWrittenNeverSafe | crates/supply-stream-core/src/lib.rs:210-262 | the program keeps nothing apart, so no event is safe in all runs |
| CaptureOutcomes.TwelveStepsEnd | crates/supply-stream-core/src/capture.rs:554-721 | a task that is alone on its event and none of whose effects fails has ended after twelve steps, whatever the tasks of other events do in between |
| CaptureOutcomes.CaptureEnds | crates/supply-stream-core/src/capture.rs:554-721 | such a capture ends with its event recorded ready, `capture.json` in place, nothing left in staging if it was staged, and the diff request in the queue that was asked for or that the analysis called for; only an ephemeral one that found no file, that nobody asks a diff for and that is dropped ends skipped |
| CaptureOutcomes.SuccessfulCapture | crates/supply-stream-core/src/capture.rs:554-708 | twelve successful steps and nothing else bring any started capture there |
| CaptureOutcomes.DiffEnds | crates/supply-stream-core/src/autodiff.rs:133-241 | such a diff ends with the diff recorded ready and both files there when the event asks for it or it is forced, and otherwise marks it skipped |
| CaptureOutcomes.LineageEnds | crates/supply-stream-core/src/history.rs:91-166 | such a lineage backfill ends with the previous release recorded ready and its file there |
| CaptureOutcomes.LineageReuses | crates/supply-stream-core/src/history.rs:153-166 | it takes a capture that is already there as it is |
| CaptureOutcomes.FailureIsMarked | crates/supply-stream-core/src/capture.rs:712-718 | an effect that fails, in a capture or a diff and at any stage, marks the job failed if there is a row, changes no other row and asks for no diff |
| CaptureOutcomes.RequestsAreAsked | crates/supply-stream-core/src/capture.rs:705-707 | in any state, a diff is only asked for by a capture that was told to or whose analysis called for it, as it ends recorded ready; a request only goes when the worker takes it up or in a crash |
| CaptureOutcomes.NeverEscalates | crates/supply-stream-core/src/capture.rs:671-675 | a capture that was told to ask for a diff is never escalated |
| CaptureOutcomes.StoringDoes | crates/supply-stream-core/src/store.rs:1989-2054 | what storing an event, reading it back from disk and triage make of its row, and that they change nothing else |
| CaptureOutcomes.LosingDoes | crates/supply-stream-core/src/capture.rs:2565-2607 | a whole sweep takes a staged directory and nothing else; a crash forgets tasks and requests and keeps disk and store |
| CaptureOutcomes.ClearingDoes | crates/supply-stream-core/src/capture.rs:577-579 | clearing staging before a capture and after a dropped one takes the staged directory and nothing else |
| CaptureOutcomes.TasksStart | crates/supply-stream-core/src/capture.rs:554-580 | requests, queued diff requests and deciding or diffing tasks start the tasks these laws speak of |
| CaptureOutcomes.ReleaseIsDiffed | crates/supply-stream-core/src/autodiff.rs:139-146 | from its arrival on: a release whose capture and diff succeed ends captured, and its diff ready when the event itself asks for one; a diff asked for by graph evidence alone is skipped by the worker, since it is not forced |
| CaptureBackfill.BackfillSettles | crates/supply-stream-core/src/capture.rs:253-395 | a drained crash-free backfill, with its diff and lineage tasks and the sweeper running beside it, leaves each replayed, requested event that has a row or a capture ready or failed |
| CaptureBackfill.BackfillLeavesSkipped | crates/supply-stream-core/src/capture.rs:253-395 | rows of skipped events are untouched |
| CaptureBackfill.LostRow | crates/supply-stream-core/src/store.rs:1757-1770 | an event in the ledger but not in the store, whose capture fails, stays without a row |
| CaptureBackfill.AlwaysSettlesIff | crates/supply-stream-core/src/capture.rs:253-395 | every backfill settles a requested, unskipped event exactly when it has a row or a capture.json |
| BackfillOutcomes.BackfillReadies | crates/supply-stream-core/src/capture.rs:253-395 | whatever a crash left: a drained backfill that turned to an event that is not skipped, and none of whose capture effects fails, leaves it recorded ready with its `capture.json` |
| BackfillOutcomes.BackfillAsksForDiffs | crates/supply-stream-core/src/capture.rs:253-395 | and when the ledger says that its diff is wanted, the request waits in the queue or has been taken up |
| OfflineFocus.CollectReverseEdges | crates/supply-stream-core/src/deps_dev.rs:275-333 | the reverse edges are exactly those that some counting row reports |
| OfflineFocus.FocusFrontier | crates/supply-stream-core/src/deps_dev.rs:335-358 | visits the ball, or as much of it as the frontier holds, nearest packages first and each but the target depending on a visited one, and reports truncation exactly when the ball is larger |
| OfflineFocus.ExpandDependents | crates/supply-stream-core/src/deps_dev.rs:341-357 | the inner loop marks and queues the new dependents of one package until the frontier is full |
| OfflineFocus.EmitEdges | crates/supply-stream-core/src/deps_dev.rs:360-403 | the dependency records are the induced edges on the visited packages, each once |
| OfflineFocus.FocusDependentsSubgraph | crates/supply-stream-core/src/deps_dev.rs:256-405 | the whole search over exported rows, with its one error: those packages, and exactly the edges between them, truncated or not |
| OfflineFocus.UntruncatedFocusUnique | crates/supply-stream-core/src/deps_dev.rs:335-403 | when the ball fits, packages and edges do not depend on any visiting order |
| LocalFocus.LocalFocusFrontier | src/priority_command.rs:3135-3159 | marking on pop visits the whole ball unless the check stops it, and then everything nearer than the package it stops at and nothing farther; it never goes more than one step beyond a radius that reaches the limit |
| LocalFocus.QueueDependents | src/priority_command.rs:3149-3158 | the inner loop queues every dependent, visited or not, until the check stops it |
| LocalFocus.StoppedIsPartial | src/priority_command.rs:3149-3153 | stopping means that packages short of the rim already reach the limit and that some package is left out |
| LocalFocus.SmallCoreIsComplete | src/priority_command.rs:3135-3159 | the ball is complete whenever the packages that get expanded stay below the limit |
| LocalFocus.BoundHeldIff | src/priority_command.rs:3149-3153 | then what is visited stays within the limit exactly when the ball does; otherwise the search never ends below the limit |
| LocalFocus.OvershootIsOneStep | src/priority_command.rs:3135-3159 | it visits no more than lies within one step of any radius at which one package more reaches the limit |
| LocalFocus.StarExceedsLimit | src/priority_command.rs:3149-3153 | on a star graph everything is visited and no truncation reported, for every limit from two on and every radius from one on, with a small core and with a large one |
| LocalFocus.LineHoldsLimit | src/priority_command.rs:3149-3153 | on a line graph with a large core the search stops with exactly as many packages as the limit |
| LayeredFocus.AbsorbRow | crates/supply-stream-core/src/deps_dev_bigquery.rs:333-352 | one row adds its edge, and its dependent while there is room |
| LayeredFocus.AbsorbLayer | crates/supply-stream-core/src/deps_dev_bigquery.rs:329-356 | querying a layer in batches absorbs the dependents and edges of the whole layer |
| LayeredFocus.DrainDepth | crates/supply-stream-core/src/deps_dev_bigquery.rs:315-327 | the front of the frontier is one whole layer |
| LayeredFocus.RetainAll | crates/supply-stream-core/src/deps_dev_bigquery.rs:353-355 | filtering the frontier by visited packages removes nothing |
| LayeredFocus.ExpandLayer | crates/supply-stream-core/src/deps_dev_bigquery.rs:315-357 | one turn of the loop completes the next layer or fills the frontier with it, and keeps the edges into every expanded package, also once the frontier is full |
| LayeredFocus.FocusDependentsLive | crates/supply-stream-core/src/deps_dev_bigquery.rs:282-357 | layer by layer with re-pushing also visits the ball or as much of it as fits, nearest first and connected; truncated or not, its edges are exactly those into visited packages less than the depth away, and it reports truncation exactly when one of them comes from a package it left out |
| FocusAgreement.SameVisited | crates/supply-stream-core/src/deps_dev_bigquery.rs:315-357 | the three focus searches visit the same packages when none is cut short |
| FocusAgreement.LayeredEdgesAreInner | crates/supply-stream-core/src/deps_dev_bigquery.rs:315-357 | the layered search emits exactly the induced edges whose dependency lies within one step less than the depth |
| FocusAgreement.RimEdgeMissing | crates/supply-stream-core/src/deps_dev.rs:335-403 | a three-package graph on which the two report different edges |
| Collector.ScheduleLevel | crates/supply-stream-core/src/collector.rs:299-317 | a level schedules new frontier packages, all of them unless the capacity is reached |
| Collector.AddResult | crates/supply-stream-core/src/collector.rs:337-374 | one completed fetch adds its record, edges and counters, and a record also when it failed |
| Collector.CollectLevel | crates/supply-stream-core/src/collector.rs:319-376 | for any completion order a level yields the same records and the same set of packages to go on with |
| Collector.CollectGraphMaterial | crates/supply-stream-core/src/collector.rs:254-377 | packages are scheduled nearest first, exactly min(ball, capacity) of them, and the output is their material |
| Collector.MaterialUnique | crates/supply-stream-core/src/collector.rs:293-377 | when the ball fits, the whole output is independent of every order |
| Collector.SeedsCollected | crates/supply-stream-core/src/collector.rs:366-373 | seeds that fit the capacity are all recorded, even those whose fetch fails |
| Collector.EdgeSourcesRecorded | crates/supply-stream-core/src/collector.rs:357-364 | every edge starts at a recorded package |
| BaselineWindows.BaselinePackageWindows | crates/supply-stream-core/src/deps_dev_bigquery.rs:489-521 | the greedy loop produces windows of a hundred side by side, each with its closed-form fair share of the edges |
| BaselineWindows.GreedyIsFair | crates/supply-stream-core/src/deps_dev_bigquery.rs:505-516 | taking the ceiling of what is left over what remains gives each part its fair share |
| BaselineWindows.WindowsAreContiguous | crates/supply-stream-core/src/deps_dev_bigquery.rs:502-518 | windows hold a hundred packages each, but the last, which holds one to a hundred, and tile the range from the offset |
| BaselineWindows.PackagesAreSpent | crates/supply-stream-core/src/deps_dev_bigquery.rs:502-518 | the package limits sum to the package budget, for every edge budget |
| BaselineWindows.EdgesAreSpent | crates/supply-stream-core/src/deps_dev_bigquery.rs:505-516 | the edge quotas sum to the edge budget |
| BaselineWindows.QuotasAreFair | crates/supply-stream-core/src/deps_dev_bigquery.rs:505-510 | quotas never grow, differ by at most one, are floor or ceiling of an equal split, and which of them are zero |
| Sequences.AppendNew | crates/supply-stream-core/src/deps_dev_bigquery.rs:552-559 | the row loop keeps the first occurrence of each row up to the cap |
| BaselinePaging.QueryTopPackages | crates/supply-stream-core/src/deps_dev_bigquery.rs:523-571 | paging by limit and offset reads the first different names of any table, repeated names or not |
| BaselinePaging.ImportTopPackages | crates/supply-stream-core/src/deps_dev_bigquery.rs:214-231 | over distinct rows the windows of an import together read one slice |
| BaselineEdges.QueryGlobalBaselineEdges | crates/supply-stream-core/src/deps_dev_bigquery.rs:443-479 | each batch is asked for the ceiling of what is left over the batches that remain; the result holds different edges within the quota, all from answers to batches of the frontier; below the quota, or without one, every package of the frontier is in a batch of at most fifty that was asked and whose whole answer was kept |
| BaselineEdges.BatchesAreChunks | crates/supply-stream-core/src/deps_dev_bigquery.rs:445-478 | the batches joined are the frontier; each holds one to fifty packages, and all but the last fifty |
| BaselineEdges.GatherIsFair | crates/supply-stream-core/src/deps_dev_bigquery.rs:445-478 | when every batch has plenty of edges, a query fills its quota exactly and takes a fair share from each batch |
| BaselineEdges.ImportDependencies | crates/supply-stream-core/src/deps_dev_bigquery.rs:103-134 | windows are imported in order until the edge limit is reached; edges are normalised, without self-edges, and counted once |
| BaselineEdges.WindowAsked | crates/supply-stream-core/src/deps_dev_bigquery.rs:103-134 | a window that returned less than its quota, or has none, asked for every package of its frontier, and all that was answered is imported |
| BaselineEdges.BelowLimitAsked | crates/supply-stream-core/src/deps_dev_bigquery.rs:103-134 | an import below its limit got to every window |
| BaselineEdges.EveryTopPackageAsked | crates/supply-stream-core/src/deps_dev_bigquery.rs:103-134 | without an edge limit, each package of the requested range of the table is asked for without a limit, and all that was answered is imported |
| BaselineEdges.EdgeLimitHeld | crates/supply-stream-core/src/deps_dev_bigquery.rs:103-134 | with an edge per window, no import keeps more edges than the limit, whatever rows come back |
| BaselineEdges.EdgeLimitExceeded | crates/supply-stream-core/src/deps_dev_bigquery.rs:506-510 | with fewer, a table and answers for which the import, batch limits and all, keeps one edge too many |
| BaselineEdges.EdgeLimitHeldIff | crates/supply-stream-core/src/deps_dev_bigquery.rs:103-134 | a positive edge limit holds for all answers exactly when it is at least the number of windows |
| NpmCensus.RequestPage | crates/supply-stream-core/src/census.rs:225-280 | failed requests halve the page down to ten rows and then fail the listing |
| NpmCensus.EmitRows | crates/supply-stream-core/src/census.rs:286-300 | a page emits its visible ids but the start key, up to the limit |
| NpmCensus.FetchNpmAllDocs | crates/supply-stream-core/src/census.rs:209-313 | the loop terminates and returns what the page-by-page specification says, for every pattern of failures |
| NpmListing.ListingIsPrefix | crates/supply-stream-core/src/census.rs:209-313 | a successful listing is always a prefix of the wanted ids: sorted, no gaps, no repetitions |
| NpmListing.CompleteIff | crates/supply-stream-core/src/census.rs:209-313 | it is complete for every pattern of failures exactly when no wanted id stands behind a stretch of hidden ids that fills a smallest page |
| NpmListing.ReachesIffUnblocked | crates/supply-stream-core/src/census.rs:286-304 | walking the ids row by row gets through exactly when no such id is in the way |
| NpmListing.ReachesIfGapsShort | crates/supply-stream-core/src/census.rs:286-304 | windows one row shorter than the smallest page that each show a visible id are enough for that |
| NpmListing.CompleteWithoutHidden | crates/supply-stream-core/src/census.rs:209-313 | without hidden ids two rows a page are enough |
| NpmListing.OneRowPagesStop | crates/supply-stream-core/src/census.rs:302-304 | with one row a page, which a page size of zero also asks for, the listing ends after one id |
| NpmListing.LimitDecides | crates/supply-stream-core/src/census.rs:209-224 | wanted are the visible ids behind the start key, as many as the limit says and all of them when it is zero |
| NpmListing.ShrunkIff | crates/supply-stream-core/src/census.rs:225-280 | each failed request halves the page, down to ten rows, and one at ten rows or fewer ends the listing |
| NpmListing.FewFailuresSucceed | crates/supply-stream-core/src/census.rs:209-313 | a listing whose requests fail no more often in all than its page can be halved succeeds |
| NpmListing.ManyFailuresFail | crates/supply-stream-core/src/census.rs:225-280 | one whose first page fails more often fails |
| PypiNames.FindSubslice | crates/supply-stream-core/src/census.rs:190-196 | the least offset at or behind the start, or none |
| PypiNames.ScanString | crates/supply-stream-core/src/census.rs:170-186 | a literal ends at the first quote no backslash hides |
| PypiNames.ClosingIff | crates/supply-stream-core/src/census.rs:170-186 | a string ends at its first quote with an even number of backslashes before it, if there is one |
| PypiNames.ScanKey | crates/supply-stream-core/src/census.rs:149-187 | each turn of the scan moves the cursor on |
| PypiNames.ExtractPypiProjectNames | crates/supply-stream-core/src/census.rs:143-188 | the scan returns the first name values of any text |
| PypiNames.NamesInvertsRender | crates/supply-stream-core/src/census.rs:143-188 | on a printed project list (PEP 691, section 'Project List') it returns the first names in order as they are written, escapes included, also for a project called `name` |
| PypiNames.NoColonSkipped | crates/supply-stream-core/src/census.rs:149-159 | a name key without a colon behind it is passed over |
| PypiNames.NoStringSkipped | crates/supply-stream-core/src/census.rs:160-187 | so is one whose value is not a string; one whose string does not end uses up the text |
| PypiNames.Pep691IsValid | crates/supply-stream-core/src/census.rs:143-188 | the example layout of PEP 691 is such a printing |
| EditDistance.DistIsLeastEdits | crates/supply-stream-core/src/capture.rs:2228-2255 | the distance is the least number of single-character insertions, deletions and substitutions |
| EditDistance.ZeroIffEqual | crates/supply-stream-core/src/capture.rs:2229-2231 | it is zero exactly for equal strings |
| EditDistance.Symmetric | crates/supply-stream-core/src/capture.rs:2228-2255 | it is symmetric |
| EditDistance.Triangle | crates/supply-stream-core/src/capture.rs:2228-2255 | it satisfies the triangle inequality |
| EditDistance.NearIffOneEdit | crates/supply-stream-core/src/capture.rs:2203-2226 | a distance of at most one is equality or one edit |
| ConfusableNames.FillRow | crates/supply-stream-core/src/capture.rs:2244-2251 | one pass fills the row of a longer prefix from the row before |
| ConfusableNames.LevenshteinDistance | crates/supply-stream-core/src/capture.rs:2228-2255 | two rows that swap roles compute the recursive distance |
| ConfusableNames.ConfusableNpmPackageCore | crates/supply-stream-core/src/capture.rs:2203-2226 | a name is confusable exactly when its core has at least five bytes and is one edit away from a popular name |
| ConfusableNames.ByteLengthAdds | crates/supply-stream-core/src/capture.rs:2210-2212 | the length that is compared with five is that in UTF-8 |
| ConfusableNames.CoreOfParts | crates/supply-stream-core/src/capture.rs:2204-2209 | the core is what stands between the scope and the first of the separators `-`, `_` and `.`, with the letters A to Z in lower case |
| ConfusableNames.EveryNameHasParts | crates/supply-stream-core/src/capture.rs:2204-2209 | every name has a scope, a core and a rest |
| Findings.PartitionActiveAndCleanedFindings | src/history_command.rs:2364-2449 | the scan yields the specified active and cleaned findings, each list in its order, with its counts |
| Findings.CleanedSnoc | src/history_command.rs:2392-2408 | a clean release cleans what was active of its package, and nothing else |
| Findings.ActiveSnoc | src/history_command.rs:2388-2408 | and leaves the active releases of other packages |
| FindingsProperties.FlaggedArePartitioned | src/history_command.rs:2364-2449 | every flagged release is reported exactly once, as active or as cleaned |
| FindingsProperties.ActiveAndCleanedIff | src/history_command.rs:2364-2449 | with unique event ids, active means that no clean release of the package follows, and otherwise exactly the earliest one cleans it |
| FindingsProperties.OrderDoesNotMatter | src/history_command.rs:2371-2375 | with unique event ids the report does not depend on the order of the input |
| FindingsProperties.ListsAreOrdered | src/history_command.rs:2413-2426 | active findings stand by severity and then latest first; cleaned ones by when they were cleaned, then by severity, then by event id |
| BroadenSelection.SelectStubs | src/priority_command.rs:3428-3439 | stubs come first, unknown ones once each, until the batch is full |
| BroadenSelection.SelectBroadenBatch | src/priority_command.rs:3416-3458 | the batch is exactly the news in what was read, and reading stops as soon as it is full |
| BroadenSelection.SelectionUnique | src/priority_command.rs:3416-3458 | that description leaves exactly one selection, with its cursor and counters |
| BroadenSelection.SelectionCovers | src/priority_command.rs:3441-3450 | every census entry passed is known or selected, and everything selected is new |
| BroadenRun.RunBroaden | src/priority_command.rs:1963-2101 | the command is a run of such steps that ends at exhaustion or after its iterations |
| BroadenRun.StepKnows | src/priority_command.rs:1963-2035 | a batch makes known what a crawl from it fetched, all that those packages depend on, and nothing else |
| BroadenRun.PopularityIs | src/priority_command.rs:1996-2008 | a selected package is recorded with how often it was observed, and others with what the registry says |
| BroadenRun.RunCovers | src/priority_command.rs:1963-2101 | when a batch fits a crawl: no package is selected twice, everything passed becomes known, and each batch that does not exhaust the census is full |
| BroadenRun.ExhaustedInTime | src/priority_command.rs:1963-2101 | enough iterations exhaust the census |
| BroadenRun.AlwaysCoversIff | src/priority_command.rs:1987-2008 | every run covers the census it passes exactly when the crawl's capacity is at least the batch size |
| StagingCache.StagingDirBytes | crates/supply-stream-core/src/capture.rs:2616-2638 | saturating addition over a directory tree reports its true size or the largest number |
| StagingCache.Staging.Expire | crates/supply-stream-core/src/capture.rs:2546-2585 | the scan removes exactly the expired directories and totals the rest |
| StagingCache.Staging.Evict | crates/supply-stream-core/src/capture.rs:2595-2607 | the oldest go until the counter is within the cap |
| StagingCache.Staging.Prune | crates/supply-stream-core/src/capture.rs:2532-2614 | what is left on disk and what is reported, for any order of the listing |
| StagingFit.FitsIff | crates/supply-stream-core/src/capture.rs:2574-2607 | the survivors' true size fits the cap exactly when no number of oldest directories holds enough for the saturated counter and too little for the true total |
| StagingFit.AlwaysFitsIff | crates/supply-stream-core/src/capture.rs:2532-2614 | over all orders of the listing: exactly when no set of oldest directories does |
| StagingFit.StopsTooSoon | crates/supply-stream-core/src/capture.rs:2595-2607 | two directories whose sizes overflow the counter: evicting the old one empties it, and the newer one stays although it exceeds the cap |
| StagingFit.BytesExactIff | crates/supply-stream-core/src/capture.rs:2609-2613 | the reported bytes are the survivors' true size exactly when the true total did not overflow, or when whatever is enough for the counter is all there is |
| StagingFit.ShortestPrefixEvicted | crates/supply-stream-core/src/capture.rs:2594-2607 | without overflow the survivors fit the cap in true sizes, and one eviction fewer would not do |
| StagingCache.SurvivorsCounted | crates/supply-stream-core/src/capture.rs:2609-2613 | the survivors are the unexpired directories that were not evicted, unchanged; the counts are those of the directories that are left and of those that are gone |
| StagingCache.AgeDecides | crates/supply-stream-core/src/capture.rs:2565-2572 | with a time to live, a directory modified at least that long ago is gone; any other, one from the future too, or any at all without a time to live, goes only when it is evicted for the cap, and stays when there is none |
| StagingCache.EvictedAreOldest | crates/supply-stream-core/src/capture.rs:2594-2607 | no evicted directory is newer than a survivor |
| ContentSummary.SummarizeContentMatches | crates/supply-stream-core/src/assessment.rs:396-466 | the fold computes a summary defined without any order |
| ContentSummary.SummaryIff | crates/supply-stream-core/src/assessment.rs:396-443 | which rules and tags are reported and when each flag is up, match by match; a match's own class and tags go before its rule's |
| ContentSummary.ConfidentIff | crates/supply-stream-core/src/assessment.rs:444-454 | malware is confident exactly when a malicious match is a strong chain and something corroborates it or there are two malicious tags, or when two malicious matches show tags of two groups and something corroborates them |
| ContentSummary.SummaryGrows | crates/supply-stream-core/src/assessment.rs:396-466 | more matches or an indicator of compromise never lose a flag, a rule or a tag |
| ContentSummary.OrderDoesNotMatter | crates/supply-stream-core/src/assessment.rs:396-466 | permuting the matches changes nothing in the summary |
| ContentSummary.ConfidentIsMalicious | crates/supply-stream-core/src/assessment.rs:444-454 | confident malware always rests on malicious behaviour |
| Assessment.MoreEvidenceNeverLowers | crates/supply-stream-core/src/assessment.rs:267-369 | more matches or an indicator of compromise never lower the severity, through fold and cascade |
| Assessment.VerdictIgnoresOrder | crates/supply-stream-core/src/assessment.rs:267-369 | permuting the matches never changes verdict, rules or tags |
| Assessment.OutcomeIsConsistent | crates/supply-stream-core/src/assessment.rs:267-369 | high severity is exactly confident malware, and suspicious is exactly more than informational |
| Assessment.SuspiciousIff | crates/supply-stream-core/src/assessment.rs:267-369 | exactly which signals make a release suspicious |
| Assessment.VerdictIff | crates/supply-stream-core/src/assessment.rs:267-369 | exactly when each verdict is given, and each severity |
| Assessment.MismatchLowersIff | crates/supply-stream-core/src/assessment.rs:333-350 | a repository mismatch lowers the severity exactly when a large change with downstream impact was all that raised it |

## Where the code falls short of its intent

- The recency cache compacts before it stores the new generation (`RecencyCache.WrittenHides`, `RecencyCache.CapacityOneHoldsTwo`).
- Nothing keeps two captures of one event, a capture and a lineage backfill, or a capture and the sweeper apart (`CaptureLifecycle.OverlapStrands`, `CaptureLifecycle.LineageStrands`, `CaptureLifecycle.SweepStrands`, `CaptureLifecycle.AlwaysSafeIff`).
- A diff that is asked for by graph evidence alone is handed over and then skipped (`CaptureOutcomes.ReleaseIsDiffed`).
- An event can be in the ledger and never get a row (`CaptureBackfill.LostRow`).
- The local focus limit does not bound what is visited (`LocalFocus.StarExceedsLimit`, `LocalFocus.BoundHeldIff`).
- An edge quota of zero means no limit (`BaselineEdges.EdgeLimitExceeded`, `BaselineEdges.EdgeLimitHeldIff`).
- The npm listing can end early behind hidden ids, and does with pages of one row (`NpmListing.CompleteIff`, `NpmListing.OneRowPagesStop`).
- A broaden batch larger than the crawl's capacity loses packages for good, since the cursor has passed them (`BroadenRun.AlwaysCoversIff`).
- The staging counter saturates and can then stop evicting too early (`StagingFit.StopsTooSoon`, `StagingFit.AlwaysFitsIff`).
- A repository mismatch can lower a verdict (`Assessment.MismatchLowersIff`).

## Left out

- RecencyCache: generations are unbounded; the saturation at the largest 64-bit number is not modelled.
- BoundedMaps.BoundedMap.GetMut: the reference it hands out is modelled as one write of a value, because a Dafny method cannot return a borrowed field.
- CaptureOutcomes: what a request asks for and whether the capture is ephemeral come from its priority, which is a parameter; so is what the analysis decides, to keep a capture or to call for a diff. An unreachable diff worker is a choice of the step that would notify it.
- CaptureLifecycle: file contents, retries and perf counters are not modelled; a file is there or not, and a write may fail leaving it either way. A lineage backfill runs beside the task that asked for it, which the code waits for. Commands of other processes that write captures (`src/history_command.rs`) are not modelled. What a diff is after a crash between writing and recording it is not claimed, because later requests return early.
- CaptureBackfill.BackfillSettles: assumes that indexing a stored capture does not fail, neither in reading it nor in recording it (in the code that ends the replay), and that failure marks reach the store; every other effect may fail. It does not say that a ready capture was scanned, because backfill only indexes an existing one.
- LocalFocus: the emitted counts, seeds and popularity of the local focus command follow from the visited set and are not modelled.
- OfflineFocus.FocusDependentsSubgraph: rows are parsed, so the error for a malformed row is left out, as are the error for a negative default popularity, the popularity given to each package, and the counters of the summary.
- LayeredFocus.FocusDependentsLive: the query answers with exactly the dependents of a batch, in any order and with repetitions; query errors and the error for a negative default popularity end the command and are not modelled, and neither are its row counters and popularity values.
- Collector.CollectGraphMaterial: popularity values are integers, and the map of seed popularities is a parameter, so the fold that builds it is left out, as is the emitted summary. A package is scheduled at most once, so what a registry answers for it is one value.
- BaselineEdges.ImportDependencies: one ecosystem; the loop over ecosystems and the records emitted for each edge and package are left out.
- NpmCensus: ids are ranks in the registry's collation order, and normalisation of the emitted names is left out.
- PypiNames: a text is its bytes, and a value between two quotes of a valid UTF-8 text is valid UTF-8, so the decoding that can drop a name is left out; values with escapes are returned as written, as the code does.
- Findings: versions, packages and event ids are numbers; ties without unique event ids are resolved in any order of packages.
- BroadenRun.RunBroaden: saving the progress file, appending to the output files and updating scores between iterations are left out; what is known and where the cursor stands is kept in memory.
- StagingCache.Staging.Prune: errors of the file system end the prune and are not modelled, a missing directory is an empty one, and modification times are numbers.
- ContentSummary.SummarizeContentMatches: rule profiles are a parameter, and the list of matched evidence is left out, because its order on equal rule and path depends on the input. The table of behaviour groups is the code's, and nothing is claimed about its entries.
- Assessment: the reason texts and factor lists; the last branches of the cascade differ only in them. How the signals are read from stored documents is left out.
- The import of dependents row by row and the merging of seed records: folds whose counters would only add easy members.
- The in-flight bound of the diff and capture workers: a one-line loop.
- Version bursts, retention of captured releases, repository signals: decision tables over parsed documents.
- HTTP, authentication, query text, JSON shapes, archives, tracing and the command line.
- Score propagation, priorities and the rest of the store's queries.
