# LabVIEW CI dashboard: a verified model

This project models the parts of the LabVIEW CI tooling that keep state, count or
rearrange things, and proves that they do so correctly. Run
`dafny verify dfyconfig.toml` to check it.

| file | what it models |
|---|---|
| `Options.dfy`, `Sorting.dfy`, `Grouping.dfy` | optional values; the stable sort, and grouping in order of first appearance, that the program's `sort` calls and dictionary loops perform |
| `RunStore.dfy` | the browser's store of optimistically queued runs, and each handler as a function of it |
| `Attribution.dfy`, `Verdicts.dfy` | which runs a reply hands out, and what a sync makes of an entry, said from the runs alone |
| `Protocol.dfy`, `Lifecycle.dfy`, `FreshRuns.dfy`, `Places.dfy`, `Labels.dfy`, `Lookups.dfy` | whole runs of the queue: handlers, network replies, clocks and pages interleaved in any order |
| `RunQueue.dfy`, `SyncRouting.dfy` | the handlers as the script writes them, changing the store in place |
| `Dispatch.dfy`, `DispatchProps.dfy`, `DispatchRun.dfy`, `DispatchSteps.dfy`, `MarkCells.dfy`, `Settlement.dfy`, `Selection.dfy` | selecting cells, splitting them into requests, sending these, and the entries, marks and counts that follow |
| `Estimate.dfy` | the time estimate of the Populate-history dialog |
| `CommitScan.dfy` | the retried API call, the commit classification and the paged history scan |
| `ProbePool.dfy`, `RevisionSources.dfy` | the revision list and the bounded pool of probes |
| `Frames.dfy`, `Viewport.dfy` | the diagram tree, and pan and zoom |
| `Gallery.dfy` | the rolling list of 200 commits |
| `MassCompile.dfy`, `LogReading.dfy`, `AnalyzerPivot.dfy` | the two report builders |

The environment is arbitrary within these assumptions: the run ids of one reply are
real and distinct, belong to the workflow that was asked about and carry the runs' creation
times; a run belongs to one workflow; batch backfill workflows and the snapshots workflow are not per-revision
workflows; each handler runs atomically; the clock is positive.

Four properties one might expect hold only under a condition. Each has its exact
condition here:

- a mark is not always kept when a request for its cell was accepted: it can be trusted
  exactly when all the runs wanted under its key travel in one dispatch
  (`MarkCells.MarkIsTrueIffOneDispatch`); with the warm-container option on, the mark of a
  Mass Compile cell cannot (`MarkCells.WarmMassCompileMarkCanBeLost`);
- a verdict does not always concern the runs of the latest mark: a mark carries the old
  runs over, so right after it every verdict concerns the mark exactly when there was no
  run to carry over (`FreshRuns.NewMarkIsJudgedByItsRunsIff`, `FreshRuns.StaleVerdict`), and
  over a whole run it does when no step brings an older run to the cell
  (`FreshRuns.VerdictConcernsTheMark`);
- for an arbitrary list of cells, `done` does not reach `total`, nor `ok + err` the number
  of dispatches, when a cell names a platform without a run target
  (`DispatchRun.TallyIsExact`, `DispatchRun.UnknownPlatformIsNotCounted`); the program's
  own callers never make such a cell, so for them the counts always agree
  (`DispatchRun.TallyIsComplete`, `DispatchRun.TallyOfHistory`);
- the rolling commit list can lose an entry when a kept commit is rebuilt with an
  earlier date (`Gallery.NextBuildIsExact`, `Gallery.BackdatingLoses`).

## Model

| member | source | states |
|---|---|---|
| `Protocol.ClaimsStayExclusive` | actions/dashboard/dashboard.py:2045-2233 | Over every interleaving of marking, re-runs from report pages, stamping, forgetting, the three capture replies, sync and apply from an empty store: two slots hold the same run id only if its workflow serves many cells (the snapshots workflow or a batch backfill workflow); an entry holds at most one run per platform; every recorded run belongs to the workflow stored beside it. |
| `Protocol.StepSound` | actions/dashboard/dashboard.py:2045-2378 | Each handler, whatever its inputs, keeps the invariant behind exclusive claims. |
| `Lifecycle.StepRespectsVerdicts` | actions/dashboard/dashboard.py:2045-2378 | Only a mark adds an entry, only forget and apply remove one, sync changes neither keys nor runs, and no step but a new mark changes a verdict; a mark always lifts it, keeping the runs if it comes from the dashboard and dropping them if it comes from a report page. |
| `Lifecycle.VerdictLasts` | actions/dashboard/dashboard.py:2308-2324 | Over any run without a new mark, a failed or finished entry keeps its verdict until it is dropped, and a dropped entry stays away. |
| `Lifecycle.RerunIsAFirstMark` | actions/dashboard/lvci-header.js:1053-1061 | A re-run from a report page is the same as forgetting the entry and marking the cell for its one platform at that moment. |
| `Lifecycle.MarkingAgain` | actions/dashboard/dashboard.py:2045-2053 | A mark sets the platforms, takes over the runs, and the time and parent where it gives none, and clears stamp, verdict and sign of life; marking again at the same time changes the platforms and nothing else. |
| `Lifecycle.TiedEntrySurvives` | actions/dashboard/dashboard.py:2333-2378 | With a token, the cell on the page and no newer result, an entry tied to a run is never dropped, however much time passes and however the other steps interleave, unless it is forgotten or its report page queues it anew. |
| `Lifecycle.UntiedEntryAgesOut` | actions/dashboard/dashboard.py:2363-2375 | In every reachable store, an entry without a run id is kept by an apply if and only if its twenty minutes are not over and its cell shows no newer result; the token plays no part. |
| `Lifecycle.FailedEntryIsSticky` | actions/dashboard/dashboard.py:2348-2356 | A failed entry is dropped by an apply exactly when a newer result exists, and is otherwise unchanged. |
| `Lifecycle.FinishedEntryIsHandedOver` | actions/dashboard/dashboard.py:2357-2375 | A finished entry stays exactly while its cell shows no result, the five minutes of grace are not over, it can be tied to a run or is within twenty minutes of its mark or last sign of life, and its cell can still be painted. |
| `Lifecycle.WaitingEntryIsKept` | actions/dashboard/dashboard.py:2363-2375 | An entry without a verdict stays exactly while it can be tied to a run or is within one of its twenty minutes, and its cell is painted, a run glyph, or a result no newer than the mark. |
| `Lifecycle.BadgesOfSurvivors` | actions/dashboard/dashboard.py:2348-2375 | After an apply every surviving failure on the page shows as failed, every other survivor is on the page and shows its old badge or a queued one; a new badge replaces the run glyph; other cells and all results are as before. |
| `Lifecycle.ApplyIsIdempotent` | actions/dashboard/dashboard.py:2333-2378 | A second apply at the same clock changes neither the store nor the page. |
| `Lifecycle.SurvivorsAreListed` | actions/dashboard/dashboard.py:1995-2008 | Of what survives an apply, the queue lists exactly the entries without a verdict, and their cells are on the page; whatever the queue lists survives an apply that finds the run glyph of its cell. |
| `FreshRuns.VerdictIsCurrentIff` | actions/dashboard/dashboard.py:2308-2324 | Whatever the live list says, an entry is failed only for a run of its latest mark that broke, and done only when all its runs are completed runs of that mark, if and only if none of its runs was created before the mark (up to the slack for clocks). |
| `FreshRuns.NewMarkIsJudgedByItsRunsIff` | actions/dashboard/dashboard.py:2045-2053 | In every reachable store: a new mark, later than all the runs its cell holds, is judged by its own runs alone if and only if the cell holds no run. |
| `FreshRuns.VerdictConcernsTheMark` | actions/dashboard/dashboard.py:2045-2324 | Over every run in which no mark carries an older run over and no lookup that reaches the cell starts before its latest mark, each verdict concerns the runs of the latest mark. |
| `FreshRuns.StaleVerdict` | actions/dashboard/dashboard.py:2045-2053 | A concrete failing case: a broken run of the past fails a cell that has just been marked again. |
| `RunQueue.Queue.MarkQueued` | actions/dashboard/dashboard.py:2045-2053 | The new entry takes over the old time stamp, parent and runs where no new ones are given, and drops the batch stamp and any verdict; no other entry changes. |
| `RunQueue.Queue.Rerun` | actions/dashboard/lvci-header.js:1053-1061 | A re-run from a report page replaces the entry by a fresh one without runs; no other entry changes. |
| `RunQueue.Queue.Forget` | actions/dashboard/dashboard.py:2075-2079 | Exactly the one entry is removed. |
| `RunQueue.Queue.Stamp` | actions/dashboard/dashboard.py:2789-2796 | Exactly the existing members of a batch get its workflow; no entry is created. |
| `RunQueue.Queue.ClaimedRunIds` | actions/dashboard/dashboard.py:2105-2111 | The loop collects exactly the run ids held anywhere in the store. |
| `RunQueue.QuestionsCoverNeeds` | actions/dashboard/dashboard.py:2098-2133 | No workflow is asked about twice; the question about a workflow is about exactly those platforms of the entry that run on it and for which no slot stands, in the entry's order; every workflow with such a platform is asked about. |
| `RunQueue.Queue.CaptureRuns` | actions/dashboard/dashboard.py:2112-2133 | Joins a lookup in flight, is answered at once, or starts a chain: exactly when there is a token, no lookup in flight, and a platform of the entry with a run target and without a slot; the questions are then about exactly those platforms, under their workflows. |
| `RunQueue.Queue.CaptureReply` | actions/dashboard/dashboard.py:2139-2176 | Attributes candidates as the specification says (see `Attribution`); then the chain waits for its timer if and only if a platform still lacks its run and fewer than five passes were made, and otherwise ends and unlocks the cell. |
| `RunQueue.Queue.CaptureTimer` | actions/dashboard/dashboard.py:2121-2132 | After two seconds the chain asks again, about exactly the platforms that still lack a run, if and only if there are a token and such a platform; otherwise it ends and unlocks the cell. |
| `Attribution.CaptureHandsOutNewest` | actions/dashboard/dashboard.py:2139-2168 | For each question of a pass: only runs of its reply are handed out that have a known status, were created since t0 and that no entry held, only to platforms that were asked about and had none; no such run that is left over was created later than one handed out, and platforms asked about earlier get later runs; a platform stays without a run only when no such run is left. Old slots and all other entries are unchanged. |
| `Attribution.CaptureAddsOnlyAsked` | actions/dashboard/dashboard.py:2158-2166 | Every slot that a pass adds is of a workflow that was asked about. |
| `Lookups.LookupsCoalesce` | actions/dashboard/dashboard.py:2112-2176 | Over every run: at most one chain per cell, at most five passes per chain, and every callback handed over is either invoked exactly as often as it was handed over or waits on a chain in flight. |
| `Lookups.LookupsEnd` | actions/dashboard/dashboard.py:2112-2176 | Chains take at most ten replies and timers for each call; when none is in flight every callback has been invoked exactly once and no cell is left locked. |
| `RunQueue.Queue.CaptureSnapshotRun` | actions/dashboard/dashboard.py:2188-2200 | The newest snapshots run dispatched since t0 goes to every snapshot entry without a run, and to nothing else. |
| `RunQueue.Queue.CaptureBatchRun` | actions/dashboard/dashboard.py:2219-2231 | The newest run of the batch since t0 goes to every entry stamped with its workflow that has no run, and to nothing else. |
| `Attribution.SnapshotReplyGivesNewest` | actions/dashboard/dashboard.py:2188-2200 | Unless the reply lists no run since t0, each snapshot entry without a run gets exactly one slot, for a run of the reply since t0 than which none was created later; every other entry is unchanged. |
| `Attribution.BatchReplyGivesNewest` | actions/dashboard/dashboard.py:2219-2231 | The same for the entries stamped with the workflow, each under its own first platform. |
| `SyncRouting.PlanLookups` | actions/dashboard/dashboard.py:2243-2271 | The reconciler looks for the run of every entry without a verdict and without a run, by exactly one lookup (two only for a snapshot cell stamped with a batch), for nothing else, and no shared lookup starts after the entry was marked. |
| `SyncRouting.PlanSnapshotLookup` | actions/dashboard/dashboard.py:2248-2252 | The snapshots lookup is made exactly when some live snapshot entry has no run, from the earliest live snapshot entry on. |
| `SyncRouting.PlanBatchLookups` | actions/dashboard/dashboard.py:2256-2264 | One lookup for each batch workflow that a live entry without a run is stamped with, from the earliest such entry on, and no other. |
| `SyncRouting.PlanChains` | actions/dashboard/dashboard.py:2265-2268 | Every other live entry without a run gets one lookup of its own, once. |
| `RunQueue.Queue.Judge` | actions/dashboard/dashboard.py:2308-2324 | The flag loop computes the declarative verdict: any active run means live; else failed once all runs are known and one failed; else done once all completed; else nothing. |
| `RunQueue.Queue.JudgeAll` | actions/dashboard/dashboard.py:2305-2324 | Every entry is judged so; reports a change exactly when some entry reached a verdict. |
| `Verdicts.SyncJudgesByTheRuns` | actions/dashboard/dashboard.py:2305-2324 | Of an entry tied to a run and without a verdict, from its slots and the listed statuses: while one of its runs is going on it gets no verdict and the sync is noted; it becomes failed if and only if none is, all are listed and one broke, with the address of the first broken run that has one; it becomes done if and only if all are completed and none broke. Nothing else changes. |
| `Verdicts.ReappliedIffChanged` | actions/dashboard/dashboard.py:2325-2330 | The badges are re-applied exactly when the sync has changed some entry. |
| `RunQueue.Queue.SyncReply` | actions/dashboard/dashboard.py:2289-2330 | The line is rebuilt and is known and fresh afterwards; every entry is judged; the page is re-applied exactly when a verdict was reached; the badges are numbered by their real places. |
| `RunQueue.Queue.BuildLine` | actions/dashboard/dashboard.py:2297-2304 | The position table numbers exactly the waiting runs, in line order, and the total is their number. |
| `Places.PlacesAreBijection` | actions/dashboard/dashboard.py:2297-2304 | The positions are a bijection from the waiting runs onto 1..total, ordered by creation time, then id, in whatever order the runs are enumerated. |
| `Sorting.TextLessIs` | actions/dashboard/dashboard.py:2305 | Ids are compared as text: the first differing character decides, and a prefix comes first. |
| `Places.BestPlaceIsAPlace` | actions/dashboard/dashboard.py:2026-2034 | A cell's number is the lowest position among its runs. |
| `Places.NumbersAreNotShared` | actions/dashboard/dashboard.py:2026-2034 | In every reachable store no two per-revision cells have the same best place. |
| `Labels.LabelsAreNotShared` | actions/dashboard/dashboard.py:2009-2044 | In every reachable store, whether the live queue is known or not, no two per-revision cells are stamped with the same number. |
| `Labels.SyncedLabelsAreNotShared` | actions/dashboard/dashboard.py:2289-2330 | After a sync of any reachable store, with or without a re-application of the page, no two per-revision cells are stamped with the same number. |
| `Labels.LabelsTellPlaces` | actions/dashboard/dashboard.py:2009-2044 | Exactly the cells in line with a queued badge are labelled. Once the live queue is known a number is the first place in it that a run of the cell holds, and a blank means none; before, it is the cell's rank by age in this browser; with at most one run in line there is no number. |
| `RunQueue.Queue.LiveEntries` | actions/dashboard/dashboard.py:1995-2008 | Exactly the entries still in line, each once, oldest first. |
| `RunQueue.Queue.Renumber` | actions/dashboard/dashboard.py:2009-2044 | Every queued badge in line gets its fresh place, its oldest-first rank before the live queue is known, or a blank; nothing is shown when at most one run is in line. |
| `RunQueue.Queue.ApplyQueued` | actions/dashboard/dashboard.py:2333-2378 | Exactly the entries that the retention rule keeps survive, unchanged, and exactly their cells are painted. |
| `Dispatch.Plan` | actions/dashboard/dashboard.py:2738-2771 | The three loops build the chain (one snapshots unit, the batches, the revisions oldest first) and `total` is the number of its requests. |
| `DispatchProps.SplitIsPartition` | actions/dashboard/dashboard.py:2756-2770 | A (cell, platform) pair is sent on its own exactly as often as it is wanted when no batch takes its platform, and otherwise never sent but filed that often under its one batch; a diff of a root commit is wanted zero times. |
| `Selection.SentIffWanted` | actions/dashboard/dashboard.py:2741-2770 | A run is sent on its own if and only if its cell is selected, is neither a snapshot nor a diff of a root commit, is to run on the platform, and the warm-container route does not take it. |
| `Selection.CellPlatformsAre` | actions/dashboard/dashboard.py:2911-2919 | A cell runs on the platform it names, any other on the platforms of its capability, or on those the user chose where there is a choice and it holds an existing one; so never on none that it could run on. |
| `DispatchProps.BatchCarriesItsMembers` | actions/dashboard/dashboard.py:2755-2769 | A batch carries each once, oldest to newest, exactly the commits of the cells that want its platform; goes to the target's backfill workflow under the target's input name; is forced if and only if a member is a re-run or already done; no two batches share capability and platform. |
| `Selection.SnapshotsGoFirst` | actions/dashboard/dashboard.py:2741-2748 | One snapshots dispatch goes out, first, exactly when some cell is a snapshot; it speaks for the commits of exactly those cells, and is forced if and only if one of them is a re-run or already done. |
| `Selection.RevisionsGoLast` | actions/dashboard/dashboard.py:2749-2814 | Revisions go out after the batches, oldest first. |
| `DispatchProps.RequestCount` | actions/dashboard/dashboard.py:2771 | `total` without sorting or building anything: kept platforms, plus one for snapshots, plus the distinct batched (capability, platform) pairs. |
| `DispatchProps.DispatchTotal` | actions/dashboard/dashboard.py:2714-2730 | The confirmation count equals the dispatcher's own total for every list of cells, platform choice and warm setting. |
| `DispatchProps.HistCellsDispatchable` | actions/dashboard/dashboard.py:3132-3148 | The dialog selects only cells in scope and switched on, never a diff of a root commit, and a finished cell only for a re-run. |
| `Selection.HistCellsAreChosen` | actions/dashboard/dashboard.py:3132-3148 | The dialog selects every cell in scope that is switched on, empty unless re-running, on a selected platform and not a diff of a root commit, and no other, in order; each as a re-run exactly when its activity is to re-run. |
| `DispatchProps.HistRuns` | actions/dashboard/dashboard.py:3207-3219 | The announced run count equals the dispatcher's total for the dialog's cells, and the revisions counted are those of the cells. |
| `DispatchProps.AnnouncedEqualsDispatched` | actions/dashboard/dashboard.py:3207-3218 | Announced, confirmed and dispatched counts are one number for the dialog's own cells. |
| `DispatchRun.DispatchCells` | actions/dashboard/dashboard.py:2738-2850 | Marks every targeted cell up front, stamps the batches, then books every answer in chain order: the final store and tally are those of the specification. |
| `DispatchRun.TallyIsExact` | actions/dashboard/dashboard.py:2771-2850 | For any list of cells: every answered request is counted once, as accepted or as a recorded failure; `done` reaches `total` and `ok + err` the number of dispatches if and only if every platform of every eligible cell has a run target; an error always leaves a failure. |
| `DispatchRun.DispatchableIffKnown` | actions/dashboard/dashboard.py:2814-2831 | No request of a selection is dropped if and only if every platform of every eligible cell has a run target. |
| `DispatchRun.TallyIsComplete` | actions/dashboard/dashboard.py:2654-2666 | For the cells that the program dispatches (the page's run glyphs, and cells of the dialog), `done` always ends at `total` and `ok + err` at the number of dispatches. |
| `DispatchRun.TallyOfHistory` | actions/dashboard/dashboard.py:3132-3148 | The same for whatever the Populate-history dialog selects. |
| `Settlement.ReportIsExact` | actions/dashboard/dashboard.py:2771-2850 | `ok` is the number of dispatches of which a request was accepted; the failures are the refused requests, each with the workflow it went to and its status; the token is cleared if and only if a request was answered 401. |
| `DispatchRun.UnknownPlatformIsNotCounted` | actions/dashboard/dashboard.py:2828-2846 | A concrete cell, not one that the program makes, whose request is announced but never counted. |
| `DispatchRun.MarkFollowsItsUnit` | actions/dashboard/dashboard.py:2814-2846 | When one dispatch alone speaks for a cell and has its run targets, the cell ends marked if and only if a request of that dispatch was accepted. |
| `Settlement.AcceptedEntry` | actions/dashboard/dashboard.py:2777-2843 | When one dispatch alone speaks for a cell and is accepted, the entry's platforms are those of exactly the accepted requests, in order (or what the shared run covers); it carries the time of the dispatch, the runs held before, its parent, the stamp of its batch, and no verdict. |
| `DispatchRun.MarkIsTrueIffOneUnit` | actions/dashboard/dashboard.py:2777-2846 | When the dispatches that speak for a cell have their run targets: for every course of answers its mark tells whether a request for it was accepted, if and only if a single dispatch speaks for it. |
| `MarkCells.MarkIsTrueIffOneDispatch` | actions/dashboard/dashboard.py:2755-2846 | In terms of the selected cells, several of which may share a mark: it can be trusted for every course of answers if and only if all the runs wanted under its key travel in one dispatch (the batch of one platform, or the requests of one cell). |
| `MarkCells.ProgramMarkIsTrueIff` | actions/dashboard/dashboard.py:2755-2846 | The same, with nothing else assumed, for the cells that the program dispatches. |
| `MarkCells.CellMarkIsTrueIffUnsplit` | actions/dashboard/dashboard.py:2755-2846 | For a cell that shares its key with no other: if and only if no batch takes one of several platforms of the cell. |
| `MarkCells.SnapshotMarkIsTrue` | actions/dashboard/dashboard.py:2801-2812 | The mark of a snapshot cell can always be trusted. |
| `MarkCells.WarmMassCompileMarkCanBeLost` | actions/dashboard/dashboard.py:515-530 | The program's own run targets with the warm-container option on, and one Mass Compile cell of the page: its mark can be lost although a run was accepted. |
| `MarkCells.SplitCellCanLoseItsMark` | actions/dashboard/dashboard.py:2780-2788 | A cell with one platform in a batch and any other platform, and two cells that share a key with different platforms, can lose the mark although a request was accepted. |
| `DispatchRun.OtherMarksStay` | actions/dashboard/dashboard.py:2777-2846 | Marks of cells outside the selection are left alone. |
| `Settlement.OtherEntriesStay` | actions/dashboard/dashboard.py:2777-2846 | A cell that no dispatch speaks for keeps its entry unchanged, or stays without one. |
| `DispatchSteps.DispatchIsARun` | actions/dashboard/dashboard.py:2738-2850 | The store that a dispatch leaves is reached from the one before it by a sequence of marks, stamps and forgets, so what is proved over whole runs holds across dispatches. |
| `DispatchSteps.DispatchKeepsClaimsExclusive` | actions/dashboard/dashboard.py:2738-2850 | After any run followed by a dispatch of any cells, with any answers: claims are exclusive, with one run per platform, each of the workflow stored beside it. |
| `Estimate.TimingFor` | actions/dashboard/dashboard.py:2965-2976 | The measured work where there is one; a timing is measured exactly when a total is; startup and work then make up the measured total, unless that leaves less than twenty seconds of startup, which is then twenty. |
| `Estimate.SavingIsExact` | actions/dashboard/dashboard.py:2984-3009 | Fresh minus warm is the sum over batches of (members - 1) startups, so warm never exceeds fresh; with the option off they are equal. |
| `Estimate.WarmCount` | actions/dashboard/dashboard.py:2993-3006 | A batch group counts its (capability, platform) pair exactly as often as it is to run. |
| `Estimate.HistEstimate` | actions/dashboard/dashboard.py:2984-3009 | The dialog's loops compute those two totals. |
| `Selection.EstimateCoversRequests` | actions/dashboard/dashboard.py:2984-3009 | Without warm containers the estimate covers exactly as many runs as are dispatched, leaving out the snapshots run. |
| `Selection.EstimatedPairs` | actions/dashboard/dashboard.py:2991-2996 | It is for exactly the capabilities and platforms of the selected cells. |
| `CommitScan.Scan.GhGet` | actions/dashboard/dashboard.py:30-71 | Every request of a call asks for the path wanted; at most four requests, one once degraded; all but the last failed in a transient way; the result is the last request's; the degraded flag is set exactly when that one failed in a transient way, and never cleared. |
| `CommitScan.Scan.GetDefaultBranch` | actions/dashboard/dashboard.py:80-86 | The repository is asked at most once, and the branch is the one that the last answer names, or `main`; the degraded flag is never cleared. |
| `CommitScan.ClassifyMeaning` | actions/dashboard/dashboard.py:375-384 | A commit is a project commit if and only if it touches LabVIEW source outside the tooling, and dependency-only if and only if, besides, all such files are package manifests. |
| `CommitScan.Scan.ClassifyCommit` | actions/dashboard/dashboard.py:370-387 | Classifies a commit once, from the files that the last answer to a request for its details lists; later calls answer from the cache without a request. |
| `CommitScan.Scan.ScanPage` | actions/dashboard/dashboard.py:415-424 | A page is scanned in order, whole unless the cap or a degraded API ends it, keeps the first hundred commits and the project commits, and every commit is a project commit by the files in an answer to a request for its details. |
| `CommitScan.Scan.FetchCommits` | actions/dashboard/dashboard.py:407-428 | If the API is not degraded: the result is, in order, exactly the scanned commits that are among the first hundred or touch project source, by the files in answers to requests for their details; the scan is a prefix of the pages 1, 2, 3 and so on, each the answer to a request made for it during this scan, and it ended at the end of history (the last request asked for the next page and got no commit), at 3000, or at the first page boundary with a hundred scanned and thirty project commits. |
| `CommitScan.ScanShowsProject` | actions/dashboard/dashboard.py:404-428 | No recent commit and no scanned project commit is lost; a scan that found enough shows at least thirty project commits. |
| `CommitScan.KeptSize` | actions/dashboard/dashboard.py:419-422 | How many commits a scan keeps: all of up to a hundred, and beyond them one for each project commit. |
| `CommitScan.KeptAre` | actions/dashboard/dashboard.py:415-424 | The commits shown are, in order, exactly the first hundred scanned and the project commits. |
| `CommitScan.Scan.CommitsToPublish` | actions/dashboard/dashboard.py:440-445 | Nothing is published if and only if the API degraded; what is published obeys all that is said of the scan. |
| `ProbePool.LoadRevisionList` | actions/dashboard/lvci-header.js:707-727 | One entry per commit in order of first appearance, merging its records in order, snapshot commits only where the file list has none, with the current revision in front if missing. |
| `ProbePool.RevisionsAreDistinct` | actions/dashboard/lvci-header.js:707-724 | The list holds every commit once, none without an id, and the current revision if there is one. |
| `RevisionSources.RevisionsAre` | actions/dashboard/lvci-header.js:711-720 | The list holds exactly the commits of the two sources and the revision on show. |
| `RevisionSources.FieldsAre` | actions/dashboard/lvci-header.js:715-718 | An entry of the file list shows only the five copied fields, each as the last record of the file list with it gives it, whatever the snapshots list says; any other entry shows each field as the last record of the snapshots list gives it. |
| `RevisionSources.RevisionsInOrder` | actions/dashboard/lvci-header.js:714-720 | A revision on show that no source lists stands in front; then come the commits that only the snapshots list has, then those of the file list, each in the order of their first appearance. |
| `ProbePool.PoolIsExact` | actions/dashboard/lvci-header.js:1574-1607 | Under every schedule of answers: launched equals answered plus in flight, at most eight are in flight, none in flight only when all are answered, and the final action runs exactly once, with the last answer, giving a list that does not depend on the order of answers. |
| `ProbePool.NoProbeTwice` | actions/dashboard/lvci-header.js:1596-1605 | A probe that has been answered is never answered again. |
| `ProbePool.AnswersAreDistinct` | actions/dashboard/lvci-header.js:1596-1605 | No probe is answered twice. |
| `ProbePool.ProbedDiffers` | actions/dashboard/lvci-header.js:1574-1607 | At every moment, no revision of a list without repeats has been probed twice. |
| `ProbePool.EachRevisionProbedOnce` | actions/dashboard/lvci-header.js:1574-1607 | Over the list that `loadRevisionList` builds, under every schedule: when the pool is done, every revision but the one on show has been probed exactly once, and nothing else has. |
| `ProbePool.ToCheckMembers` | actions/dashboard/lvci-header.js:1579 | Exactly the revisions other than the current one are probed. |
| `ProbePool.ExpectedIs` | actions/dashboard/lvci-header.js:1582-1584 | The final list is, in list order, the revision on show and those for which a report was found. |
| `ProbePool.Prober.OnAnswer` | actions/dashboard/lvci-header.js:1598-1604 | The callback updates the shared counters as the specification of one answer says. |
| `Frames.FindRoot` | actions/dashboard/vi-render.js:69-74 | Returns the first frame that no frame lists, and frame 0 only when every frame is listed. |
| `Frames.AcyclicHasRoot` | actions/dashboard/vi-render.js:69-74 | Without a cycle some frame is unlisted, so the fallback is never needed. |
| `Frames.GroupStructures` | actions/dashboard/vi-render.js:78-89 | The loop groups siblings by rectangle in order of first appearance. |
| `Frames.StructuresSplitByRect` | actions/dashboard/vi-render.js:78-89 | A structure holds all the siblings of its rectangle, in order; no two structures share a rectangle; no sibling is lost or repeated. |
| `Frames.PaintFrame` | actions/dashboard/vi-render.js:107-149 | The recursion paints the frame first and, structure by structure, exactly the frames below it, as often as the tree reaches them. |
| `Frames.PaintedAsOftenAsParent` | actions/dashboard/vi-render.js:107-149 | A listed frame is painted as often as its parent. |
| `Frames.PaintsEachOnceIffSingleRoot` | actions/dashboard/vi-render.js:107-149 | In a forest, painting from an unlisted frame paints every frame exactly once if and only if it is the only unlisted frame. |
| `Frames.Render` | actions/dashboard/vi-render.js:265-276 | With a single unlisted frame, the root is found and every frame is painted exactly once, the root first. |
| `Viewport.ZoomKeepsAnchor` | actions/dashboard/vi-render.js:194-202 | The diagram point under the anchor stays where it is, and the zoom stays within its bounds. |
| `Viewport.LastZoomWins` | actions/dashboard/vi-render.js:194-202 | Two zooms at one anchor equal the last alone. |
| `Viewport.ZoomBackUndoes` | actions/dashboard/vi-render.js:194-202 | Zooming back to the old zoom at the same anchor undoes a zoom. |
| `Viewport.FitIsBest` | actions/dashboard/vi-render.js:235-246 | Fit leaves its margins exactly when the diagram fits at the smallest zoom; it is then centred, at the largest zoom not above 1 that leaves them; otherwise it is at the smallest zoom; the left and top margins are always kept, and an axis with room to spare is centred. |
| `Viewport.FitForgetsTheSession` | actions/dashboard/vi-render.js:235-246 | Whatever was done before, fitting ends in the same view. |
| `Viewport.Play` | actions/dashboard/vi-render.js:187-247 | Over every sequence of events the zoom stays in [0.04, 8]. |
| `Viewport.DragFollowsPointer` | actions/dashboard/vi-render.js:211-220 | A drag, whatever its path, moves the view by the distance between its ends and leaves the zoom. |
| `Viewport.WheelBackUndoes` | actions/dashboard/vi-render.js:203-209 | Turning the wheel and back at one place restores the view, unless the first turn hits a bound. |
| `Viewport.DoubleClickToggles` | actions/dashboard/vi-render.js:224-232 | A double click goes to the original size or from there to twice that size, and a second one at the same place undoes it. |
| `Viewport.Stage.ZoomAt` | actions/dashboard/vi-render.js:194-202 | The assignments keep the point under the anchor and the zoom bounds. |
| `Viewport.Stage.FitDiagram` | actions/dashboard/vi-render.js:235-246 | The fit assignments are those of the specification. |
| `Gallery.UpdateCommits` | actions/snapshots/build-gallery.py:104-126 | Drops the commit's earlier entry, inserts the new one in front, sorts stably newest first and cuts to 200. |
| `Gallery.CuttingLosesNothing` | actions/snapshots/build-gallery.py:113-126 | For every sequence of builds in which no commit's date goes backwards, the rolling list equals the first 200 of one stable newest-first sort of everything ever built. |
| `Gallery.DistinctRecent` | actions/snapshots/build-gallery.py:113-126 | For builds of distinct commits, everything is simply the builds, latest first on ties. |
| `Gallery.CutCommutes` | actions/snapshots/build-gallery.py:113-126 | One update of a cut list is the cut of the updated full list, except exactly when it backdates a kept commit behind an entry already dropped. |
| `Gallery.NextBuildIsExact` | actions/snapshots/build-gallery.py:113-126 | As long as nothing has been lost, the next build loses nothing if and only if it does not do that. |
| `Gallery.BackdatingLoses` | actions/snapshots/build-gallery.py:113-126 | A concrete history on which such a rebuild does lose an entry. |
| `Gallery.UpdatedShape` | actions/snapshots/build-gallery.py:113-126 | After one update of any list: dates do not increase, at most 200 entries, one entry of the updated commit at most, and distinct commits stay distinct. |
| `Gallery.RepeatChangesNothing` | actions/snapshots/build-gallery.py:113-126 | Repeating an update with the same date changes nothing, whatever the file held. |
| `MassCompile.ParseLog` | actions/masscompile/build-masscompile-report.py:162-251 | The three passes fold into one card per VI, in the order in which the VIs are first mentioned, and `bad_rels` is the set of VIs with an accepted header or flagged path. |
| `MassCompile.CardSaysWhatTheLogSays` | actions/masscompile/build-masscompile-report.py:192-250 | A card of the log holds one broken problem per header of its VI, one for any number of loose paths if there was no header, and every distinct dependency message of the VI once, in order. |
| `MassCompile.CardsMatchTheLog` | actions/masscompile/build-masscompile-report.py:162-251 | A card carries a broken problem if and only if its key is in `bad_rels`; no card is empty; dependency messages are distinct per VI. |
| `MassCompile.BadVisHaveCards` | actions/masscompile/build-masscompile-report.py:162-251 | Every bad VI has a card. |
| `LogReading.HeadersAre` | actions/masscompile/build-masscompile-report.py:184-204 | The headers of a VI are exactly the header lines whose path leads to it: in lower case it ends in .vi, and it is not CI tooling. |
| `LogReading.LooseAre` | actions/masscompile/build-masscompile-report.py:206-223 | The loose paths of a VI are exactly the flagged paths that lead to it and that no accepted header gives. |
| `LogReading.MissingAre` | actions/masscompile/build-masscompile-report.py:225-248 | The dependency failures of a VI are exactly those that name a dependency and whose caller has it as its only namesake in the workspace; with no namesake or several they go to a card under the bare name. |
| `LogReading.BadVisAre` | actions/masscompile/build-masscompile-report.py:181-217 | A VI is bad if and only if an accepted header or a flagged path without a header leads to it. |
| `MassCompile.ResolvedCardsMatchTheirKey` | actions/masscompile/build-masscompile-report.py:168-179 | A card with a path is filed under that path in lower case. |
| `MassCompile.CardName` | actions/masscompile/build-masscompile-report.py:168-179 | A card shows the longest name its VI was mentioned by. |
| `MassCompile.FinalizeVis` | actions/masscompile/build-masscompile-report.py:254-274 | One row per card with problems, sorted broken first, then by number of problems, then by path or name. |
| `MassCompile.RowsKeepProblems` | actions/masscompile/build-masscompile-report.py:259-271 | A row lists its card's problems, worst first, and its severity counts add up to its total. |
| `LogReading.RowsInOrder` | actions/masscompile/build-masscompile-report.py:272-273 | Rows come broken first, then by falling number of problems, then by path, or by name where there is none, in lower case. |
| `LogReading.RowShowsCard` | actions/masscompile/build-masscompile-report.py:262-267 | A row is called by its card's name, failing that by its path; within a severity its problems are in the order of their messages. |
| `MassCompile.BadVisComeFirst` | actions/masscompile/build-masscompile-report.py:254-274 | The report has as many rows as cards; the first `len(bad_rels)` of them, and no others, are broken. |
| `MassCompile.CountMissing` | actions/masscompile/build-masscompile-report.py:309 | The loop counts the dependency problems of all rows. |
| `MassCompile.MissingDepsIsExact` | actions/masscompile/build-masscompile-report.py:309 | The count of missing dependencies is the number of different messages, once per calling VI, however often the log repeats them. |
| `MassCompile.HalfEvenRounds` | actions/masscompile/build-masscompile-report.py:281 | The percentage is ok / total * 100 rounded to the nearest whole number, ties to even. |
| `MassCompile.ClassifyIsHonest` | actions/masscompile/build-masscompile-report.py:278-288 | Failed shows 0 and 0; otherwise 0 < ok = total - bad and the distance of percent * total from 100 * ok is at most total / 2; the exact conditions for each status. |
| `MassCompile.PercentIsMonotone` | actions/masscompile/build-masscompile-report.py:278-288 | Fewer bad VIs never lower the percentage. |
| `MassCompile.PartialAtHundred` | actions/masscompile/build-masscompile-report.py:278-288 | A partial run shows 100 % if and only if at most one VI in 200 is bad. |
| `AnalyzerPivot.ParseFailed` | actions/vi-analyzer/build-analyzer-report.py:183-218 | One entry per block with a failure, header and nameless rows skipped, with its failures in order and counted per category. |
| `AnalyzerPivot.VisAre` | actions/vi-analyzer/build-analyzer-report.py:190-217 | The VIs listed are, in order, the blocks in which some row names a test; the failures of each are exactly those rows, counted in all and by category. |
| `AnalyzerPivot.CountsAddUp` | actions/vi-analyzer/build-analyzer-report.py:206-208 | The category counts of a VI add up to its failures. |
| `AnalyzerPivot.AggregateRules` | actions/vi-analyzer/build-analyzer-report.py:255-276 | The nested dictionaries are the grouping by rule and, within a rule, by VI; both levels are then sorted. |
| `AnalyzerPivot.PivotLosesNothing` | actions/vi-analyzer/build-analyzer-report.py:255-276 | Under every rule and VI the report stores, in order, exactly the messages of the input findings with that rule and path; no VI is missing or doubled; it is called what the first VI of that path with the rule calls itself; the severity is the rule's category. |
| `AnalyzerPivot.EveryRuleIsListed` | actions/vi-analyzer/build-analyzer-report.py:255-276 | A rule is listed exactly when it has a finding, and once. |
| `AnalyzerPivot.RuleCountsAddUp` | actions/vi-analyzer/build-analyzer-report.py:255-288 | The rule counts sum to the total findings. |
| `AnalyzerPivot.RuleCountIsOverVis` | actions/vi-analyzer/build-analyzer-report.py:265-273 | Each rule's count is the sum over its VIs. |
| `AnalyzerPivot.MostCommonFirst` | actions/vi-analyzer/build-analyzer-report.py:273-275 | The most common rule comes first and, within a rule, the VI it hits most; ties in the order of names or paths in lower case. |
| `AnalyzerPivot.SeveritiesAgree` | actions/vi-analyzer/build-analyzer-report.py:206-276 | Per category, the VIs' counts and the rules' counts have the same sum. |

## Left out

- Types of the outside world: HTML, the page beyond a cell's badge, run glyph and result time stamp, saved cell markup (`orig`), dialogs, themes, tokens beyond present or absent, HTTP headers, JSON and regular expressions. Log and report matches are given as lists.
- `markQueued` with no platform list falls back to the old one; every caller passes a list, so the fallback is not modelled. Painting the page at once, in `markQueued` and `qForget`, is left out.
- `getTok`, timers, clocks, `Date.parse`: parameters. Times and dates are whole numbers; run ids are decimal text; a store key is a (capability, commit) pair, as no capability name holds a '|'.
- The order in which a loop visits a dictionary's keys is a parameter of the methods; the results do not depend on it.
- Capture lookups: the repeat counts of `captureSnapshotRun` and `captureBatchRun`, the immediate re-check after claiming a finished run, and the fetch of up to twelve old runs one by one, are left out; the run list that a sync sees is arbitrary.
- Two browser tabs sharing one store: each handler is one atomic step.
- RunQueue.Queue.CaptureReply: the moment from which a lookup may claim runs is a parameter; the script takes the entry's time stamp when a pass starts. The results hold for any moment.
- SyncRouting.PlanSnapshotLookup: asks that every entry have a time stamp, which every mark gives it; without one the script's `||` would skip it.
- SyncRouting.PlanLookups: asks the same.
- DispatchRun.DispatchCells: the answers are a function of the unit and the request, and no other handler runs between them (`DispatchSteps` shows that its stores are reached by steps of `Protocol`, as are those of the captures that it starts).
- DispatchRun.TallyIsComplete: asks that the platforms listed for a capability have targets, as both are the keys of one object in the run targets.
- DispatchRun.MarkFollowsItsUnit: needs one dispatch per cell; `MarkIsTrueIffOneUnit` shows that this is exact.
- MarkCells.MarkIsTrueIffOneDispatch: asks that the runs wanted under the key have run targets; `ProgramMarkIsTrueIff` shows that the program's cells always do.
- Lifecycle.TiedEntrySurvives: a re-run from the cell's report page drops the runs of its entry, as in the code, so it is excluded; and the lemma asks that no page be applied after the entry was judged done, as that is how a finished entry is handed over.
- CommitScan.Scan.FetchCommits: a page refused for a reason that is not transient counts as the end of history, as in the code; the same refusal of a commit's details counts as a commit without files.
- ProbePool.LoadRevisionList: records are never null, and the cache of the list is left out.
- Frames.PaintFrame: the wait for a frame's image before its children are mounted is left out, as are positions (`placeWithin`) and the case stepper.
- Frames.Render: asks for child lists that are in range, without a cycle and without repeats, and for one unlisted frame; `PaintsEachOnceIffSingleRoot` shows that the last is exact.
- Viewport: reals instead of floating point; the wheel's exponential is any factor.
- Estimate: rationals instead of floating point; the rounding in the text is left out.
- MassCompile.HalfEvenRounds: rounds the exact quotient, not the floating-point one.
- MassCompile: the text helpers (`clean`, `to_vi_rel`, `base_name`, `is_tooling_vi`, lower case) are arbitrary functions, so the results hold for any of them; the `group` of a row is left out.
- Gallery: fields of an entry other than commit and date are one text.
- AnalyzerPivot: the filter of tooling VIs and the sort of the VI list before the pivot are left out; the results hold for every list of VIs.
- `actions/snapshots/vi-render.js` is the same file as the dashboard's and is modelled once.
- The rest of the repository: YAML readers, dependency and worker inventories, page staging, workflow files, sample LabVIEW projects.
