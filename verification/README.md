# Verified models of the analysis pipeline

This project models the parts of the system whose correctness spans several
functions, several workers or several requests, and proves what they promise.
`dafny verify dfyconfig.toml` checks everything.

- **Event-leaf backfill** (`BackfillPlan`, `BackfillStore`, `BackfillProgress`,
  `BackfillWorker`, `BackfillDrain`): the universe and its plan, the run and item
  tables under any interleaving of workers, what each operation has achieved by
  the time others have acted, the workers' ticks, and the drain tally read back
  against a finished run. Each statement or transaction is one step; `Store`
  performs the statements in place.
- **Mutual-TLS client state** (`MtlsLeases`, `MtlsClient`): leases, retirement,
  deferred close, and coalesced reload. A step is one await-free segment; the
  clock counts steps, so a disk read and a call can be compared.
- **Enrichment and event jobs** (`Enrichment`, `EventJobs`, `EventBudget`,
  `EventJobTable`, `EventVerdicts`): the verdict fold, class-partitioned evidence
  over any history of runs, classification, one claim's whole path, the job table
  under concurrent ticks, stale pickups, recovery and reseeding, and that table
  together with the evidence its workers read.
- **Ranked retrieval** (`RankOrder`, `EventList`, `Overview`): the shared order,
  keyset paging over fixed and changing tables, and the capped fan-out.
- **Calendar** (`CivilDates`, `Decimals`, `BucketDates`, `DateTexts`,
  `ReportCalendar`): the Gregorian calendar on day numbers, bucket-date strings
  and how they compare, viewports, and the agreement of calendar cells with
  previous/next.
- **Group readiness** (`GroupReadiness`): the member union, one tick and the next.
- **Text transformations** (`FactTokens`, `TemplateLiteral`, `InputObjects`):
  token rename and restore, template-literal escaping, the input-type worklist.

Where the code promises more than it does, the exact condition is proved:

- The claim bound of a native job fails with stale pickups, since the claim
  guard compares only status and attempts. `ClaimMakesProgress` says which
  claims make no progress, `JobsTerminate` bounds the runs without them, and
  `StalePickupBreaksTheBound` is a concrete case. The tier-B cap holds even
  then, because a worker holds its event's advisory lock.
- `shiftMonth` leaves the calendar for negative month indexes other than
  Januaries, because `%` takes the sign of the dividend.
- Dates of the years 0 to 99 are rejected, and years below 1000 are formatted
  without padding, so a week, a sum or a link that reaches them is no longer a
  bucket date or a viewport.
- The calendar compares and looks up bucket dates as strings, so a viewport of
  a year below 1000, which a link may name, is misread: the year 500 is shown as
  the future. `CellIsRightIff` says exactly when a cell is right.
- The older neighbour has no ceiling, so from a bucket past today it may be a
  cell the calendar shows as future, contrary to the comment that steps never
  land on one. `PrevIsFutureIff` says exactly when, `PrevCanBeFuture` is a case.
- Without a parameter the weekly calendar opens on today's year, which does not
  list the current week when it began in the year before (`ResolutionIsTotal`).
- The overview is the global top for any fetch cap that reaches the display cap,
  but the fetch cap is a setting that accepts any positive number.
  `OverviewIsGlobalTopIff` says exactly when, `TightFetchLosesARow` is a case.
- The report and story totals of the overview count ready states that have no
  result to rank. `JoinedTotalIsExactIff` says exactly when they are exact.
- An emitted template literal gives back its source only when that holds no CR.
- The events total of the overview is 0 when the cap is 0.

## Model

| member | source | states |
|---|---|---|
| BackfillPlan.DedupeBeforeWindow | src/lib/analysis/event-leaf-backfill.ts:108-158 | An event belongs to a scope by its latest baseline row alone: a later row outside the window takes the event out even though an older row lies inside it. |
| BackfillPlan.PlanBackfill | src/lib/analysis/event-leaf-backfill.ts:227-256 | The counting loop yields the plan: every member in exactly one of four categories, the work list in universe order. |
| BackfillPlan.TallyDrain | src/lib/analysis/event-leaf-drain.ts:41-53 | The drain loop counts the re-analyzable and the swept members separately. |
| BackfillPlan.PlanPartitionsUniverse | src/lib/analysis/event-leaf-backfill.ts:227-256 | For every universe and cap the categories partition the universe, and the drain's outstanding count is the planned work plus what the cap excluded. |
| BackfillPlan.FlagsAreExact | src/lib/analysis/event-leaf-backfill.ts:108-158 | A member is current exactly when a live leaf of the very target exists, and has a source exactly when a source row does. |
| BackfillPlan.CountsFollowTheFlags | src/lib/analysis/event-leaf-backfill.ts:227-256 | The plan's figures count the members by their two flags, and every planned event is a re-analyzable one, all of them unless the cap excluded some. |
| BackfillPlan.CapKeepsFreshest | src/lib/analysis/event-leaf-backfill.ts:236-247 | Nothing the cap excluded is newer than anything it kept. |
| BackfillPlan.WorkItemsAreDistinct | src/lib/analysis/event-leaf-backfill.ts:227-256 | A plan never lists an event twice, so materializing it cannot break the items' primary key. |
| BackfillStore.CreationIsThePlan | src/lib/analysis/event-leaf-backfill-store.ts:160-235 | A new run has exactly the planned items, all unfinished, and each counter starts at the category the plan counted. |
| BackfillStore.StepKeepsSeed | src/lib/analysis/event-leaf-backfill-store.ts:160-235 | No operation changes an existing run's items, its universe, or any counter beyond the items that reached its status. |
| BackfillStore.StepKeepsInvariant | src/lib/analysis/event-leaf-backfill-store.ts:160-585 | Every operation, enabled or lost, keeps balanced counters, items tied to runs and one active run per customer and variant. |
| BackfillStore.CountersAlwaysBalance | src/lib/analysis/event-leaf-backfill-store.ts:160-585 | Under any interleaving of any number of workers, the five counters plus pending and processing items equal the run's universe. |
| BackfillStore.CounterIsSeedPlusItems | src/lib/analysis/event-leaf-backfill-store.ts:524-563 | At any time each counter is its planned seed plus the items recorded in that status. |
| BackfillStore.TerminalIsForever | src/lib/analysis/event-leaf-backfill-store.ts:293-585 | No later step of any kind changes a terminal run's status or a terminal item. |
| BackfillStore.DrainedIsForever | src/lib/analysis/event-leaf-backfill-store.ts:478-489 | A run with no unfinished items never gets one again, so the drained test cannot be invalidated before finalize. |
| BackfillWorker.WorkersCompleteOnlyDrainedRuns | src/lib/instrumentation/event-backfill-worker.ts:177-412 | In every run of any number of worker ticks and operators, crashes included, a completed run has no unfinished item and its counters sum to its universe. |
| BackfillWorker.ActKeeps | src/lib/instrumentation/event-backfill-worker.ts:177-412 | Whoever counted a run drained, or is about to complete it, stays right whatever falls between its database calls. |
| BackfillWorker.OneItemRunCompletes | src/lib/instrumentation/event-backfill-worker.ts:201-403 | A case from the order to the report: one worker takes a run of one event to completion, the event counted and nothing left over. |
| BackfillStore.LeaseHeldUntilExpiry | src/lib/analysis/event-leaf-backfill-store.ts:336-390 | A lease stays with its owner, with the same expiry, through every foreign step before it lapses. |
| BackfillStore.LeaseIsExclusive | src/lib/analysis/event-leaf-backfill-store.ts:336-390 | While a worker's last claim or renewal is unexpired on the shared clock, no other worker's claim or renewal of that run succeeds. |
| BackfillStore.LapsedRunIsTakenOver | src/lib/analysis/event-leaf-backfill-store.ts:343-368 | A run whose lease has lapsed is claimable by anyone; the claim takes the oldest candidate. |
| BackfillStore.OldOwnerCannotRenew | src/lib/analysis/event-leaf-backfill-store.ts:374-390 | After a takeover the previous owner's renewals fail until it wins the run back with a claim. |
| BackfillProgress.ItemHasOneWorker | src/lib/analysis/event-leaf-backfill-store.ts:434-451 | Two workers win the same item only if it was reclaimed as stale in between, later than the first claimed it, so the model is called once per claim. |
| BackfillProgress.ReclaimGivesBack | src/lib/analysis/event-leaf-backfill-store.ts:457-475 | A stale item of the run is pending after a reclaim and the next claim of it wins; everything fresher, finished or of another run is left alone. |
| BackfillProgress.RecordIsFinal | src/lib/analysis/event-leaf-backfill-store.ts:524-563 | From a record on the item holds the recorded outcome, time and error, whatever follows. |
| BackfillProgress.OutcomesWereRecorded | src/lib/analysis/event-leaf-backfill-store.ts:524-563 | Every outcome a store has come to hold was recorded by a worker that had the item in hand. |
| BackfillProgress.NewRunIsClaimable | src/lib/analysis/event-leaf-backfill-store.ts:160-235 | A new run is pending, of its customer and target, and every worker may claim it. |
| BackfillProgress.EmptyClaimMeansAllHeld | src/lib/analysis/event-leaf-backfill-store.ts:336-368 | A claim comes back empty exactly when each active run is locked or leased to another worker for longer. |
| BackfillProgress.OnlyItsVariantBlocks | src/lib/analysis/event-leaf-backfill-store.ts:160-235 | A run is created exactly unless an active run of the same customer and target exists. |
| BackfillProgress.OtherRunsAreUntouched | src/lib/analysis/event-leaf-backfill-store.ts:160-585 | No operation changes another run or its items. |
| BackfillProgress.ChangesAreStamped | src/lib/analysis/event-leaf-backfill-store.ts:160-585 | Whatever changes a run records its own time as the last progress. |
| BackfillProgress.StartedAtItsFirstClaim | src/lib/analysis/event-leaf-backfill-store.ts:336-368 | A run has started at the time of its first claim, for good, and is never pending again. |
| BackfillProgress.CancelEndsOrFlags | src/lib/analysis/event-leaf-backfill-store.ts:293-311 | A cancel ends a run nobody has started at once and flags one that is running. |
| BackfillProgress.OnlyCancelsRequest | src/lib/analysis/event-leaf-backfill-store.ts:293-311 | Nothing but a cancel of the run's own customer requests a cancellation. |
| BackfillProgress.FirstEndDecides | src/lib/analysis/event-leaf-backfill-store.ts:569-585 | The first finalize of an active run gives it the status that was asked for, for good. |
| BackfillProgress.FinalizeEnds | src/lib/analysis/event-leaf-backfill-store.ts:569-585 | A finalize sets the status asked for and the finish time, and keeps an earlier error unless it brings its own. |
| BackfillProgress.ActiveRunCanComplete | src/lib/analysis/event-leaf-backfill-store.ts:434-585 | No run is ever stuck: from any tables an active run's items can all be reclaimed, claimed and recorded, and the run completed. |
| BackfillWorker.OnlyRequestedRunsAreCancelled | src/lib/instrumentation/event-backfill-worker.ts:177-412 | In every run of the workers a cancelled run was asked to be, and none is reported as failed. |
| BackfillWorker.LastLookDecides | src/lib/instrumentation/event-backfill-worker.ts:177-190 | Of a run nobody else ended meanwhile the worker reports a cancellation exactly when one had been requested by its last look at the flag, completion otherwise, and so the run stays. |
| BackfillWorker.DrainedRunIsCompleted | src/lib/instrumentation/event-backfill-worker.ts:389-402 | A worker that counted nothing left and then saw no cancellation completes the run. |
| BackfillWorker.RequestIsHonoured | src/lib/instrumentation/event-backfill-worker.ts:167-190 | A cancellation requested before a worker's last look ends the run as cancelled, even when it has drained since. |
| BackfillWorker.CallsReachTheStore | src/lib/instrumentation/event-backfill-worker.ts:201-210 | A tick's calls are the store's, and a won claim puts the leased run in the worker's hands. |
| BackfillStore.Store.FindActiveRun | src/lib/analysis/event-leaf-backfill-store.ts:238-253 | The newest active run of the variant, or none exactly when there is none. |
| BackfillStore.Store.CreateRun | src/lib/analysis/event-leaf-backfill-store.ts:160-235 | Creates the planned run, or returns the active one and changes nothing; a failed insert rolls back. |
| BackfillStore.Store.RequestCancel | src/lib/analysis/event-leaf-backfill-store.ts:293-311 | A pending run is cancelled at once, a running one only flagged, anything else left alone. |
| BackfillStore.Store.ClaimRun | src/lib/analysis/event-leaf-backfill-store.ts:336-368 | Takes the oldest claimable unlocked run, or nothing exactly when there is no candidate. |
| BackfillStore.Store.RenewLease | src/lib/analysis/event-leaf-backfill-store.ts:374-390 | Extends the lease exactly for its owner on an active run. |
| BackfillStore.Store.ClaimPending | src/lib/analysis/event-leaf-backfill-store.ts:434-451 | Exactly one claimant moves a pending item to processing. |
| BackfillStore.Store.ReclaimStaleItems | src/lib/analysis/event-leaf-backfill-store.ts:457-475 | Resets exactly the run's stale processing items and reports how many. |
| BackfillStore.Store.CountUnfinished | src/lib/analysis/event-leaf-backfill-store.ts:478-489 | Counts pending and processing items. |
| BackfillStore.Store.RecordItemResult | src/lib/analysis/event-leaf-backfill-store.ts:524-563 | Moves the item and its counter together, or neither. |
| BackfillStore.Store.FinalizeRun | src/lib/analysis/event-leaf-backfill-store.ts:569-585 | Ends an active run once; a later finalize changes nothing. |
| BackfillDrain.RetallyAgreesWithRun | src/lib/analysis/event-leaf-drain.ts:41-53 | Once a run has no unfinished items and its outcomes are true of the universe, a fresh tally's outstanding count is the run's failed plus cap-excluded counters. |
| MtlsLeases.StepKeepsInvariant | src/lib/mtls.ts:162-298 | Every segment keeps exact reference counts, ordered disk reads, one writer, one pending reload, served waiters and fresh leases. |
| MtlsLeases.EveryRunIsSound | src/lib/mtls.ts:162-298 | In every run the count is one for the installed state plus its outstanding leases, and an agent's close has begun exactly when it is retired and unreferenced, once. |
| MtlsLeases.LeasedAgentsStayOpen | src/lib/mtls.ts:175-208 | No agent is closed while a request leases it. |
| MtlsLeases.CloseFollowsLastLease | src/lib/mtls.ts:166-176 | A retired agent's close begins in the very step that ends its last reference, and in no other. |
| MtlsLeases.DuplicateReleaseIsANoOp | src/lib/mtls.ts:256-261 | A second release of the same auth changes nothing. |
| MtlsLeases.RetiredGetsNoLease | src/lib/mtls.ts:193-208 | A replaced state never gets another lease. |
| MtlsLeases.ReloadAnswersEveryCaller | src/lib/mtls.ts:267-298 | The build that settles a reload promise read the disk after every call sharing it. |
| MtlsLeases.ResolvedReloadIsFresh | src/lib/mtls.ts:267-298 | Over whole runs: once a reload call's promise resolves, the installed state, then and ever after, was read from disk after that call. |
| MtlsLeases.ReloadCallsWait | src/lib/mtls.ts:267-276 | Every call joins the pending promise under its own time, coalesced or not. |
| MtlsLeases.InitNeverOverwrites | src/lib/mtls.ts:193-208 | A late first-use build installs only into an empty slot. |
| MtlsLeases.FailedBuildChangesNothingInstalled | src/lib/mtls.ts:39-45 | A failed build leaves the installed state and every lease as they were and frees the promise. |
| MtlsLeases.AcquireTakesALease | src/lib/mtls.ts:193-197 | The fast path takes its lease in the segment that reads the state: that state's count is one higher at once. |
| MtlsLeases.AcquiredAgentStaysOpen | src/lib/mtls.ts:178-197 | Over whole runs: the state installed when a request acquired stays open until that request fails to sign or releases. |
| MtlsLeases.LeaseKeepsTheAgentOpen | src/lib/mtls.ts:166-208 | The same of any lease, however it was obtained. |
| MtlsLeases.QueuedRequestGetsItsLease | src/lib/mtls.ts:198-208 | The queued path leases the state it finds installed, or the one its build installs. |
| MtlsLeases.QueuedRequestIsServed | src/lib/mtls.ts:198-208 | No queued request is lost: it waits until it has its lease or its own build failed. |
| MtlsLeases.QueueIsFifo | src/lib/mtls.ts:39-45 | Jobs are queued at the end and taken from the front, one at a time. |
| MtlsLeases.QueueNeverSticks | src/lib/mtls.ts:39-45 | No deadlock: every caller has its path, and while a job is queued it can start, or its build can arrive or fail. |
| MtlsLeases.EndingGivesTheLeaseBack | src/lib/mtls.ts:243-264 | A failed signature and a first release give the one reference back, and start the close when it was the last on a retired state. |
| MtlsLeases.SignedAuthIsHeld | src/lib/mtls.ts:243-264 | Signing hands the auth over with its lease, and nothing else changes. |
| MtlsLeases.AllDoneMeansAllClosed | src/lib/mtls.ts:166-176 | Nothing leaks: once every request is done exactly the installed agent is open. |
| MtlsLeases.StartedJobReadsDisk | src/lib/mtls.ts:277-280 | A job without a state to lease reads the disk as it starts, and a reload clears the flag that later calls set. |
| MtlsLeases.BuildIsInstalled | src/lib/mtls.ts:281-292 | A build that arrives is installed with the disk read it made, and what it replaces is retired. |
| MtlsLeases.ReloadSettlesInTwoBuilds | src/lib/mtls.ts:277-298 | Calls during a build send the reload round once more, from a new disk read; without further calls the next build settles the promise. |
| MtlsLeases.StepKeepsWaiting | src/lib/mtls.ts:267-298 | A reload call waits until the build that answers it arrives or the reload fails. |
| MtlsClient.Client.AcquireState | src/lib/mtls.ts:193-208 | In-place segment proved to be its protocol step: the synchronous lease, or the queued first-use job. |
| MtlsClient.Client.CallReload | src/lib/mtls.ts:267-276 | In-place segment proved to be its protocol step: queues a reload, or marks the pending one dirty. |
| MtlsClient.Client.StartHead | src/lib/mtls.ts:277-280 | In-place segment proved to be its protocol step: the head job up to its await: disk read, or a lease when a state appeared meanwhile. |
| MtlsClient.Client.InstallBuilt | src/lib/mtls.ts:281-292 | In-place segment proved to be its protocol step: install, then retire and release the state replaced. |
| MtlsClient.Client.FinishInit | src/lib/mtls.ts:203-206 | In-place segment proved to be its protocol step: first-use install and lease in one segment. |
| MtlsClient.Client.FinishReload | src/lib/mtls.ts:281-298 | In-place segment proved to be its protocol step: install, then go round again when dirty, else settle the promise. |
| MtlsClient.Client.FailBuild | src/lib/mtls.ts:277-298 | In-place segment proved to be its protocol step: a throwing build ends its job without touching the state. |
| MtlsClient.Client.FinishSigning | src/lib/mtls.ts:243-264 | In-place segment proved to be its protocol step: the lease is kept with the auth, or returned when signing throws. |
| MtlsClient.Client.ReleaseAuth | src/lib/mtls.ts:256-261 | In-place segment proved to be its protocol step: idempotent return of one auth's lease. |
| Enrichment.WorstCoverageIsMaximum | src/lib/analysis/enrichment-worker.ts:120-133 | The folded coverage is the most severe of the indicators' statuses, `complete` when there is none. |
| Enrichment.WorstCoverageBySeverity | src/lib/analysis/enrichment-worker.ts:115-133 | Unknown outweighs stale, stale partial, and partial complete. |
| Enrichment.EvidenceIsWhatSurfaces | src/lib/analysis/event-enrichment-worker.ts:298-345 | A row is stored once for each match it describes that is deterministic, confident enough or seen by two sources, and for nothing else. |
| Enrichment.FloorRowIffFloorMatch | src/lib/analysis/event-enrichment-worker.ts:298-345 | A verdict carries floor evidence exactly when some match satisfies the floor. |
| Enrichment.FactsOnceEach | src/lib/analysis/enrichment-worker.ts:511-518 | The story facts are exactly the distinct texts met, each once. |
| Enrichment.FactsKeepTheirOrder | src/lib/analysis/enrichment-worker.ts:511-518 | The facts stand in the order they are first met. |
| Enrichment.EnrichLooseEvent | src/lib/analysis/event-enrichment-worker.ts:250-360 | The event loop computes that verdict. |
| Enrichment.EnrichStory | src/lib/analysis/enrichment-worker.ts:434-580 | The story loop computes the same verdict over all members' indicators, with facts. |
| Enrichment.HistoryClosedForm | src/lib/analysis/event-enrichment-worker.ts:389-532 | After any history of successes and failures: evidence is the last success's other rows plus the floor rows of the last run that had any, and the hit flag is set exactly when floor rows exist. |
| Enrichment.StoredEvidenceIs | src/lib/analysis/event-enrichment-worker.ts:389-500 | Row by row: floor evidence is that of the last run that had any, all other evidence the last successful run's. |
| Enrichment.NeverDowngraded | src/lib/analysis/event-enrichment-worker.ts:467-532 | `complete` and a known hit survive every later run and failure. |
| Enrichment.FailureTouchesOnlyTheError | src/lib/analysis/event-enrichment-worker.ts:510-532 | A failure after a good run changes the error text alone. |
| Enrichment.FoldVerdictsAgree | src/lib/analysis/event-enrichment-worker.ts:298-345 | The flag and the evidence handed to a persist agree. |
| Enrichment.EvidenceStore.Persist | src/lib/analysis/event-enrichment-worker.ts:389-500 | One committed persist is the specified transition of its key and no other key moves; the story persist at `enrichment-worker.ts:658-800` is the same with facts and the story flag. |
| Enrichment.EvidenceStore.PersistFailure | src/lib/analysis/enrichment-worker.ts:807-829 | One failure marker is the specified transition of its key. |
| EventJobs.KnownHitIsNeverBudgeted | src/lib/analysis/event-analysis-worker.ts:427-541 | Once a hit is stored, no classification whose deciding read comes later makes the job tier B or budget-skipped, whatever runs, failures, coverage losses or kill switch come. |
| EventJobs.DecisionTable | src/lib/analysis/event-analysis-worker.ts:427-541 | Tier A for a hit with the switch on, a reservation for a completed miss with complete coverage or a hold that is used up, otherwise a hold, judged on the decisive read. |
| EventJobs.OnlyConclusiveMissesReserve | src/lib/analysis/event-analysis-worker.ts:519-541 | Within its hold bound a job is reserved for exactly on a completed run of complete coverage that found no hit. |
| EventJobs.ReadsTellTheHistory | src/lib/analysis/event-analysis-worker.ts:519-541 | A stored verdict is a hit exactly when some run so far found floor evidence, and a conclusive miss exactly when none did and the last run that got through covered everything. |
| EventJobs.DecisionFollowsHistory | src/lib/analysis/event-analysis-worker.ts:427-517 | So the decision is a function of the enrichment history at the two reads. |
| EventJobs.ClaimEnds | src/lib/analysis/event-analysis-worker.ts:979-1148 | How one claim leaves its row, by what it met: done, failed, skipped, or queued for another hold or attempt. |
| EventJobs.ClaimMakesProgress | src/lib/analysis/event-analysis-worker.ts:979-1148 | A claim brings a row nearer its end exactly unless, judged by what it starts with and meets, it is a stale pickup that re-holds or re-admits and retries a classified row, or a known hit held by the kill switch. |
| EventJobs.JobsTerminate | src/lib/analysis/event-analysis-worker.ts:440-521 | A job none of whose claims is of that kind ends within maxEnrichment + maxAttempts - 1 claims; stale pickups and the kill switch are allowed. |
| EventJobs.FreshJobsTerminate | src/lib/analysis/event-analysis-worker.ts:440-521 | So with pickups that carry the row's own tier and tier A on, every job does. |
| EventJobs.StalePickupBreaksTheBound | src/lib/analysis/event-analysis-worker.ts:979-1001 | The bound is false with stale pickups: three claims that leave a job queued where three should end it. |
| EventBudget.StepKeepsInvariant | src/lib/analysis/event-analysis-worker.ts:206-1212 | Every step keeps one worker per event on a live row, matching pickups, and the daily cap. |
| EventBudget.ReserveKeepsCap | src/lib/analysis/event-analysis-worker.ts:552-601 | A reservation counts its own row at most, and only below the cap it was given. |
| EventBudget.BudgetIsNeverExceeded | src/lib/analysis/event-analysis-worker.ts:552-601 | For each customer and day, admitted tier-B rows never exceed the largest cap passed, across concurrent ticks, stale pickups, requeues, recovery and reseeding. |
| EventBudget.ReservationIsExact | src/lib/analysis/event-analysis-worker.ts:552-601 | A reservation admits its row exactly while the tier-B rows of the customer's day are fewer than the cap, and otherwise skips it. |
| EventBudget.SkipsOnlyAtTheCap | src/lib/analysis/event-analysis-worker.ts:552-601 | In every run a skipped row was skipped by a reservation that found its day at the cap. |
| EventBudget.UndisturbedClaimIsProcessed | src/lib/analysis/event-analysis-worker.ts:979-1148 | Left alone, a worker's steps from claim to release take the row where one claim of the sequential model takes it. |
| EventBudget.AdmissionStartsOver | src/lib/analysis/event-analysis-worker.ts:603-627 | An admission to tier A starts the attempts over. |
| EventBudget.RoutedByLanguage | src/lib/analysis/event-analysis-worker.ts:1002-1012 | English jobs are classified or analyzed, all others translated. |
| EventBudget.SeedingIsGentle | src/lib/analysis/event-analysis-worker.ts:206-347 | A job is seeded once, held, unless its event has a leaf; reseeding touches the source version of rows not in flight and nothing else. |
| EventBudget.CrashedJobComesBack | src/lib/analysis/event-analysis-worker.ts:1200-1212 | A recovered job is queued as it was and a fresh pickup of it wins the next claim. |
| EventBudget.TranslationEnds | src/lib/analysis/event-analysis-worker.ts:815-966 | A translation ends done, failed on a leak, queued while its source is missing, or retried. |
| EventBudget.TerminalJobsStayTerminal | src/lib/analysis/event-analysis-worker.ts:206-347 | Done, failed and budget-skipped rows are never reopened by any step. |
| EventJobTable.JobTable.Seed | src/lib/analysis/event-analysis-worker.ts:206-347 | A new row is held; reseeding touches only the source version of rows not in flight. |
| EventJobTable.JobTable.ClaimJob | src/lib/analysis/event-analysis-worker.ts:979-1001 | The claim succeeds exactly on matching status and attempts. |
| EventJobTable.JobTable.ReserveTierB | src/lib/analysis/event-analysis-worker.ts:552-601 | Admits exactly below a positive cap, else marks the row skipped. |
| EventJobTable.JobTable.RequeueOrFail | src/lib/analysis/event-analysis-worker.ts:711-759 | One more attempt, failed once they are used up. |
| EventJobTable.JobTable.RecoverStuck | src/lib/analysis/event-analysis-worker.ts:1200-1212 | Requeues exactly the in-process rows among the stuck ones. |
| EventJobTable.JobTable.ProcessNativeJob | src/lib/analysis/event-analysis-worker.ts:970-1148 | The whole in-place path of one claim is the specified row transition; a lost claim changes nothing. |
| EventVerdicts.KnownHitIsNeverBudgetedAgain | src/lib/analysis/event-analysis-worker.ts:427-541 | Over all interleavings of workers, enrichment runs, recovery, crashes and reseeding: from any moment at which an event's hit is stored and no classification that read the verdict earlier is about to reserve for it, none of its rows becomes tier B or budget-skipped, whichever worker classifies it. |
| EventVerdicts.WritesFollowTheHistory | src/lib/analysis/event-analysis-worker.ts:427-541 | Over all interleavings a worker admits, reserves or holds according to the runs of the event that had committed when it read the verdict, on the claim it still has. |
| EventVerdicts.HistoryIsTheCommittedRuns | src/lib/analysis/event-enrichment-worker.ts:389-532 | A read finds every run of the event that committed before it, of whatever worker, and nothing else. |
| EventVerdicts.CleanJobIsAnalyzed | src/lib/analysis/event-analysis-worker.ts:970-1148 | A case from the seed to the stored analysis: an event whose one run covered everything and found nothing is reserved for under a budget of one and analyzed. |
| EventVerdicts.NoReservationStarts | src/lib/analysis/event-analysis-worker.ts:427-541 | Once the hit is stored no step brings a reservation for the event under way: the deciding read, which may be another worker's, meets the hit. |
| EventVerdicts.NothingBudgets | src/lib/analysis/event-analysis-worker.ts:552-601 | Without a reservation under way no step, of any worker, makes a row of the event tier B or budget-skipped. |
| EventVerdicts.ReservationBudgets | src/lib/analysis/event-analysis-worker.ts:519-541 | The exception is real: a reservation decided before the hit budgets its row after it. |
| RankOrder.RanksAgree | src/lib/analysis/priority-tier.ts:103-144 | The app rank and the SQL rank order the tiers alike, critical first, and conflate none. |
| RankOrder.SortSorts | src/lib/analysis/cross-customer-overview.ts:259-267 | The reference sort orders and permutes. |
| RankOrder.SortedIsUnique | src/lib/analysis/cross-customer-overview.ts:259-267 | Two orderings of the same keys are the same sequence, so which sort ran does not matter. |
| Overview.CompareRiskRanks | src/lib/analysis/cross-customer-overview.ts:217-226 | The comparator is the ranking, antisymmetric, and zero exactly on equal keys. |
| Overview.RankedAndCapped | src/lib/analysis/cross-customer-overview.ts:217-267 | Ranking and capping keeps as many rows as the cap admits, the more urgent tier first, then by severity, likelihood, recency and id, and leaves out none that belongs above one it keeps. |
| Overview.TopOfTops | src/lib/analysis/cross-customer-overview.ts:259-267 | Merging per-part top-n lists and cutting to n is the top n of everything. |
| Overview.SliceIsOwnTop | src/lib/analysis/cross-customer-overview.ts:590-602 | A fetch capped above the display cap, re-ranked and cut, is the customer's own top. |
| Overview.AggregateSurface | src/lib/analysis/cross-customer-overview.ts:609-629 | Every answering customer's rows are merged and counted, every failing one is reported. |
| Overview.FailuresAreReported | src/lib/analysis/cross-customer-overview.ts:613-628 | Every failed customer is reported once, in the order asked. |
| Overview.OverviewIsGlobalTop | src/lib/analysis/cross-customer-overview.ts:609-629 | For cap <= fetchCap the overview shows the ranking values of the global top over the customers that did not fail. |
| Overview.OverviewIsGlobalTopIff | src/lib/analysis/cross-customer-overview.ts:94-99 | For any two caps the overview of reports or stories shows the global top exactly when every ranking value of that top got through its customer's bounded query as often as the top holds it. |
| Overview.OverviewIsGlobalTopUnlessCut | src/lib/analysis/cross-customer-overview.ts:94-99 | Where no two rows rank alike: exactly when no row that a customer's query cut off belongs to the global top. |
| Overview.TightFetchLosesARow | src/lib/analysis/cross-customer-overview.ts:94-99 | A fetch cap below the display cap can lose a row: one fetched of two that would be shown. |
| Overview.FetchJoined | src/lib/analysis/cross-customer-overview.ts:310-419 | The report and story fetchers return their own top and count every ready or dirty state. |
| Overview.FetchEvents | src/lib/analysis/cross-customer-overview.ts:421-490 | The event fetcher returns its query's top and the window count read off the first row. |
| Overview.JoinedRowsAre | src/lib/analysis/cross-customer-overview.ts:310-419 | What is ranked: each live report or story that has a default-variant result, with its newest one; a story by its own recency, a report by its request time. |
| Overview.JoinedTotalIsExactIff | src/lib/analysis/cross-customer-overview.ts:326-346 | The total of reports or stories never understates the ranked rows of the answering customers, and equals their number exactly when each of their ready or dirty states has a default-variant result. |
| Overview.ReadyWithoutResultIsCounted | src/lib/analysis/cross-customer-overview.ts:515-523 | A ready story without a default-variant result is counted and never ranked. |
| Overview.EventTotalsAreExactIff | src/lib/analysis/cross-customer-overview.ts:613-628 | The event total of the surface equals the rows of the answering customers exactly when the cap is positive or there are none. |
| Overview.EventTotalIsExactUnlessCapIsZero | src/lib/analysis/cross-customer-overview.ts:471-474 | The event total, read off the first row, is exact except when a zero cap hides every row. |
| EventList.SeekIsStrictlyAfter | src/lib/analysis/event-list-page-loader.ts:188-204 | The six-way keyset predicate selects exactly what the ORDER BY puts after the cursor's row. |
| EventList.SoughtFacts | src/lib/analysis/event-list-page-loader.ts:213-254 | A page query returns the ranked rows past the cursor, each event once, strictly in order. |
| EventList.PageFacts | src/lib/analysis/event-list-page-loader.ts:268-294 | A page is the head of what was sought; its cursor sits on its last row and pins the window. |
| EventList.PageIsFull | src/lib/analysis/event-list-page-loader.ts:268-294 | A page holds as many rows as were asked for, 25 by default, unless fewer are left. |
| EventList.NextSeeksTheRest | src/lib/analysis/event-list-page-loader.ts:268-294 | On an unchanged table the next request seeks exactly what the page left. |
| EventList.WalkShowsTheRankedList | src/lib/analysis/event-list-page-loader.ts:143-305 | Following nextCursor from none or a malformed one ends, and shows exactly the live rows of the variant that are the newest of their event and pass the filters, each event once, more urgent tiers first, then by severity, likelihood, recency and id. |
| EventList.PageShowsOrDefers | src/lib/analysis/event-list-page-loader.ts:188-294 | A due row is shown by a page or left due for the next; a row already passed is never shown again. |
| EventList.StableRowIsShownOnce | src/lib/analysis/event-list-page-loader.ts:162-294 | While other rows change between pages and requests come later and later, an event whose canonical row stays put is shown exactly once by the time paging ends. |
| CivilDates.FieldsOfDay | src/lib/analysis/report-bucket-date.ts:29-34 | Every day number has one civil date in range that builds back to it. |
| CivilDates.DayOfFields | src/lib/analysis/report-bucket-date.ts:29-34 | Every civil date reads back its own fields. |
| CivilDates.SetDateShifts | src/lib/analysis/report-bucket-date.ts:83-84 | Setting the date past its month moves by exactly that many days. |
| CivilDates.MonthLengths | src/lib/analysis/report-bucket-date.ts:29-34 | The months have the Gregorian lengths. |
| CivilDates.WeekdaysFollow | src/lib/analysis/report-bucket-date.ts:79-85 | Day 0 is Thursday, 1 January 1970, and the weekdays follow from there. |
| BucketDates.ValidDatesAreIso | src/lib/analysis/report-bucket-date.ts:23-35 | An accepted string is the calendar notation of a day whose year is 100 to 9999. |
| BucketDates.IsoIsValid | src/lib/analysis/report-bucket-date.ts:23-35 | Every such notation is accepted and names its day; years 0 to 99 are not, because of the century remap. |
| BucketDates.StringOrderIsDateOrder | src/lib/analysis/report-calendar-loader.ts:467-471 | Comparing dates the database writes with four-digit years is comparing the days. |
| BucketDates.FmtDayIsIso | src/lib/analysis/report-bucket-date.ts:95-97 | A formatted day is a valid date exactly when its year has four digits. |
| BucketDates.BucketsPartitionDays | src/lib/analysis/report-bucket-date.ts:66-86 | A day lies in only one bucket of a period. |
| BucketDates.BucketContainsItsDay | src/lib/analysis/report-bucket-date.ts:66-86 | The bucket date is the start of the bucket holding the day; for weeks it is a valid date exactly when the Monday's year has four digits. |
| BucketDates.LiveBucketIsFixed | src/lib/analysis/report-bucket-date.ts:66-86 | The LIVE bucket has one date whatever the reference; no other period truncates what is no date, and day arithmetic passes it through. |
| BucketDates.MondayNotAfter | src/lib/analysis/report-bucket-date.ts:79-85 | The weekly start is the Monday m with m <= d < m + 7. |
| BucketDates.TruncationIsIdempotent | src/lib/analysis/report-bucket-date.ts:66-86 | Truncating a bucket date again changes nothing. |
| BucketDates.AddingBackUndoes | src/lib/analysis/report-bucket-date.ts:128-134 | Adding days and taking them away returns the string exactly when both years have four digits. |
| BucketDates.EnumerateYearWeeks | src/lib/analysis/report-bucket-date.ts:178-192 | The stepping loop lists the year's Mondays, and nothing for years 0 to 99. |
| BucketDates.EnumerateMonthDays | src/lib/analysis/report-bucket-date.ts:156-163 | Every day of the month, counted from the day before the next month. |
| BucketDates.EnumerateYearMonths | src/lib/analysis/report-bucket-date.ts:166-170 | The twelve first days. |
| BucketDates.WeekListsJoin | src/lib/analysis/report-bucket-date.ts:178-192 | Consecutive years' week lists join into one unbroken seven-day progression. |
| BucketDates.ViewShowsItsStarts | src/lib/analysis/report-calendar-loader.ts:129-141 | A viewport lists a day exactly when it starts a bucket of the period and the viewport is that bucket's own. |
| BucketDates.ViewAscends | src/lib/analysis/report-calendar-loader.ts:129-150 | A viewport lists its buckets in strictly ascending order. |
| BucketDates.EnumerateViewport | src/lib/analysis/report-calendar-loader.ts:129-141 | The enumerators list exactly the viewport's bucket starts, except that years 0 to 99 list no weeks and February of the year 0 has no 29th. |
| DateTexts.TextOrder | src/lib/analysis/report-bucket-date.ts:95-97 | Formatted days compare as strings by their years aligned to the left, and by the days when those coincide. |
| DateTexts.TextNamesItsDay | src/lib/analysis/report-calendar-loader.ts:224-252 | A listed bucket of a four-digit year is the database's text of its own day only. |
| DateTexts.UnpaddedNamesNoDay | src/lib/analysis/report-calendar-loader.ts:224-252 | A listed bucket of an earlier year is the database's text of no day. |
| BucketDates.BucketLiesInItsViewport | src/lib/analysis/report-calendar-viewport.ts:64-74 | A bucket is listed exactly once by the viewport opened from it. |
| BucketDates.MonthStepIsExact | src/lib/analysis/report-calendar-viewport.ts:84-102 | A month step lands on the right month, and stepping back undoes it, exactly when the month index is not negative or is a January. |
| BucketDates.YearStepIsExact | src/lib/analysis/report-calendar-viewport.ts:84-102 | A year step is exact, and stepping back undoes it. |
| BucketDates.ResolutionIsTotal | src/lib/analysis/report-calendar-viewport.ts:32-57 | Without a parameter the calendar opens on the viewport that lists today's bucket, except for a week that began in the year before; a parameter is refused exactly when it is not of the period's form. |
| BucketDates.CalendarLinkOpensTheBucket | src/lib/analysis/report-bucket-date.ts:146-153 | The calendar link of a bucket resolves to its viewport. |
| BucketDates.ViewportLinkResolves | src/lib/analysis/report-calendar-viewport.ts:32-82 | A previous/next link resolves to its viewport exactly when the year has four digits, and otherwise is malformed. |
| ReportCalendar.NavigableMeans | src/lib/analysis/report-calendar-loader.ts:175-233 | A date is navigable exactly when a live default-variant result and a ready or dirty state row share its date and timezone; its best timezone is that of the highest such generation. |
| ReportCalendar.CollectTimezones | src/lib/analysis/report-calendar-loader.ts:224-233 | The map names only rows read; over a readable span it names exactly the navigable dates, each with a timezone of its highest opening generation. |
| ReportCalendar.DiscoverCalendarBuckets | src/lib/analysis/report-calendar-loader.ts:160-255 | For every viewport a link can open, each cell is the string classification of its bucket although the queries skip what precedes the floor; a failed read only loses reports. |
| ReportCalendar.CellIsRightIff | src/lib/analysis/report-calendar-loader.ts:239-252 | A cell says of its day what it ought to exactly when the strings do not put its year and today's, or up to today its year and the floor's, the wrong way round, and a navigable day has a four-digit year. |
| ReportCalendar.CalendarIsRight | src/lib/analysis/report-calendar-loader.ts:239-252 | In viewports from the year 1000 on, with such a floor, every bucket start is listed and classified by its day. |
| ReportCalendar.FiveHundredIsALink | src/lib/analysis/report-calendar-viewport.ts:52-56 | A yearly viewport link may name the year 500, as `year=0500`. |
| ReportCalendar.YearFiveHundredIsFuture | src/lib/analysis/report-calendar-loader.ts:239-242 | That link opens the viewport of every day of the year 500, whose cells are shown as the future while today is in the years 1000 to 4999, although none of those days is. |
| ReportCalendar.FindNeighbor | src/lib/analysis/report-calendar-loader.ts:396-470 | The nearest navigable date in the direction within the bounds with its best timezone, or nothing exactly when there is none. |
| ReportCalendar.LoadReportNeighbors | src/lib/analysis/report-calendar-loader.ts:493-570 | Both neighbours, and the older stop exactly when there is no previous report but a navigable bucket precedes the floor; LIVE or a failed read gives none. |
| ReportCalendar.StepsFollowTheCalendar | src/lib/analysis/report-calendar-loader.ts:501-563 | From an open bucket within the floor and today, each step lands on the one report cell of the viewport opened from its date, and no viewport shows a nearer report; without a step none shows any on that side. |
| ReportCalendar.PrevIsFutureIff | src/lib/analysis/report-calendar-loader.ts:513-523 | The previous step leaves the calendar's reports, for a future cell, exactly when a navigable bucket within the floor lies strictly between today and the open one; a bucket no later than tomorrow is safe. |
| ReportCalendar.PrevCanBeFuture | src/lib/analysis/report-calendar-loader.ts:513-523 | Concrete tables in which it does: the open bucket has a pending state row, so its page loads, and its previous step is a cell shown as the future. |
| ReportCalendar.StepsUndoEachOther | src/lib/analysis/report-calendar-loader.ts:501-540 | Stepping back and forward, or forward and back, returns to the report. |
| ReportCalendar.TimezonesAgree | src/lib/analysis/report-calendar-loader.ts:221-233 | The step's link and the cell's link name the same timezone when a date's opening rows never share a generation across timezones. |
| GroupReadiness.UnionIsSumAndLatest | src/lib/analysis/group-readiness.ts:230-258 | The fold holds member-wise sums of both counts and the latest of all three watermarks. |
| GroupReadiness.UnionIgnoresOrder | src/lib/analysis/group-readiness.ts:230-258 | The union does not depend on the order of the members. |
| GroupReadiness.LiveIgnoresOrder | src/lib/analysis/group-readiness.ts:259-270 | Neither does the LIVE activity. |
| GroupReadiness.LiveIsAnyAndLatest | src/lib/analysis/group-readiness.ts:259-270 | The LIVE activity is present when some member shows any, with the latest of each date. |
| GroupReadiness.ChangedBucketsAreRegenerated | src/lib/analysis/group-readiness.ts:349-371 | In the tables: a ready bucket with a processing or done job is due for another generation exactly when the tick changed it. |
| GroupReadiness.CountersTellTheRows | src/lib/analysis/group-readiness.ts:275-463 | The counters are the rows that appeared, those that changed and are dirty, and those that changed otherwise. |
| GroupReadiness.TickHoldsTheUnion | src/lib/analysis/group-readiness.ts:308-393 | After a tick each eligible bucket holds the members' sums and the latest of stored and member watermarks, and a ready one that was generated became dirty exactly when it changed. |
| GroupReadiness.TickLeavesTheRest | src/lib/analysis/group-readiness.ts:320-350 | Archived rows, pre-creation buckets and an inactive LIVE row are untouched. |
| GroupReadiness.TickKeepsLiveCurrent | src/lib/analysis/group-readiness.ts:399-461 | The LIVE row is seeded ready and only pushed forward while some member is active, and a generated one becomes dirty exactly when it changed. |
| GroupReadiness.SecondTickIsIdle | src/lib/analysis/group-readiness.ts:349-357 | With unchanged members no key of the group needs another statement. |
| GroupReadiness.SecondTickWritesNothing | src/lib/analysis/group-readiness.ts:161-199 | A whole second tick runs no statement, whatever jobs ran in between, unless some group broke off in the first. |
| GroupReadiness.NextTickCompletes | src/lib/analysis/group-readiness.ts:303-395 | What a tick that threw half-way left undone the next one does: together they leave the rows of one unbroken tick. |
| GroupReadiness.TickIgnoresMemberOrder | src/lib/analysis/group-readiness.ts:230-270 | Another member order writes the same rows. |
| GroupReadiness.ReadMembers | src/lib/analysis/group-readiness.ts:230-276 | The accumulating loop gives the union, or stops on the first member that throws. |
| GroupReadiness.GroupTables.ReconcileGroup | src/lib/analysis/group-readiness.ts:201-464 | The in-place reconcile writes exactly the specified rows and counts each statement; a throwing member leaves the rows untouched, a throwing statement leaves each row either as it was or as specified. |
| GroupReadiness.GroupTables.TickGroupReadiness | src/lib/analysis/group-readiness.ts:161-199 | Each group is reconciled from its own rows as if alone; one whose reconcile throws, at a member or at a statement, is counted and stops nothing else. |
| FactTokens.SelfMatchIsPrefix | src/lib/analysis/fact-token.ts:32-32 | The self-token pattern matches exactly the strings that start with a token's text, and reads that token. |
| FactTokens.FactMatchIsPrefix | src/lib/analysis/fact-token.ts:34-34 | The fact-token pattern likewise. |
| FactTokens.EveryKindIsRead | src/lib/analysis/fact-token.ts:32-34 | All four kinds of token are read under either scope. |
| FactTokens.TokensOfEveryPlace | src/lib/analysis/fact-token.ts:78-97 | The allow-list has, under its fact-scope name, each token that stands anywhere in the text, and no other. |
| FactTokens.BuildFactTokenMap | src/lib/analysis/fact-token.ts:78-97 | Each fact rewritten into its own namespace, positional references, and exactly the tokens produced as the allow-list. |
| FactTokens.RestoreAfterRewrite | src/lib/analysis/fact-token.ts:106-121 | Restoring a rewritten fact is restoring the fact with its own map, except that each uncovered token stays in its longer form. |
| FactTokens.RestoreAgreesIffCovered | src/lib/analysis/restore.ts:24-29 | The two restorations agree exactly when the map covers every token of the fact. |
| FactTokens.TokenSetsAreDisjoint | src/lib/analysis/fact-token.ts:84-96 | Tokens of different facts differ. |
| FactTokens.MixedTextResolves | src/lib/analysis/fact-token.ts:106-121 | In text mixing tokens of many facts with prose, each token resolves through its own fact's map. |
| TemplateLiteral.ThreePassesAreOne | scripts/graphql-codegen.ts:352-357 | The three global replacements are one single-pass escape. |
| TemplateLiteral.EvaluatesToTheSource | scripts/graphql-codegen.ts:352-357 | The emitted characters never close the literal or open a substitution, and evaluate to the source with its line endings normalised. |
| TemplateLiteral.LiteralRoundTripsIffNoCarriageReturn | scripts/graphql-codegen.ts:352-357 | Evaluation gives back the source exactly when it holds no CR. |
| InputObjects.EmitInputObjects | scripts/graphql-codegen.ts:374-389 | The worklist ends on every finite schema and emits exactly the input types the variables reach, each once. |

## Left out

- PostgreSQL itself: statements are atomic, advisory locks work, collation is a position in an order, and double precision columns are reals. Lost connections and SQL parsing are not modelled.
- Lock identifiers are the events and days themselves; the hashes the code locks on could only add exclusion.
- Identifiers that SQL orders as text are numbers, their position in the collation; `date|tz` and `period|date` keys are pairs of their parts.
- Authorization, sessions, certificates, key matching, JWT contents, encryption of redaction maps: a build is a disk read that may fail, signing may fail.
- Model calls, the feed dispatcher, suppression, the soft-match gate and translation are outcomes the model ranges over; `MAX_ATTEMPTS` is any positive number, its file is not part of this model.
- Timing: backoff, `next_due_at`, staleness ages and the expiry timer are inputs or omitted. Window bounds, item limits and texts of errors that no later step reads are not stored on rows.
- Base64url and JSON inside a cursor (section 5 of RFC 4648): encoding and decoding are an inverse pair and every other token is malformed. A tampered cursor whose bound is not a date is not modelled.
- The query builder's positional parameters are not modelled; the conditions they fill are.
- `Intl`, timezone lookups, headings and labels. `Date` beyond its own range is not modelled.
- ReportCalendar.FindNeighbor: report rows are dated in the years 0 to 9999, which the database writes with four digits; `date_trunc` of an event time gives no others.
- ReportCalendar.LoadReportNeighbors: a retention floor before the year 1000 is read as the day meant, although the database casts it from unpadded text. The three lookups of a request see one state of the two databases; a change between them is not modelled.
- ReportCalendar.DiscoverCalendarBuckets: the two reads of a discovery see one state of the two databases.
- Overview.OverviewIsGlobalTop: speaks of the ranking values shown; ties in all four of them are not resolved, because the database and the application break them differently.
- EventVerdicts.KnownHitIsNeverBudgetedAgain: a classification that read the verdict before the hit was stored may still reserve after it, as in the code (`ReservationBudgets`); the two reads and the write are separate steps.
- BackfillWorker.LastLookDecides: the code looks at the flag again before it ends a drained run; nothing orders that look and the end against a cancellation that arrives between them.
- EventJobs.JobsTerminate: assumes no watchdog recovery between the claims of a run and calls that return.
- The `updated_at` and `last_ready_at` columns of a group's state rows are not stored.
- FactTokens.RestoreAgreesIffCovered: for facts whose text holds no fact-scope token, as the redaction engine writes them.
- TemplateLiteral.EvaluatesToTheSource: hexadecimal, Unicode and octal escapes are not read, since the emitter never writes them.
- Numbers are unbounded: a fact index or an event key past 2^53 is not rounded as `Number` would.
- Priority-tier thresholds and likelihood floors, factor filters, technique and indicator lookups, error tables, page components and the nested-selection queue of the code generator: they would only add easy members.
