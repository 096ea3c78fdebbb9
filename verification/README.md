# Cartolensia: verified models of its cores

Cartolensia catalogs media files on local storages, hashes them, finds duplicates, runs background
jobs and shows photos on maps and tracks. Most of it is plumbing around a few cores that hold state,
run concurrently or compute something that is easy to get wrong. This project models those cores and
proves what they keep.

`dafny verify dfyconfig.toml` verifies everything.

## What is modelled

**The bounded folder walk** (`Walk*.dfy`). Folder workers, file workers and the caller share two bounded
channels, two WaitGroups, a context and a report under a mutex; a folder that finds the queue full is walked
inline by whoever offered it. The model is a step system: one step is one critical section, channel operation
or WaitGroup operation of one goroutine (`WalkMachine` says which neighbouring operations are taken together
and why nobody can tell), and the schedule picks who moves and what the callback and `select` do. `WalkTree`
holds the file tree and a plain recursive walk as the reference. One pending-work measure per counter, applied
to every place work can be in, gives the invariant; with it come termination and absence of deadlock and
panics for every schedule, the comparison with the reference walk, which files these are as chains of entries
from a prefix down (`WalkChains`), when the report is complete as a condition on tree and limits
(`WalkComplete`), what a limit still lets happen (`WalkLimit`), how full the queues get (`WalkQueues`), and
how the call returns and what it leaves behind (`WalkReturn`, `WalkExposed`, `WalkHiding`).

**The job lease protocol** (`Jobs`, `LeaseRows`, `JobStore`, `JobTable`, `LeaseRuns`, `StoreRuns`,
`LeaseOrder`). The job state machine, the memory store and the database rows as classes whose methods are
proved against functions on one row, and runs: any interleaving of leases, calls with stale copies, cancel
requests, expiries and writes of handlers, operator retries among them, of a job they have read at any earlier
moment. Time is a parameter of every step and need not be monotone. Fencing is by worker id, so a worker's
copy always comes from its latest lease of the job. A run of a whole store is, seen from each job, a run of
that job.

**Content identity and the URL index** (`Catalog`, `CatalogStore`, `Contents`, `Grouping`,
`Duplicates`, `Discovery`). Three maps that every store method updates together, merges of assets
whose contents prove equal, the statistics and the duplicate report over them, and the hash job's
loop. Go's map order is a nondeterministic choice everywhere. The index properties hold of every run;
the identity properties suppose that the content and size behind a URL do not change.

**The plugin sort** (`Plugins`), **the line rasteriser** (`Raster`), **the explorer view** (`ExplorerPaths`,
`PathRules`, `Explorer`), **track interpolation** (`GeoSnap`), **jump splitting** (`TrackSplit`), **thinning
of tracks** (`Sampling`) and **preview cache cleanup** (`PreviewCache`), each as the loop or class the program
has, proved against what it is for. Coordinates and distances are reals; the distance between two points is a
parameter.

`Order` and `Chronology` hold string order, sorting and multiset facts.

## Where the code does not do what one would expect

- A caller that cancels its own context can get a normal return with `Complete` set and files missing,
  because a folder worker drops `processFolder`'s error (storage.go:604). For every configuration whose
  prefixes are not the root and fit the folder queue there is a run that misses everything:
  `WalkHiding.CancellationHidesEverything`. Without outer cancellation a complete report is complete:
  `WalkTheorems.VisitsAllReference`.
- The call can return early, after a prefix that does not normalise, a callback error or outer cancellation. Its
  channels then stay open for ever and the workers it started never end
  (`WalkReturn.WorkersEndExactlyAfterNormalReturn`). A prefix that does not normalise always does this, and
  where the callback and the context do not interfere nothing else does (`WalkReturn.EarlyReturnHasCause`,
  `WalkReturn.BadPrefixReturnsEarly`). Outer cancellation can do it exactly if the caller itself has something
  to send or offer: a prefix that is not excluded, or a root with a file or a folder to walk in it
  (`WalkExposed.CancellationEndsExposedWalks`). A callback error can do it if the first thing the walk sends is
  a file that passes the filters and the caller has something of the kind left after it
  (`WalkExposed.CallbackErrorReturnsEarly`). File workers go on with the files already queued, so `visit` can be
  called after the call has returned (`WalkReturn.VisitsGoOnAfterReturn`).
- `MemoryStore.FailLeasedJob` looks at the caller's copy where the database looks at the row, so a
  failing worker that has not seen a cancel request can put the job back in the queue.
  `LeaseRows.MemoryFailLosesCancel` says exactly when, `LeaseRuns.StaleCopyRequeues` gives a run of
  three steps, `LeaseRows.DbFailKeepsCancel` shows that the database is not affected.
- Cancelling with an already canceled copy keeps worker and lease in the memory store and clears them
  in the database: `LeaseRows.StoresAgreeOnCancel`.
- When a lease expires on a job asked to cancel, the memory store always logs the line for an unowned
  request, because cancelling has already cleared the lease it then tests (catalog.go:1489-1494).
- `UpdateJob` writes a job back without looking at the row, and its handlers read the job earlier. A worker that
  leases a dry run between its enqueueing and the write that adds its scan run (extended.go:922-952) loses the
  lease again: the job waits while it is being run, and the attempt is forgotten
  (`LeaseRuns.StaleWriteUndoesLease`). Two operators who retry the same failed job can do the same
  (server.go:1172-1192, `LeaseRuns.StaleRetryUndoesLease`). Attempts are leases, and leases their ends, at every
  moment in exactly the runs whose writes are on a job that has not been leased since and do not end or begin a
  lease (`LeaseRuns.AccountsAreRightExactly`, `LeaseRuns.WriteAddsUp`); a write with no other event in between is
  one (`LeaseRuns.CurrentIsSpared`).
- A rescan always rewrites the first location of an asset, even for the URL of another one:
  `Catalog.RescanReachesOwnLocation`.
- Opening a folder of the explorer normalises its path, and not every folder that a view shows opens itself:
  "a " opens "a", and so does "a/", the folder of "a//b" (`ExplorerPaths.FoldersThatOpenAnother`). Such a
  folder's record and view differ in some catalog, and only such a folder's do, apart from a stored path that
  is the folder's with a slash after it (`Explorer.DrillDownExactly`, `Explorer.DrillDown`).
  `ExplorerPaths.FolderOpensItself` says which names these are.
- Normalising a request twice is not the same as normalising it once: "a /." becomes "a ", which is then trimmed.
  It is the same exactly if the result has no white space at its ends
  (`ExplorerPaths.NormalizedTwice`, `ExplorerPaths.NormalizedIsAlmostClean`).
- A leased update whose copy says that the job is waiting or over takes a row out of cancel_requested, in both
  stores; the `UpdateLeasedJob` of each says exactly when.
- `simplifyCatalogPoints` has no case for one point and divides by zero there:
  `Sampling.SimplifyCatalogPoints`.
- `interpolateGeoPoint` accepts a single point at exactly the target time whatever the largest gap, even
  a negative one. The job's gap is always positive, so this does not show there.
- The preview cleanup needs no assumption about sizes to delete a shortest prefix; with non-negative
  sizes that prefix is also the least that has to go (`PreviewCache.CutIsLeast`).

## Model

| member | source | states |
|---|---|---|
| WalkTree.Normalize | internal/storage/storage.go:346-361 | a zero limit becomes 50 files or 2 GiB, missing folder workers 4, missing file workers 8, a missing queue depth 64, each whatever the others are, and no prefix the root; other values and the filters are kept |
| WalkInvariant.FileTurnReported | internal/storage/storage.go:471-509 | no turn of a file worker breaks the limits, the sums of the report or the meaning of the stop flags |
| WalkInvariant.OfferTurnMoves | internal/storage/storage.go:439-470 | every outcome of enqueueFolder (excluded, stopped, sent, inline, cancelled) keeps the folder WaitGroup and every counter in balance with the work still pending |
| WalkInvariant.FrameTurnMoves | internal/storage/storage.go:511-592 | every turn of a running processFolder, inline calls included, keeps each counter and WaitGroup in balance and makes the remaining weight smaller |
| WalkInvariant.CallerTurnMoves | internal/storage/storage.go:615-646 | the same for the prefix loop and the shutdown sequence |
| WalkSteps.StepKept | internal/storage/storage.go:345-646 | every enabled step of every goroutine keeps the whole invariant, burns fuel and does not panic |
| WalkTheorems.Terminates | internal/storage/storage.go:345-646 | no schedule is longer than a bound computed from the tree: the walk ends under every interleaving, for every worker count and queue depth |
| WalkTheorems.NeverPanics | internal/storage/storage.go:439-646 | in every reachable state, no step sends on a closed channel or takes a WaitGroup below zero, and neither WaitGroup is negative |
| WalkQueues.PanicsExactly | internal/storage/storage.go:439-592 | the steps that would panic are exactly the sends on a closed channel and the last Done of a WaitGroup that is not positive |
| WalkTheorems.NeverStuck | internal/storage/storage.go:601-646 | until the call has returned some goroutine can move, without outside help: no deadlock, for every queue depth and worker count |
| WalkTheorems.ReturnsAtRest | internal/storage/storage.go:641-645 | on a normal return both queues are empty, every goroutine is idle and the channels are closed |
| WalkTheorems.FolderWaitGroup | internal/storage/storage.go:439-470 | at every moment the folder WaitGroup equals queued folders, active processFolder calls and folders reserved but not yet offered |
| WalkTheorems.VisitsOnlyReference | internal/storage/storage.go:471-592 | limited, failing or cancelled, the walk visits no file the recursive walk would not visit, and none more often |
| WalkTheorems.VisitsAllReference | internal/storage/storage.go:471-646 | a normal return with Complete set and no outer cancellation has visited exactly the files of the recursive walk |
| WalkChains.WalkIsChains | internal/storage/storage.go:439-592 | a path is in the recursive walk if and only if a chain of entries leads to it from a prefix: every folder on it can be read, none of them nor the prefix satisfies the directory filter unless it is the root, and it ends in a file that can be examined and passes both file filters |
| WalkChains.VisitsAreChains | internal/storage/storage.go:439-592 | every run visits only paths that such a chain leads to, and a normal complete run without outer cancellation visits a path if and only if one does |
| WalkTheorems.ReportIsScheduleFree | internal/storage/storage.go:471-646 | the counters of such a walk, each skip reason included, are functions of the tree and the options, whatever the interleaving |
| WalkComplete.CompleteExactlyIfItFits | internal/storage/storage.go:471-646 | left alone by callback and context, over prefixes that normalise, every schedule returns normally; the report is complete if and only if the number and the bytes of the recursive walk's files are within the limits; and then the visits are those files and every counter is the recursive walk's |
| WalkTheorems.RootScansOneMore | internal/storage/storage.go:552-571 | from the root of a readable tree a complete walk scans one folder more than it queues |
| WalkTheorems.LimitsHold | internal/storage/storage.go:492-502 | at every moment of every run FilesReturned and BytesSeen are within their limits |
| WalkTheorems.FilesAddUp | internal/storage/storage.go:471-509 | at every moment FilesSeen is returned, extension- and pattern-skipped, limit-dropped and undecided files together, and returned files are visited or about to be |
| WalkLimit.LimitEndsTheWalk | internal/storage/storage.go:424-437 | whatever happens after a limit is reached, no folder is queued any more, each folder goroutine scans at most the one folder it had begun, and each file worker sees and returns at most the one file it had begun |
| WalkQueues.QueuesStayWithinDepth | internal/storage/storage.go:365-366 | in every run the folder queue holds at most its depth and the file queue at most four times that or sixteen |
| WalkQueues.OnlyFullQueuesHoldUp | internal/storage/storage.go:459-469 | a send waits only while the file queue is full and the walk not cancelled, and a folder is walked inline only when the folder queue is full |
| WalkOnce.VisitsOnce | internal/storage/storage.go:615-640 | over prefixes that do not overlap no file is visited twice in any run |
| WalkHiding.CancellationHidesEverything | internal/storage/storage.go:601-606 | for every configuration with prefixes that are not the root and fit the queue, outer cancellation can leave a normal, complete report with no file visited at all |
| WalkReturn.EarlyReturnHasCause | internal/storage/storage.go:615-646 | an early return has a bad prefix, a callback error or outer cancellation as its cause; a bad prefix always causes one; without the other two it is early if and only if a prefix is bad |
| WalkReturn.WorkersEndExactlyAfterNormalReturn | internal/storage/storage.go:601-645 | once everything has come to rest after the return, all workers wait to receive, and from closed channels if and only if the return was normal |
| WalkReturn.BadPrefixReturnsEarly | internal/storage/storage.go:623-630 | with no prefix before a bad one the call returns at once, with open channels and nothing able to move |
| WalkExposed.CancellationReturnsEarly | internal/storage/storage.go:615-640 | for every configuration with a prefix that is not excluded, or with a root that has something to send or offer in it, outer cancellation can make the call return early |
| WalkExposed.CancellationEndsExposedWalks | internal/storage/storage.go:535-640 | with prefixes that normalise, it can do so if and only if there is such a prefix or root: otherwise no run without a callback error returns early |
| WalkExposed.CallbackErrorReturnsEarly | internal/storage/storage.go:503-507 | for every configuration whose walk first sends a wanted file, of a folder, of the root or a prefix itself, and whose caller has something to send or offer after it, a callback error can make the call return early |
| WalkReturn.VisitsGoOnAfterReturn | internal/storage/storage.go:608-614 | a file queued before an early return can be visited after it |
| Jobs.OperationsFollowEdges | internal/jobs/jobs.go:146-284 | every successful operation, the operator's retry included, takes a status along an edge of the transition graph, and none leaves Succeeded |
| Jobs.OperationsByStatus | internal/jobs/jobs.go:146-284 | for each operation the statuses it accepts and the one it leads to, one by one |
| Jobs.RetriesByShape | internal/jobs/jobs.go:67-91 | an error is retried if and only if ErrCanceled is nowhere in its chain and the first classified error on it, if any, is neither permanent nor a panic nor a cancellation |
| Jobs.LogsKeepNewest | internal/jobs/jobs.go:286-291 | after any number of log calls the log holds exactly the last lines up to the cap, oldest first |
| Jobs.JobRef.Start | internal/jobs/jobs.go:165-182 | starts or refuses, and changes nothing on refusal |
| Jobs.JobRef.Complete | internal/jobs/jobs.go:184-194 | completes or refuses, and changes nothing on refusal |
| Jobs.JobRef.Fail | internal/jobs/jobs.go:196-210 | fails with the cause's message, or refuses a missing cause or a wrong status and changes nothing |
| Jobs.JobRef.RequestCancel | internal/jobs/jobs.go:212-232 | cancels a waiting job at once, asks a running one, leaves a finished one alone |
| Jobs.JobRef.Cancel | internal/jobs/jobs.go:234-250 | cancels or refuses |
| Jobs.JobRef.Retry | internal/jobs/jobs.go:252-266 | requeues with a next run time, or refuses a missing cause or a wrong status and changes nothing |
| Jobs.JobRef.RetryNow | internal/jobs/jobs.go:268-284 | requeues at once and forgets worker, lease, finish and cancel request but not the attempts, with a cause of its own if none is given, or refuses |
| JobStore.NextIsUnique | internal/catalog/catalog.go:1325-1363 | at most one job is next by creation time and id, so map order cannot matter |
| JobStore.NextIsOldest | internal/catalog/catalog.go:1325-1345 | the next job is the waiting job whose time has come and whose kind is asked for that was created first, and of those created together the one whose id is smaller by its first difference; both directions |
| JobStore.MemoryJobs.EnqueueJob | internal/catalog/catalog.go:1282-1290 | stores the job with at least one allowed attempt and touches no other |
| JobStore.MemoryJobs.UpdateJob | internal/catalog/catalog.go:1292-1300 | replaces a job that is there by the one handed over, whatever happened to it since it was read |
| JobStore.MemoryJobs.LeaseNextJob | internal/catalog/catalog.go:1325-1363 | releases expired leases, then leases the oldest waiting job, or none if none waits, and touches nothing else |
| JobStore.MemoryJobs.HeartbeatJob | internal/catalog/catalog.go:1365-1379 | extends the lease of the owner's active job, and only that |
| JobStore.MemoryJobs.UpdateLeasedJob | internal/catalog/catalog.go:1381-1399 | writes the owner's copy; a row asked to cancel stays so if and only if the copy is active |
| JobStore.MemoryJobs.CompleteLeasedJob | internal/catalog/catalog.go:1401-1418 | completes the owner's job, or reports what is wrong and changes nothing |
| JobStore.MemoryJobs.FailLeasedJob | internal/catalog/catalog.go:1420-1433 | requeues the owner's job if attempts remain, the copy is not asked to cancel and the cause is not final by its chain, and fails it otherwise; a requeued job waits a second for each attempt, at least one and at most five |
| JobStore.MemoryJobs.CancelLeasedJob | internal/catalog/catalog.go:1435-1452 | cancels the owner's job by the copy it is given |
| JobStore.MemoryJobs.RequestCancelJob | internal/catalog/catalog.go:1454-1467 | records the request on exactly that job |
| JobStore.MemoryJobs.ReleaseExpiredLeases | internal/catalog/catalog.go:1469-1511 | requeues exactly the running jobs with an expired lease and cancels the ones asked to cancel, the same for every map order, and counts them |
| JobTable.NextIsFirst | internal/database/database.go:1116-1133 | the next row is the first waiting unlocked row by its place in the list of kinds, then by creation time and then by the first difference of the ids; both directions |
| JobTable.DatabaseJobs.EnqueueJob | internal/database/database.go:1008-1023 | inserts the job with at least one allowed attempt, or fails on an id that is taken |
| JobTable.DatabaseJobs.UpdateJob | internal/database/database.go:1025-1059 | overwrites every column but kind and creation time of a row that is there, without any guard |
| JobTable.DatabaseJobs.LeaseNextJob | internal/database/database.go:1102-1169 | releases expired leases, then leases of the waiting unlocked rows one of the earliest kind in the list of kinds, and of that kind the oldest, or none |
| JobTable.DatabaseJobs.HeartbeatJob | internal/database/database.go:1171-1185 | the guarded update extends the lease of an active row of that worker, or reports a lost lease |
| JobTable.DatabaseJobs.UpdateLeasedJob | internal/database/database.go:1187-1224 | writes exactly the active rows of that worker; a row asked to cancel stays so if and only if the copy is active, the time of the request is never lost, worker and lease stay |
| JobTable.DatabaseJobs.FinishLeasedJob | internal/database/database.go:1465-1507 | writes if and only if worker and current status allow it, with the job's status and cancel time and without worker and lease |
| JobTable.DatabaseJobs.CompleteLeasedJob | internal/database/database.go:1226-1231 | completes a running row of that worker only |
| JobTable.DatabaseJobs.FailLeasedJob | internal/database/database.go:1233-1260 | the same outcome as in memory, by the error's chain; a retry needs the row itself to be running, a terminal failure does not |
| JobTable.DatabaseJobs.CancelLeasedJob | internal/database/database.go:1262-1268 | cancels an active row of that worker and clears its lease |
| JobTable.DatabaseJobs.RequestCancelJob | internal/database/database.go:1270-1321 | records the request on exactly that row |
| JobTable.DatabaseJobs.ReleaseExpiredLeases | internal/database/database.go:1323-1354 | afterwards no lease is expired: running jobs wait again, those asked to cancel are canceled, no other row changes, and the changed ones are counted |
| LeaseRows.StoresAgree | internal/catalog/catalog.go:1365-1511 | for all rows, copies and clocks both stores do the same to status, worker and lease on heartbeat, update, completion, terminal failure and expiry |
| LeaseRows.StoresAgreeOnCancel | internal/catalog/catalog.go:1435-1452 | cancelling agrees if and only if the owner's copy is not already canceled |
| LeaseRows.StoresAgreeOnRetry | internal/database/database.go:1233-1260 | a retry agrees if and only if it is not a copy that may requeue a row asked to cancel |
| LeaseRows.FailByShape | internal/catalog/catalog.go:1513-1535 | in both stores what failing stores is a requeued job with its waiting time or a failed one, decided by attempts, status and the error's chain, whose texts it keeps; the owner's failure of its own running copy is always stored |
| LeaseRows.MemoryFailLosesCancel | internal/catalog/catalog.go:1513-1535 | the memory store loses a cancel request if and only if the copy may retry and its own status allows queueing |
| LeaseRows.DbFailKeepsCancel | internal/database/database.go:1233-1260 | no copy and no cause makes the database requeue a row asked to cancel |
| LeaseRuns.AttemptsAddUp | internal/catalog/catalog.go:1325-1535 | in every run whose writes do no harm attempts equal leases, and leases equal completions, failures, retries, cancels and expiries plus one while active; active jobs have a worker and a lease, others neither |
| LeaseRuns.TallyCountsEvents | internal/catalog/catalog.go:1325-1535 | each counter in these accounts is the number of its events in the run, by what they did to the row |
| LeaseRuns.WriteAddsUp | internal/catalog/catalog.go:1292-1300 | a write without a lease keeps these accounts if and only if the job has not been leased since it was read and the write neither ends a lease nor brings one back |
| LeaseRuns.AccountsAreRightExactly | internal/catalog/catalog.go:1292-1535 | the accounts of a run are right at every moment if and only if each of its writes is of that kind |
| LeaseRuns.CurrentIsSpared | internal/server/server.go:1172-1192 | a write, operator retries included, on a job whose status, worker, lease and attempts are as they were read is of that kind |
| LeaseRuns.StaleWriteUndoesLease | internal/server/extended.go:922-952 | for every fresh job a run of two steps, a lease and a write of the job as enqueued, after which it waits with no attempt while it is being run |
| LeaseRuns.StaleRetryUndoesLease | internal/server/server.go:1172-1192 | for every fresh job a run in which the second of two retries of one failure puts a leased job back in the queue |
| LeaseRuns.EndedJobsCanBeRetried | internal/server/server.go:1172-1192 | an operator can retry a job as it is if and only if it has failed or was canceled, and it then waits without a delay |
| LeaseRuns.AttemptsAreBounded | internal/catalog/catalog.go:1513-1535 | in every such run leases are at most the attempt limit plus expiries plus operator retries |
| LeaseRuns.RunFollowsEdges | internal/jobs/jobs.go:146-163 | every status change of every such run in either store is an edge of the transition graph, but for a write on a job that has changed since |
| LeaseRuns.CancelIsHeeded | internal/server/server.go:8631-8634 | a job asked to cancel leaves that status only for canceled or failed, operator retries allowed, under the condition each store needs, whatever stale copies do |
| LeaseRuns.CancelIsKept | internal/database/database.go:1187-1354 | while no operator retries it, a job once asked to cancel only ever becomes canceled or failed, and stays so, under the same condition |
| LeaseRuns.DatabaseHeeds | internal/database/database.go:1253-1260 | for the database that condition is only that no write is on a job that has changed since it was read |
| LeaseRuns.StaleCopyRequeues | internal/catalog/catalog.go:1521-1530 | a run of three steps, none of them a write without a lease, in which the memory store requeues a job asked to cancel |
| LeaseRuns.FailedForGood | internal/catalog/catalog.go:1521-1532 | in every run a job that has failed with attempts left was failed in that attempt with a final cause, or had been asked to cancel in it |
| LeaseRuns.RetriedJobWaits | internal/catalog/catalog.go:1969-1977 | a job requeued by a failure is not leased again for as many seconds as it has had attempts, at least one and at most five, unless a handler writes it |
| LeaseRuns.RunRefines | internal/jobs/jobs.go:146-284 | over any run either store does to (status, worker, lease) what one abstract lease machine does |
| StoreRuns.OperationsAreTheStores | internal/catalog/catalog.go:1325-1511 | the operations of a store run do to the rows what the methods of that store do |
| StoreRuns.RunOnJob | internal/catalog/catalog.go:1325-1511 | every run of a whole store is, for each of its jobs, a run of that job, and harmless writes stay harmless |
| StoreRuns.JobHasRun | internal/catalog/catalog.go:1282-1290 | every job of a store that began empty was enqueued fresh and has had a run since |
| StoreRuns.StoreAddsUp | internal/catalog/catalog.go:1325-1535 | so attempts equal leases, leases their ends, and both are bounded, for every job of every run of either store whose writes do no harm |
| LeaseOrder.FirstInFirstOut | internal/catalog/catalog.go:1325-1363 | over any run in which nothing is enqueued or requeued jobs leave in order: of two leases the first takes the job created first, in the database after the order of kinds, if the other was one it asked for |
| Catalog.IndexIsDetermined | internal/catalog/catalog.go:947-996 | two catalogs whose maps agree with the same assets are the same: the index has no freedom |
| Catalog.UpsertKeepsIndex | internal/catalog/catalog.go:947-996 | a discovery or rescan keeps the three maps in agreement |
| Catalog.RehashKeepsIndex | internal/catalog/catalog.go:1029-1090 | recording a hash in place keeps the three maps in agreement |
| Catalog.MergeKeepsIndex | internal/catalog/catalog.go:1029-1090 | a merge keeps the three maps in agreement, whichever candidate it goes to, and conserves the set of URLs |
| Catalog.MergedMetadata | internal/catalog/catalog.go:1074-1081 | a merged asset's metadata has exactly the target's entries and the source's for keys the target has none for |
| Catalog.MetadataKeepsIndex | internal/catalog/catalog.go:1092-1112 | a metadata update keeps the three maps in agreement |
| Catalog.RescanReachesOwnLocation | internal/catalog/catalog.go:953-959 | a rescan with a new size reaches the location of its URL if and only if that is the first of its asset |
| CatalogStore.MemoryAssets.UpsertDiscoveredFile | internal/catalog/catalog.go:947-996 | the whole new state of the three maps, and whether an asset was created |
| CatalogStore.MemoryAssets.FindContent | internal/catalog/catalog.go:1035-1051 | some other asset with a hashed location of this content if there is one, in any map order, and its content id |
| CatalogStore.MemoryAssets.UpdateLocationHash | internal/catalog/catalog.go:1029-1090 | the whole new state: unchanged if the asset is missing, rehashed in place if no asset has the content, merged into one that has otherwise; no URL is lost |
| CatalogStore.MemoryAssets.UpdateAssetMetadata | internal/catalog/catalog.go:1092-1112 | the whole new state of the three maps |
| Contents.OneCandidate | internal/catalog/catalog.go:1035-1051 | under fixed contents at most one asset can be merged into, and none if the asset is already hashed |
| Contents.ReportIsDetermined | internal/catalog/catalog.go:1029-1090 | so a hash report has one outcome, whatever the map order |
| Contents.StepKeepsIndex | internal/catalog/catalog.go:947-1112 | every discovery, metadata update and hash report keeps the three maps in agreement |
| Contents.ReportIsPossible | internal/catalog/catalog.go:1029-1090 | a hash report for any stored asset has an outcome, so no run is stuck |
| Contents.RunKeeps | internal/catalog/catalog.go:947-1112 | every run of discoveries, metadata updates and hash reports keeps the index and the agreement of content ids with contents |
| Contents.SameAssetIffSameContent | internal/catalog/catalog.go:1029-1090 | two hashed URLs are in one asset if and only if their contents are equal |
| Contents.GroupingIsOrderFree | internal/catalog/catalog.go:1029-1090 | two runs from the empty store group the hashed URLs alike, whatever their order |
| Duplicates.CountStats | internal/catalog/catalog.go:1114-1156 | the counters of locations and duplicates are the sizes of the sets they stand for, in any map order |
| Duplicates.BuildDuplicateGroups | internal/catalog/catalog.go:1699-1748 | the groups are exactly the classes of two or more by hash and size, each with exactly its members, and the total counts them |
| Duplicates.StatsAgreeWithReport | internal/catalog/catalog.go:1114-1156 | in every catalog that agrees with fixed contents the number of duplicate groups is the report's total and the number of duplicate locations the members of all its groups |
| Discovery.FilterHashTargets | internal/discovery/discovery.go:625-675 | keeps the listing's order and only the wanted, unhashed assets |
| Discovery.TargetsAreTheUnhashed | internal/discovery/discovery.go:655-674 | an asset is a target if and only if it is listed and wanted and its first location is unhashed, and is one only once |
| Discovery.HashUnhashed | internal/discovery/discovery.go:577-616 | running alone the loop never finds a later target missing; where and why it ends, its counters, and that what was read is hashed in the end |
| Plugins.IndexManifests | internal/plugins/plugins.go:84-94 | an error if and only if a manifest is invalid or an id repeated, and one that names it; otherwise the map of the manifests by id |
| Plugins.ValidAfterDefaults | internal/plugins/plugins.go:138-173 | which manifests are accepted, by their fields and the characters of their id |
| Plugins.Sorter.Visit | internal/plugins/plugins.go:96-124 | the nested visit with its three mutable collections does what the recursive specification says, and terminates by the ids neither visited nor in progress |
| Plugins.GraphSorts | internal/plugins/plugins.go:96-136 | the depth-first sort succeeds if and only if every dependency exists and the graph is acyclic, and then every manifest comes once and after its dependencies |
| Plugins.SortIsByFirstPath | internal/plugins/plugins.go:96-136 | manifests come in the order of the paths that lead to them, at every position the smallest id or dependency that leads there: by the first difference of the paths, and what is depended on first |
| Plugins.OutOfTurn | internal/plugins/plugins.go:96-136 | a manifest stands before one with a smaller id only if it is a direct or indirect dependency of a manifest whose id is at most that smaller one |
| Plugins.UnneededAscend | internal/plugins/plugins.go:128-134 | manifests that nothing depends on come in ascending order of their ids |
| Order.LessIsFirstDifference | internal/plugins/plugins.go:113-113 | the comparison of strings is a proper prefix or a smaller character at the first difference; both directions |
| Plugins.OrderRulesOutCycles | internal/plugins/plugins.go:96-136 | any order with dependencies first proves the graph acyclic and complete |
| Plugins.Sort | internal/plugins/plugins.go:83-136 | succeeds if and only if ids are unique, manifests valid, dependencies present and the graph acyclic; the result is a permutation of the normalised input with dependencies first, in the order of the smallest paths; an error names an invalid manifest, a repeated id, an id on a cycle or a missing dependency |
| Plugins.SortIsOrderFree | internal/plugins/plugins.go:83-136 | the same manifests in any order succeed or fail alike and sort to the same sequence |
| Raster.DrawDot | internal/server/track_preview.go:228-242 | colours exactly the pixels of the image inside the disc |
| Raster.RoundStaysNear | internal/server/track_preview.go:209-224 | one round of the error keeps the point within half a step of the ideal line and always moves the longer axis |
| Raster.DrawLine | internal/server/track_preview.go:199-226 | for all end points: one point per step of the longer axis, from the first end to the last, connected, never past either end, each within half a pixel of the ideal line; and exactly the pixels of the dots change |
| Explorer.BuildExplorerView | internal/catalog/catalog.go:1612-1666 | refuses exactly the requests that open no folder, and otherwise shows every subfolder of the normalised folder once with its totals, exactly the direct files, and the bytes of everything below |
| Explorer.PlaceOfPath | internal/catalog/catalog.go:2008-2027 | a path is below a folder if it goes on after the folder's path and a slash, and a file of the folder if no slash follows |
| PathRules.CleaningIsRewriting | internal/catalog/catalog.go:1987-1987 | what cleaning leaves is the one and only list of segments that no rule applies to and that the rules lead to, where a rule drops an empty segment, a dot, or a name with the ".." after it, anywhere and in any order |
| PathRules.ParentDropsName | internal/catalog/catalog.go:1987-1987 | a name and the ".." after it go in every context |
| PathRules.RequestOpens | internal/catalog/catalog.go:1979-1995 | which folder a request opens, in these terms: white space dropped at its ends, backslashes as slashes, and its parts rewritten; refused if and only if the path is absolute or leads out of the root |
| PathRules.RuleKeepsFolder | internal/catalog/catalog.go:1987-1987 | requests that a rule takes to one another open the same folder |
| Explorer.SubfolderIsBelow | internal/catalog/catalog.go:2008-2027 | being grouped under a subfolder is being below its path, except for that path with a slash |
| Explorer.FoldersAddUp | internal/catalog/catalog.go:1637-1650 | the folders' totals count everything inside them once |
| Explorer.ViewAddsUp | internal/catalog/catalog.go:1636-1666 | a view's bytes are its folders' bytes and its direct files' bytes |
| Explorer.DrillDown | internal/catalog/catalog.go:1592-1682 | for a folder that opens itself, its count is that of the view opened if and only if no path is the folder's with a slash after it, and then the bytes agree too |
| Explorer.RecordIsView | internal/catalog/catalog.go:1612-1666 | a folder's record counts what lies below its path, and the path with a slash after it |
| Explorer.DrillDownExactly | internal/catalog/catalog.go:1592-1666 | a folder agrees with the view opened for it in every catalog that shows it, leaving aside the path with a slash, if and only if its path normalises to itself |
| Explorer.Disagreement | internal/catalog/catalog.go:1979-1995 | for every other folder a catalog of one or two files in which they differ |
| ExplorerPaths.FixedIsClean | internal/catalog/catalog.go:1979-1995 | a request normalises to itself if and only if it is empty, or trimmed, without backslashes and without empty, "." and ".." segments |
| ExplorerPaths.NormalizedIsAlmostClean | internal/catalog/catalog.go:1979-1995 | a normalised request is clean but for white space at its ends, and normalises to itself if and only if it has none |
| ExplorerPaths.NormalizeShortens | internal/catalog/catalog.go:1979-1995 | normalising never makes a request longer, and one that keeps its length only had its backslashes replaced |
| ExplorerPaths.FolderOpensItself | internal/catalog/catalog.go:2008-2013 | below a normalised folder, a subfolder opens itself if and only if its name is plain and without backslashes and its path is trimmed |
| ExplorerPaths.NormalizedTwice | internal/catalog/catalog.go:1979-1995 | "a /." normalises to "a ", which does not normalise to itself |
| ExplorerPaths.FoldersThatOpenAnother | internal/catalog/catalog.go:1979-1995 | a path that ends in white space or a slash, such as "a " and "a/", does not open itself |
| GeoSnap.TimedPoints | internal/metadata/geosnap.go:137-146 | the points with a time, all of them, in chronological order |
| GeoSnap.InterpolateGeoPoint | internal/metadata/geosnap.go:148-186 | the gap is the least distance in time to any point; success if and only if it is within the largest gap (or the single point is hit); the position is on the track at that moment |
| GeoSnap.PositionIsBetween | internal/metadata/geosnap.go:180-184 | latitude and longitude lie between those of one point or of two neighbours |
| GeoSnap.RecordedMoment | internal/metadata/geosnap.go:161-186 | at a recorded moment the position is the recorded one, on either side of it |
| GeoSnap.ConfidenceIsShare | internal/metadata/geosnap.go:107-107 | the confidence is one exactly at a recorded moment and falls evenly to zero at the largest gap |
| GeoSnap.NearestIsOrderFree | internal/metadata/geosnap.go:137-146 | the gap does not depend on how points with equal times are ordered |
| GeoSnap.SnapAsset | internal/metadata/geosnap.go:100-107 | an asset is placed if and only if some timed point is within the gap of its shifted time, with the share of the gap that the closest leaves as its confidence |
| TrackSplit.SplitTrackPointsByJump | internal/server/extended.go:1497-1540 | the loop computes the segments and hidden counts the jumps; without filtering it yields the valid points in one segment |
| TrackSplit.RunsAreCut | internal/server/extended.go:1513-1539 | the segments cover exactly the valid points, are not empty, are joined inside and break only at a jump or an invalid point |
| TrackSplit.CutIsUnique | internal/server/extended.go:1513-1539 | there is only one such division, so the segments are the maximal stretches |
| TrackSplit.SegmentsOfCut | internal/server/extended.go:1497-1540 | the segments are the points of that division |
| TrackSplit.NothingIsLost | internal/server/extended.go:1497-1540 | the segments joined together are the valid points in their order |
| TrackSplit.DrawableIsOnGlobe | internal/server/extended.go:1542-1546 | the points drawn are those with finite coordinates within 90 and 180 degrees |
| TrackSplit.JumpsMakeSegments | internal/server/extended.go:1530-1533 | there are as many segments as stretches of valid points and hidden jumps together |
| TrackSplit.TrackGeometryFromPoints | internal/server/extended.go:1472-1495 | the lines drawn are the segments of two points or more, as no geometry, one line or several |
| TrackSplit.LinesAreLong | internal/server/extended.go:1472-1495 | a line is drawn if and only if it is a segment of two points or more |
| Sampling.IndicesSpread | internal/gpx/gpx.go:241-263 | the sampled indices start at the first, end at the last, increase strictly and never skip more than an equal share rounded up |
| Sampling.IndexIsClose | internal/gpx/gpx.go:248-252 | a rounded index is within half an index of its ideal place, a floored one less than one below |
| Sampling.Simplify | internal/gpx/gpx.go:241-263 | exactly the points at the rounded indices, and the two repairs of an index never happen |
| Sampling.DownsampleTrackPoints | internal/database/extended.go:1407-1424 | exactly the points at the floored indices |
| Sampling.SimplifyCatalogPoints | internal/catalog/extended_store.go:692-706 | the same, and undefined if and only if one point is asked of several |
| Sampling.EndsStay | internal/database/extended.go:1407-1424 | the first point always stays, the last unless only one is wanted, and there are never more than asked for |
| Sampling.SamplesAgree | internal/catalog/extended_store.go:692-706 | where both stores' functions are defined they return the same points |
| PreviewCache.Cache.CleanupPreviewCacheEntries | internal/catalog/extended_store.go:978-997 | deletes exactly the shortest oldest-first prefix after which no entry is too old and the rest fits; what is deleted and what is left are a partition of the entries |
| PreviewCache.CutIsLeast | internal/catalog/extended_store.go:988-994 | with sizes that are not negative a prefix leaves the cache settled if and only if it is at least that long |
| PreviewCache.CleanupIsDetermined | internal/catalog/extended_store.go:987-994 | with distinct creation times what is deleted depends on the entries and the limits only |
| Chronology.OrderIsDetermined | internal/catalog/extended_store.go:987-987 | with distinct times there is one sorted order, so the unstable sort has no freedom |

## Left out

- The walk is a step system on values, not imperative code: Dafny has no goroutines or channels. Workers that have been started but whose channels are never closed are not followed beyond an early return.
- The file system of a walk is a fixed tree: errors are flags in it, `safePath` and symlink policy beyond the skip are not modelled, and the extension and pattern filters are predicates on paths.
- The progress ticker, snapshots for callbacks and the order in which skip reasons are listed.
- Integer widths: `int64` sums are unbounded integers, so an overflow of byte totals is not captured.
- WalkOnce.VisitsOnce: needs prefixes that do not overlap and folders without two entries of one name; overlapping prefixes are walked twice by the program too.
- Names that `Stat` normalises to others: a file "f " beside "f" is visited as "f" by the program and under its own name here, so names are taken to be fixed by that normalisation.
- LeaseRuns.CancelIsHeeded: for the memory store its condition asks that a failing worker's copy knows of the request; the exact failing case is `LeaseRows.MemoryFailLosesCancel`.
- WalkExposed.CallbackErrorReturnsEarly: which configurations a callback error can never end early is not stated; it depends on the order in which workers reach the limits.
- LeaseRuns.AttemptsAddUp: a worker's copy is of an active job (`Genuine`); a copy into which `checkCanceled` has written another status is only used to cancel at once and is not an event here.
- LeaseRuns.RunRefines: the abstract machine takes the store as a parameter for the two operations where the stores differ.
- Jobs that a handler runs and writes by itself (components.go:196-330, server.go:4814-4890) are of kinds no worker is registered for (app.go:152-181), so they are not runs of the lease protocol; nor is a job that a handler runs at once where there are no workers (`SyncJobs`). A retry is not refused here for a failure that looks permanent, so runs contain more retries than the program's.
- PostgreSQL beyond guarded updates of one row: isolation, other tables, and which locked rows `SKIP LOCKED` passes over (a parameter).
- Job payloads, kinds other than as strings, and the text of log messages; the expiry log line is part of the row but its wording is not.
- Discovery.HashUnhashed: models the loop over the targets; starting, progress totals and logging are left out, and what reading a file, looking for a cancel request and writing the job row come to is given per target.
- Discovery.FilterHashTargets: albums, storage names and path prefixes are one predicate on assets.
- Duplicates.BuildDuplicateGroups: before sorting and paging of groups, without per-group totals and display fields.
- Duplicates.CountStats: without total bytes and counts per media kind, which are plain sums.
- Explorer.BuildExplorerView: before the sorting of folders and files and the paging of files, without the latest modification time; the request's filters are predicates.
- Aliasing of Go slices inside assets: locations are values here, and every method states its whole new state.
- `normalizeManifest` also writes through the manifest's slices to the caller's data; here it returns a new value.
- GeoSnap.InterpolateGeoPoint: floating-point rounding; the coordinates returned together with a refusal are not stated.
- Sampling.Simplify: over exact rationals; floating-point steps are not modelled.
- The loop of a snap job over assets, its store writes and its counters.
- The haversine formula: a distance is any real-valued function of two points. Finiteness of coordinates is a case of the data type.
- PreviewCache.Cache.CleanupPreviewCacheEntries: keys are records, so two entries whose parts join to one key string are not told apart from it; the file-system cleanup of previews is a different operation and not modelled.
- HTTP handlers, configuration, media parsing, tiles, AI and geocoding services, authentication, tags, faces, places and other simple updates: nothing hard to state.
