# ByteFetch: a verified model

ByteFetch is a crawling engine: an API inserts jobs into PostgreSQL, any number of workers claim task rows
under a lease, fetch, store documents, enqueue the links they find, and finish the job; a sweep deletes what
has expired. This project models that engine in Dafny and proves what it is built to keep.

**The protocol.** `Tables` holds the rows of the schema and one function for each SQL statement. `Protocol`
is the worker pool as a state machine: a step is one statement or transaction, one clock tick, one heartbeat
or one crash, and any worker, the API, the sweep or the clock may take the next one; ids drawn by statements
that fail are lost by a step of their own. Workers keep the
snapshots the code keeps (the claimed row, the job as read, the plan not yet inserted, the failed flag), so
every check-then-act gap of the code is there. Fetching, extraction, robots and link discovery are oracles:
their results are parameters of a step. `Rows`, `Lease`, `Finish`, `Attempts`, `TaskCap`, `Overshoot`,
`Site`, `BreadthFirst`, `Effects`, `Termination`, `Drain`, `Causes`, `Records`, `Dedupe`, `Failing`, `Listings`
and `LeaseBound` prove what every run of it keeps and what some run reaches (`Reachability` is what the latter
share). `WorkerLoop` is the loop of `runWorker` as the code writes it, statement by statement over the store,
proved to be a path of the protocol; `Passes` says in plain terms what a pass comes to. Theorems about runs hold for every
configuration, every number of workers, every page content and every interleaving.

**Assumption on time.** A worker inside `handleTask` gets a heartbeat through within `interval` of its last
one, and `0 <= interval <= lease`: the clock cannot tick past `beat + interval` of a live worker. A crashed
worker sends none, and a heartbeat may land on any row at any time (`LateBeat`). The bound is exact: with two
workers or more, `interval <= lease` is also necessary (`LeaseBound.LeasesExcludeWhen`). The database's
`now()`, which sets heartbeats and creation times, and the `time.Now()` of all workers, which lease ends and
deadlines are taken from, are one clock.

**Faults.** A crash, a finalising statement that fails and a `FinishJob` that stops half way are faults. Safety
holds with them; theorems that need their absence ask for a `Faultless` run. An error inside `handleTask`
(fetch, database, deadline) is not a fault: it is the `Fail` step and leads to a retry.

**The parts around it.** `Database` is the store with its tables as fields that methods update, each method
proved to leave what the statement functions say; `Transactions` has the two transactions of several
statements, with every way they can fail. `Urls` and `Frontier` are canonical keys, link filtering, dedupe
and planning; `Sitemap` the recursive sitemap walk over any graph; `Export` cursor paging and the export
loop; `Formats` and `Outputs` the output formats from request to response; `HostLimiter` and `PagePool` the
per-host semaphores and the browser page pool as interleavings of their critical sections. `Text`, `Uniques`,
`Sums` and `Wrappers` hold what these share.

Where the repository's own documentation says something else than its code, the model follows the code:

- `README.md:117` calls `max_tasks` a cap on the number of tasks per job. The count and the insert are separate
  statements, so the cap is kept by every run exactly when there is at most one worker or the cap is at most
  two (`Overshoot.CapKeptWhen`). What W workers keep of a cap M is, for a crawl or map, M and max(M - k, 0) more
  for each k from 2 to W, and no less (`Overshoot.CapExact`).
- `README.md:109` calls `max_retries` the attempts before a task is failed. A failed row has used
  `max_retries + 1` (`Attempts.AttemptsExact`), one when `max_retries` is negative, and for every configuration
  a run fails a row (`Failing.FailedIsReached`).
- `internal/fetch/renderer.go:63-65` gives `per_host_limit` a default of 2, but in a local copy of the
  configuration: a render is ever let in if and only if the configured limit is positive
  (`PagePool.RendersWhen`).

## Model

| member | source | states |
|---|---|---|
| Rows.StepFollows | internal/store/store.go:114-322 | no step rewinds an id sequence, breaks a foreign key, or changes a row it is not aimed at beyond its heartbeat and final URL; rows go only with their job |
| Rows.JobMoves | internal/store/store.go:244-258 | what a step can do to a job: its request never changes, and its status only by the statements that write it |
| Rows.NewJobs | internal/store/store.go:114-122 | a job appears only by createJobWithSeeds, under a new id |
| Lease.TouchedIsFree | internal/store/store.go:149-155 | the row a claim, completion, retry or failure writes is held by nobody but the worker that steps |
| Lease.LeaseExclusivity | internal/store/store.go:146-165 | in every run, crashes included, no two workers are between claiming the same row and finalising it; a claimed snapshot agrees with its row |
| LeaseBound.LeasesExcludeWhen | internal/worker/worker.go:125-138 | no fault-free run puts two workers on one row if and only if there is at most one worker or heartbeats come within the lease |
| Lease.WorkedJobIsPending | internal/worker/worker.go:92-111 | a job somebody works on has a pending row, the worker's own |
| Finish.QuiescenceStable | internal/store/store.go:291-310 | no step gives a job with nothing queued or processing a pending row again, or changes whether it has a failed one |
| Finish.StatusKept | internal/worker/worker.go:146-152 | no step overwrites completed or completed_with_errors by another status, not even StartJob or the max_duration cancel on a stale read |
| Finish.FinishedIsRight | internal/store/store.go:296-309 | in every run the three statements of FinishJob act as one: a finished status has nothing pending and says truly whether a task failed |
| Finish.FinishIsAtomic | internal/store/store.go:291-310 | in every run the status FinishJob writes is the one all three of its statements would come to at the moment of the write |
| Finish.QuietForever | internal/cleanup/cleanup.go:41-56 | from any point of any run on, a quiescent job stays quiescent with the same answer and the same finished status until it is deleted, and its id never comes back |
| Finish.NoneLeftHanging | internal/worker/worker.go:105-117 | without faults, a job with rows, nothing pending and nobody finishing it is completed exactly when no task failed and completed_with_errors exactly when one did |
| Causes.DeadlinesDecide | internal/worker/worker.go:141-152 | in every run a worker cancels a job only when it is older than a max_duration that is set, and starts work on it only if it was not when the worker read it |
| Causes.CancelledForCause | internal/cleanup/cleanup.go:41-49 | in every run a job becomes cancelled only once its expiry has passed before it completed, or it is older than max_duration |
| Causes.DeletedForCause | internal/cleanup/cleanup.go:50-56 | in every run a job is deleted only once its expiry or its deadline has passed |
| Causes.WorkInTime | internal/worker/worker.go:146-156 | in every run whoever fetches, stores, plans or has succeeded read the job within max_duration |
| Attempts.AttemptsExact | internal/store/store.go:225-242 | in every run queued, processing and done rows have at most max_retries attempts and failed rows exactly max_retries + 1 |
| Failing.FailedIsReached | internal/worker/worker.go:92-111 | for every configuration and pool a fault-free run fails a row, with max_retries + 1 attempts (one if negative), and completes its job with errors |
| Attempts.StatsAddUp | internal/store/store.go:491-508 | the counts of JobStats sum to its total, agree with TaskCount, PendingTaskCounts and HasFailedTasks, and bound its attempts from both sides |
| TaskCap.TaskCapHolds | internal/worker/worker.go:465-478 | with cap M and W workers a job created with s rows never has more than max(s, M) rows and, for each k from 2 to W, max(M - k, 0) more, plans not yet inserted included |
| TaskCap.TaskCapExact | internal/worker/worker.go:214-221 | with one worker, or a cap of at most two, the cap is kept exactly |
| TaskCap.PlanStepFits | internal/store/store.go:282-288 | the planner's own row counts, and a plan is no longer than what the count leaves of the cap |
| TaskCap.SomePlansFit | internal/worker/worker.go:465-478 | every step keeps the plans of any q workers together within the sum of max(M - k, 0) for k from 2 to q + 1, and one more only while nobody else has a row |
| TaskCap.BatchesKeepTheirRows | internal/worker/worker.go:164-169 | in every run a batch job has exactly the rows it was created with |
| Overshoot.CapReached | internal/worker/worker.go:465-473 | for every cap M > 0 and every pool a fault-free run takes a job with one seed to exactly that bound |
| Overshoot.CapExact | internal/worker/worker.go:465-478 | a number bounds the rows of all jobs with one seed, as crawls and maps are, in all fault-free runs if and only if it is at least that bound |
| Overshoot.CapKeptWhen | internal/worker/worker.go:474-478 | every fault-free run keeps the cap if and only if there is at most one worker or the cap is at most two |
| Termination.MeasureDrops | internal/worker/worker.go:530-532 | a measure of unused attempts and workers' positions never grows without faults and drops with every advance of the job |
| Termination.BoundedWork | internal/worker/worker.go:66-122 | without faults and with max_tasks set, the workers take at most an explicit number of steps for a job from any point on |
| Termination.NoStandstill | internal/worker/worker.go:76-85 | without faults, while a row is pending or a worker busy, some worker can take its next step, and fails only if its job is gone |
| Drain.LeftDrops | internal/worker/worker.go:66-122 | what is left to do for all jobs together, deleted ones with workers included, never grows without faults and new jobs and drops with every advance of any worker |
| Drain.WorkRunsOut | internal/worker/worker.go:66-122 | without faults and with max_tasks set, from any point after which no job is created all workers together take at most an explicit number of steps |
| Drain.WorkCanEnd | internal/worker/worker.go:66-122 | every run without faults goes on, by fault-free worker steps within that number, to where no row is pending, no worker busy and every job with rows has the right finished status |
| Drain.CrashesRecover | internal/store/store.go:156-161 | every run, crashes and failed statements included, goes on, by the clock and fault-free worker steps within twice that number, to where no row is pending and no worker busy: rows of crashed workers are claimed again when their leases run out |
| BreadthFirst.AllProcessingHeld | internal/store/store.go:156-161 | without faults every processing row has a worker on it |
| BreadthFirst.BreadthFirstHolds | internal/store/store.go:152-154 | with one worker, no faults and no claim that passes over a row locked by another session (a late heartbeat of the worker's own ticker can hold such a lock) a job's rows in id order have non-decreasing depth, finished before pending, pending ones within two levels |
| Site.SiteHolds | internal/worker/worker.go:202-213 | in every run (job, final_url) is unique, references hold, depths lie within max_depth, keys are canonical, and under same_domain the labels of the start's host end those of every task ever enqueued |
| Site.NewRowsOffered | internal/store/store.go:125-143 | every new row is one of the tasks the inserting step offered |
| Site.NewRowsDeeper | internal/worker/worker.go:212-217 | in every run a row added by a page is of the page's job and one level deeper, under its own URL; a row of a new job is a seed at level 0 under its canonical form |
| Effects.EffectsHold | internal/worker/worker.go:233-257 | without faults a done page task has stored between 1 and attempts + 1 documents, and a map task's transaction is committed only in the attempt that completes it: exactly once if that attempt found links, else never |
| Effects.MapCommitsTogether | internal/worker/worker.go:481-509 | the map transaction adds one mapped row per link in order and leaves a row for every planned task |
| Records.RecordsHold | internal/worker/worker.go:404-416 | in every run each document is of a page that a row of its job asked for; each mapped row is of a map job, was found on a page that a row one level above asked for, lies within max_depth, is canonical and under same_domain on the start's site |
| Dedupe.LookupHits | internal/worker/worker.go:420-423 | in every run a lookup hits exactly when a URL of the same canonical form was marked, and the cache holds canonical URLs only |
| WorkerLoop.RunWorker | internal/worker/worker.go:66-122 | one uninterrupted pass goes on from any path by enabled steps of this worker, no fault among them when its last statements succeed; it claims the first claimable unlocked row if there is one, and leaves exactly the tables that row, page and failures come to |
| WorkerLoop.HandleTask | internal/worker/worker.go:141-181 | a job past a max_duration that is set fails the task and is cancelled if that update succeeds, any other job that is there is started and the task processed by its type, a missing one fails it; by fault-free steps of the worker that end in success exactly then |
| Passes.SucceedsWhen | internal/worker/worker.go:141-258 | when a task succeeds, for each job type: age, fetch, store, depth, time, plan and inserts |
| Passes.TaskStartsJob | internal/worker/worker.go:150-152 | a task within max_duration starts a queued job and changes no other |
| Passes.PageStored | internal/worker/worker.go:326-426 | the one document a stored page adds, the canonical URL it marks, and when its row is renamed |
| Passes.PlanMadeWhen | internal/worker/worker.go:437-479 | a plan is made unless a lookup fails, or the count that the cap needs while a link is new |
| Passes.CrawlInserts | internal/worker/worker.go:208-221 | a crawl page that succeeds above max_depth has inserted its whole plan |
| Passes.RowsOfPlan | internal/store/store.go:125-143 | a plan made and inserted is the planned prefix of the page's links, and each of its tasks has a row |
| Passes.PassFinalises | internal/worker/worker.go:92-111 | the row is done, queued again below max_retries attempts, or failed, with one attempt more unless done; other rows stay |
| Passes.PassFinishes | internal/store/store.go:291-310 | the job's status afterwards, by the statuses of its rows |
| WorkerLoop.StorePage | internal/worker/worker.go:315-426 | succeeds exactly when the page is fetched and stored; leaves the renamed row, the document and the dedupe mark, by such steps |
| WorkerLoop.CrawlTask | internal/worker/worker.go:194-222 | succeeds exactly when the page is stored and its tasks all inserted, or nothing is to follow; leaves those inserted before a failure, by such steps |
| WorkerLoop.MapTask | internal/worker/worker.go:224-258 | commits links and tasks together, or fails and leaves nothing but ids drawn, by such steps; and when which |
| WorkerLoop.PlanPage | internal/worker/worker.go:208-217 | collectLinks and buildLinkTasks over the store come to the plan, or to none exactly when a lookup or the count it needs fails; and it is the plan of the protocol's Plan step |
| WorkerLoop.TakeRows | internal/store/store.go:137-141 | inserting the first n rows of a plan is n InsertRow steps |
| WorkerLoop.TakeFinish | internal/store/store.go:291-310 | an undisturbed FinishJob is three steps, or one when something is pending |
| Tables.InsertTasksAdds | internal/store/store.go:125-143 | the conflict-skipping insert adds only rows of the batch, under new ids, and changes nothing else |
| Tables.InsertTasksUnique | internal/migrate/migrations/000001_init.sql:29-29 | it keeps (job, final_url) unique |
| Tables.InsertTasksCovers | internal/store/store.go:127-131 | afterwards every URL of the batch has a row |
| Tables.InsertTasksFirst | internal/store/store.go:137-141 | of several tasks with one URL the first gets the row |
| Tables.InsertMappedBatchAdds | internal/store/store.go:546-566 | mapped rows are added in order under consecutive new ids |
| Tables.RenamedExactly | internal/store/store.go:188-202 | the row has the new URL afterwards exactly when no other row of its job had it |
| Tables.CancelledExactly | internal/store/store.go:313-322 | which jobs the sweep cancels |
| Tables.DeletedExactly | internal/cleanup/cleanup.go:50-56 | which jobs the sweep deletes and which it leaves, and that rows, documents and mapped rows go exactly with their jobs |
| Database.Store.InsertJob | internal/store/store.go:115-122 | the new contents of the jobs table and the id returned |
| Database.Store.InsertTasks | internal/store/store.go:125-143 | the loop inserts the batch, or the rows before the one that fails |
| Database.Store.InsertDocument | internal/store/store.go:511-517 | the new contents of the documents table |
| Database.Store.InsertMappedBatch | internal/store/store.go:546-566 | the loop inserts the batch, or the rows before the one that fails |
| Database.Store.DequeueTask | internal/store/store.go:146-185 | claims the least unlocked row that is queued, or processing without a heartbeat within the lease, and returns it as updated; or finds that there is none |
| Database.Store.UpdateTaskFinalUrl | internal/store/store.go:188-202 | renames the row unless another row of the job has the URL |
| Database.Store.UpdateTaskHeartbeat | internal/store/store.go:205-212 | extends the lease and nothing else |
| Database.Store.CompleteTask | internal/store/store.go:215-222 | marks the row done and nothing else |
| Database.Store.FailTask | internal/store/store.go:225-232 | marks the row failed, one attempt more |
| Database.Store.RetryTask | internal/store/store.go:235-242 | requeues the row without heartbeat, one attempt more |
| Database.Store.UpdateJobStatus | internal/store/store.go:253-258 | sets the status of an existing job |
| Database.Store.TaskCount | internal/store/store.go:282-288 | the number of the job's rows |
| Database.Store.PendingTaskCounts | internal/store/store.go:261-270 | the numbers of queued and of processing rows, both zero exactly when the job is quiescent |
| Database.Store.HasFailedTasks | internal/store/store.go:273-279 | answers whether a row of the job has failed |
| Database.Store.FinishJob | internal/store/store.go:291-310 | undisturbed, settles the job exactly when nothing is pending, with the right status |
| Database.Store.CancelExpiredJobs | internal/store/store.go:313-322 | cancels expired jobs that have not completed |
| Database.Store.DeleteExpiredJobs | internal/cleanup/cleanup.go:50-56 | deletes expired and overdue jobs with everything that references them |
| Database.Store.Sweep | internal/cleanup/cleanup.go:33-58 | cancel, then delete |
| Database.Store.MarkCanonical | internal/store/store.go:527-533 | adds one URL to the cache |
| Transactions.ChooseTasks | internal/server/jobs.go:39-62 | the loop over the seeds comes to the recursive specification: tasks, a duplicate or a failed lookup |
| Transactions.CreateJobWithSeeds | internal/server/jobs.go:21-79 | commits, under the next id, exactly when no statement it needs fails and no aborting seed was seen; reports a duplicate exactly when it meets one before any failed lookup; anything but a commit leaves every row as it was |
| Transactions.ChosenWhen | internal/server/jobs.go:45-56 | the loop runs through exactly when no lookup fails and no aborting seed was seen before |
| Transactions.DuplicateWhen | internal/server/jobs.go:50-56 | the loop meets a duplicate exactly when some seed aborts and no lookup up to it fails |
| Transactions.CommittedRows | internal/server/jobs.go:57-68 | a committed job has exactly one queued row per distinct unseen canonical seed, for the first seed with it, and no other |
| Transactions.CommitIsStep | internal/server/routes.go:61-110 | for the seeds the routes pass, a committed job is what the protocol's CreateJob step creates |
| Transactions.EnqueueMapLinks | internal/worker/worker.go:481-509 | links and child tasks are committed together or, but for ids drawn, nothing changes; and when which |
| Urls.CleanIdempotent | internal/urlutil/urlutil.go:31-31 | path.Clean is idempotent on rooted and relative paths |
| Urls.CleanKeeps | internal/urlutil/urlutil.go:31-31 | a rooted path of ordinary segments is clean |
| Urls.CleanDot | internal/urlutil/urlutil.go:31-31 | a "." segment goes |
| Urls.CleanSlashes | internal/urlutil/urlutil.go:31-31 | a second slash goes |
| Urls.CleanParent | internal/urlutil/urlutil.go:31-31 | a name goes with the ".." after it |
| Urls.CleanRootParent | internal/urlutil/urlutil.go:31-31 | a ".." at the root goes |
| Urls.TrimSlashIsIdle | internal/urlutil/urlutil.go:40-45 | after path.Clean the trailing-slash trim has nothing to do |
| Urls.CleanPathIdempotent | internal/urlutil/urlutil.go:27-47 | cleanPath is idempotent, index files included |
| Urls.CleanPathNormal | internal/urlutil/urlutil.go:27-47 | a rooted path comes out as "/" or with no empty, "." or ".." segment |
| Urls.CleanPathKeeps | internal/urlutil/urlutil.go:35-46 | a clean rooted path stays as it is unless it names one of the three index files |
| Urls.CleanPathRootWhen | internal/urlutil/urlutil.go:27-46 | exactly the index files and the paths of which no segment is kept become the root |
| Urls.CanonicalizeIdempotent | internal/urlutil/urlutil.go:12-25 | every canonical key is a fixed point |
| Urls.CanonicalizeKeeps | internal/urlutil/urlutil.go:12-25 | a key keeps a clean path, the scheme and host up to case, the query unless stripped, and every port but 80 under http and 443 under https |
| Urls.SameKeyWhen | internal/urlutil/urlutil.go:12-25 | when two URLs share a key |
| Frontier.FilterLinks | internal/worker/worker.go:572-615 | the loop keeps the keys of the followed links, in order |
| Frontier.FilteredLinksExact | internal/worker/worker.go:588-612 | a key is kept exactly when a followed link has it |
| Frontier.FilteredLinksAppend | internal/worker/worker.go:588-612 | the filter works link by link, in order |
| Frontier.FollowsWhen | internal/worker/worker.go:577-612 | which links are followed: scheme, host labels and port under same_domain, and extension, in plain terms |
| Frontier.SubdomainWhen | internal/worker/worker.go:744-752 | the host test holds of the base host and of whatever ends in a dot and it |
| Frontier.LabelsWhen | internal/worker/worker.go:744-752 | that is, exactly when the base host's labels end the other's |
| Frontier.FilteredLinksCanonical | internal/worker/worker.go:608-612 | every key kept is a fixed point of Canonicalize |
| Frontier.SubdomainTransitive | internal/worker/worker.go:744-752 | same host or subdomain is transitive |
| Frontier.PortLeadsNowhere | internal/worker/worker.go:577-596 | under same_domain a page on a non-default port has no links followed |
| Frontier.HopStaysInside | internal/worker/worker.go:593-596 | one hop judged against its parent page stays on the start's site |
| Uniques.FirstOccurrencesExact | internal/worker/worker.go:511-528 | the dedupe keeps every non-blank value once |
| Uniques.FirstOccurrencesOrder | internal/worker/worker.go:511-528 | in the order of first appearance |
| Frontier.UniqueStrings | internal/worker/worker.go:511-528 | the loop is that dedupe |
| Frontier.AppendUniqueLinks | internal/worker/worker.go:551-570 | the loop appends what is new, in order |
| Frontier.AppendedThenUnique | internal/worker/worker.go:428-435 | appending without repeats changes nothing for the dedupe that follows |
| Frontier.CollectLinks | internal/worker/worker.go:428-435 | the links are the dedupe of filtered page links followed by filtered sitemap links, the latter on the start page only |
| Frontier.CollectedLinksExact | internal/worker/worker.go:428-435 | they are distinct, canonical and not blank |
| Frontier.CollectedWhen | internal/worker/worker.go:428-435 | a key is collected exactly when a followed link of the page or the sitemap has it |
| Frontier.CollectedLinksInside | internal/worker/worker.go:428-435 | under same_domain all of them, sitemap links included, are on the start's site |
| Frontier.SkipSeen | internal/worker/worker.go:443-463 | the loop leaves the unseen links, or fails with the first failed lookup |
| Frontier.BuildLinkTasks | internal/worker/worker.go:437-479 | the plan for every answer of the store, errors included |
| Frontier.PlannedTasksLongest | internal/worker/worker.go:465-478 | the plan is the longest prefix of the new links that the cap leaves room for |
| Uniques.UnseenExact | internal/worker/worker.go:444-455 | exactly the links not in the cache are kept |
| Uniques.UnseenOrder | internal/worker/worker.go:444-455 | in the order of the list |
| Sitemap.Walker.FetchSitemapUrls | internal/worker/worker.go:652-705 | the recursive walk returns, marks and fetches what the specification says; for a URL set those leading locations, for an index its walk, failure exactly when the fetch fails |
| Sitemap.Walker.TakeEntries | internal/worker/worker.go:664-680 | the loop over a URL set returns the first `room` of the distinct trimmed locations that are not blank and not marked, and marks those |
| Sitemap.Walker.FollowIndex | internal/worker/worker.go:685-702 | the loop over an index, failed files passed over |
| Sitemap.Walker.Discover | internal/worker/worker.go:617-650 | the loop over the advertised sitemaps, sharing what was seen |
| Sitemap.WalkThrifty | internal/worker/worker.go:664-705 | at most the room left, no entry twice, no file fetched twice, nothing that was seen before |
| Sitemap.WalkFindsLeaves | internal/worker/worker.go:652-705 | every entry is a leaf within the levels left |
| Sitemap.WalkCovers | internal/worker/worker.go:683-705 | short of the limit, all that a fetched file lists has been looked at |
| Sitemap.EntriesAreLeading | internal/worker/worker.go:664-680 | what a URL set yields, exactly |
| Sitemap.WalkAllAccounts | internal/worker/worker.go:652-705 | every location marked is an entry, a file fetched through an index above the last level, or one cut off at the last level, and nothing else is |
| Sitemap.AllLeavesFound | internal/worker/worker.go:633-705 | where pages are no sitemap files, a walk that neither fills its room nor cuts anything off returns every entry the advertised files lead to, at any depth |
| Sitemap.WalkAllSound | internal/worker/worker.go:633-644 | all three for all advertised sitemaps together, on any graph, cycles included |
| Export.ListingExact | internal/store/store.go:325-350 | a listing holds the table's rows once each, sorted by id in either direction |
| Export.DescendsWhen | internal/store/store.go:444-449 | "desc" in any case sorts descending, and nothing else does |
| Export.PageExact | internal/store/store.go:353-382 | a page has the next rows, and is full unless fewer are left |
| Export.RemainingExact | internal/store/store.go:353-382 | what follows a cursor is exactly the rows beyond it |
| Export.AfterContinues | internal/store/store.go:413-442 | continuing from the last row shown skips exactly what was shown |
| Export.ChainIsListing | internal/server/routes.go:152-182 | chaining single pages by the returned cursor gives the whole listing, for any limit of at least 1 |
| Export.ExportedIsComplete | internal/server/routes.go:228-251 | whatever the queries of an export find, what is written is in order, nothing twice, each row found by some query, and every row that all of them could find is there; when rows are only added, an ascending export is the listing of some query, the first one's rows included, and a descending one the first query's listing |
| Export.ExportRows | internal/server/routes.go:228-251 | the export loop ends for any sequence of views of the table and writes that, or one page |
| Export.InsertsGrowListings | internal/store/store.go:511-566 | inserts make an ascending listing longer at its end only |
| Listings.ListingsGrow | internal/store/store.go:325-350 | between any two points of any run the ascending listings of a job that stays, documents and mapped rows, only grow at their end |
| Listings.ListedExactly | internal/store/store.go:325-350 | a job's listing has its documents, or its mapped rows, and no others, in id order |
| Listings.ViewsGrow | internal/server/routes.go:228-285 | so at the queries of an export of such a job ascending listings grow at the end and descending ones in front, whatever happens between them |
| Formats.NormalizeFormats | internal/types/requests.go:75-90 | the loop is the first-occurrence dedupe of trimmed lower-case values |
| Formats.NormalizedIsNormal | internal/types/requests.go:75-90 | its result is distinct, not blank, trimmed and lower case, and such lists are left alone |
| Formats.StoredFormats | internal/types/requests.go:63-73 | a format list survives the JSON round trip, and reading the raw value agrees with Values |
| Formats.RawFormats | internal/types/requests.go:92-113 | a request's raw value reads as the list it decodes to |
| Formats.FormatsAgree | internal/server/routes.go:341-353 | validator, worker and document route see the same formats for any requested output_format |
| Formats.RequestedFormats | internal/types/requests.go:63-90 | a request's formats are the trimmed lower-case forms of its values, blank ones dropped, each once in order, or markdown |
| Text.TrimSpaceExact | internal/types/requests.go:75-90 | what trimming takes away and what it leaves |
| Text.LowerExact | internal/types/requests.go:75-90 | what lower case does to each character |
| Outputs.RenderOutputs | internal/worker/worker.go:347-373 | the content of each format once, the first non-empty one as primary, or failure exactly when some format fails |
| Outputs.EnsurePreferred | internal/server/routes.go:459-480 | the lower-case dedupe, or markdown |
| Outputs.NamedFormats | internal/server/routes.go:459-480 | which formats are rendered and which preferred |
| Outputs.Add | internal/server/routes.go:433-444 | adds the output unless it is listed or missing, and keeps what the list and the seen set say of each other |
| Outputs.OrderedOutputs | internal/server/routes.go:429-452 | preferred formats first in order, then the rest, each once, whatever the map's iteration order |
| Outputs.TailAddsNothing | internal/server/routes.go:448-450 | the loop over the map adds nothing when every output is preferred |
| Outputs.FromObject | internal/server/routes.go:399-403 | the string values of a stored object under lower-case keys |
| Outputs.FromArray | internal/server/routes.go:408-419 | the older list layout, later entries winning |
| Outputs.FromItemsExact | internal/server/routes.go:408-419 | a format is there exactly when it has a complete entry, with the content of its last one |
| Outputs.ExtractOutputs | internal/server/routes.go:390-427 | the stored outputs in order, or the fallback when there are none; never an empty list |
| Outputs.OutputsAsRequested | internal/server/routes.go:330-339 | a stored document lists exactly the requested formats, in order, once each, with the contents rendered for them |
| HostLimiter.Limiter.GetConc | internal/worker/limiter.go:62-71 | makes the host's channel if there is none, and returns it |
| HostLimiter.Limiter.Release | internal/worker/limiter.go:84-93 | takes one token out of the host's channel, and says whether it found one |
| HostLimiter.HostNamesDiffer | internal/worker/limiter.go:30-60 | different hosts keep different names, but for the blank one and the one called default |
| HostLimiter.ReleaseFindsToken | internal/worker/limiter.go:84-93 | a caller about to release finds a token: the default branch is unreachable |
| HostLimiter.StepKeepsInv | internal/worker/limiter.go:30-60 | every step of every caller keeps tokens equal to holders, within the limit, and every channel with its host |
| HostLimiter.SemaphoresHold | internal/worker/limiter.go:30-93 | in every interleaving each channel has as many tokens as callers between send and release, at most the limit, and a host keeps its first channel |
| PagePool.Pool.constructor | internal/fetch/renderer.go:60-74 | the pool starts full |
| PagePool.Pool.Take | internal/fetch/renderer.go:104-114 | the first pooled page, or a new one when the pool is empty |
| PagePool.Pool.Recycle | internal/fetch/renderer.go:234-248 | back to the end of the pool exactly when it is not older than a lifetime that is set and the pool has room, else closed |
| PagePool.StepKeepsInv | internal/fetch/renderer.go:104-121 | every step of every render keeps each page in one place |
| PagePool.PagesHold | internal/fetch/renderer.go:93-144 | in every interleaving each page is in exactly one of pooled, in use by one render, or closed; the pool is within capacity; pages in use for a host are within its limit |
| PagePool.RendersWhen | internal/fetch/renderer.go:192-218 | some interleaving lets a render in if and only if the configured per-host limit is positive |

## Left out

- HTTP fetching, HTML extraction, Markdown conversion, XML and robots.txt decoding, Chromium: oracles, given as parameters.
- URL parsing, printing and reference resolution: URLs are records that always parse; blank or unparsable links are absent values, hosts are a name with an optional port (no IPv6 literals), and letter case is ASCII. The code's fallback to the raw string when a final URL does not parse is therefore not modelled.
- `path.Clean` and `path.Ext` of the Go library are modelled by their documented rules.
- Error texts, titles, contents, metadata and the columns processing_started_at and updated_at of the tables.
- Job ids are drawn from a counter that never repeats, in place of random UUIDs; the counts of rows a job was created with and of documents and commits per task are kept in the protocol's state as history.
- `scrape` jobs are answered in the request and never reach the queue; unknown job types fail like any other error in `handleTask`.
- The protocol lets StartJob fail or be skipped, and a page task stop early, more freely than the code; every run of the code is among its runs.
- Heartbeats that fail: `interval` is the time within which one gets through, however many are tried.
- Claims the code does not keep and that are not made: `cancelled` can be overwritten by FinishJob; a redirect that renames a row lets its old URL be enqueued again; blocked extensions are checked before the path is cleaned; the dedupe cache does not stop concurrent duplicates; the sitemap walk can miss leaves behind its level limit; a job whose seeds were all skipped never finishes.
- Export sorted by created_at, final_url or target_url: id cursors can skip rows there.
- Listings.ViewsGrow: a statement of the protocol draws its ids and commits them at once, so rows that commit out of id order are not in its runs; Export.ExportedIsComplete covers them, as it does rows deleted between queries.
- The token-bucket rate limiter is only the wait between send and release, which may end or be cancelled; the mutexes are the atomicity of the steps.
- Browser restart, the health loop and Close; opening a page that fails is a render that never takes one.
- The `links` list that the map route adds to a page, a first-occurrence dedupe of the page's targets.
- Robots crawl-delay spacing, whose read, sleep and write are not atomic, so it is not kept across workers.
- Configuration defaults, byte sizes, logging, metrics and request validation, but for the formats; `backoff` only delays, which the clock's freedom covers.
