// The worker pool of internal/worker/worker.go as a state machine over the tables. One step is one
// SQL statement (or transaction), one clock tick, or one crash; any worker may take the next step.
// Fetching, extraction and link discovery are oracles: their results are step parameters.
module Protocol {
  import opened Wrappers
  import opened Urls
  import opened Tables
  import opened Frontier

  // `interval` is the time within which a live worker's next heartbeat lands.
  datatype Config = Config(
    maxRetries: int, maxTasks: int, maxDuration: int, lease: int, interval: int, crawl: CrawlConfig)

  // Where a worker's loop stands, named after what it has just done.
  datatype Pc =
    | Idle
    | Claimed      // DequeueTask returned a row
    | JobRead      // GetJob returned the job
    | Fetching     // past StartJob, before the document or the map plan
    | Stored       // InsertDocument done
    | Planned      // task list built, not all inserted
    | Succeeded    // handleTask returned nil
    | Erred        // handleTask returned an error
    | Finalised    // CompleteTask, RetryTask or FailTask ran (backoff sleep included)
    | Counted      // PendingTaskCounts found nothing
    | Flagged      // HasFailedTasks answered

  // id and task are the row as claimed, job the row GetJob read at readAt, links and rest what
  // Planned still has to insert, failed what Flagged read, beat when the lease was last extended
  // by this worker. stored records that this attempt has inserted its document.
  datatype Worker = Worker(
    pc: Pc, id: TaskId, task: Task, job: Job, readAt: int, links: seq<Url>, rest: seq<NewTask>,
    failed: bool, beat: int, stored: bool)

  // documents and commits count, per task row, the documents inserted and the map transactions
  // committed for it; seeded is the number of rows a job was created with.
  datatype State = State(
    tables: Tables, workers: seq<Worker>, clock: int,
    documents: map<TaskId, nat>, commits: map<TaskId, nat>, seeded: map<JobId, nat>)

  function Tally(m: map<TaskId, nat>, id: TaskId): nat {
    if id in m then m[id] else 0
  }

  // From the claim to the end of handleTask: the phases that rely on the lease.
  predicate Holding(w: Worker) {
    w.pc != Idle && w.pc != Finalised && w.pc != Counted && w.pc != Flagged
  }

  predicate Finishing(w: Worker) {
    w.pc == Finalised || w.pc == Counted || w.pc == Flagged
  }

  // From the claim to the end of FinishJob; heartbeats are sent throughout.
  predicate Busy(w: Worker) {
    w.pc != Idle
  }

  // shouldRetry
  predicate ShouldRetry(attempts: int, maxRetries: int) {
    attempts < maxRetries
  }

  // DrawIds: a statement that failed, or a transaction that was rolled back, has used up ids.
  datatype Step =
    | Tick(time: int)
    | CreateJob(job: Job, seeds: seq<Url>)
    | SweepCancel
    | SweepDelete
    | DrawIds(tasks: nat, documents: nat, mapped: nat)
    | Beat(w: nat)
    | LateBeat(id: TaskId)
    | Crash(w: nat)
    | Claim(w: nat, id: TaskId, asOf: int, locked: set<TaskId>)
    | ReadJob(w: nat)
    | CancelJob(w: nat, ok: bool)
    | StartJob(w: nat, ok: bool)
    | Redirect(w: nat, url: Url)
    | StoreDocument(w: nat, url: Url)
    | MarkSeen(w: nat, url: Url)
    | Stop(w: nat)
    | Plan(w: nat, page: seq<Option<Url>>, sitemap: seq<Option<Url>>, seen: set<Url>)
    | InsertRow(w: nat)
    | CommitMap(w: nat)
    | Fail(w: nat)
    | Complete(w: nat, ok: bool)
    | Settle(w: nat, ok: bool)
    | CountPending(w: nat)
    | ReadFailed(w: nat)
    | WriteStatus(w: nat)
    | AbandonFinish(w: nat)

  // The phase a task is in when its page is done with: stored, or for a map job just fetched.
  function Fetched(kind: JobKind): Pc {
    if kind == Map then Fetching else Stored
  }

  // The steps that a crash or a failed statement after handleTask takes.
  predicate Fault(step: Step) {
    || step.Crash? || step.AbandonFinish?
    || (step.Complete? && !step.ok) || (step.Settle? && !step.ok)
  }

  // Steps of one worker's loop; the others belong to the environment.
  predicate ByWorker(step: Step) {
    && !step.Tick? && !step.CreateJob? && !step.SweepCancel? && !step.SweepDelete? && !step.DrawIds?
    && !step.LateBeat?
  }

  // createJobWithSeeds commits a validated request: a crawl or map job has its url as only seed, a
  // batch job carries no max_depth and no same_domain.
  predicate ValidRequest(s: State, job: Job, seeds: seq<Url>) {
    && job.status == JobQueued && job.createdAt == s.clock
    && (if job.kind == BatchScrape then job.maxDepth == 0 && !job.sameDomain
        else job.maxDepth >= 0 && seeds == [job.start])
  }

  function SeedTasks(seeds: seq<Url>, cfg: Config): (tasks: seq<NewTask>)
    ensures |tasks| == |seeds|
  {
    seq(|seeds|, i requires 0 <= i < |seeds| =>
      NewTask(seeds[i], Canonicalize(seeds[i], cfg.crawl.stripQuery), 0))
  }

  // A tick is possible only while every worker inside handleTask has its heartbeats on time.
  predicate OnTime(cfg: Config, s: State, time: int) {
    forall i :: 0 <= i < |s.workers| && Holding(s.workers[i]) ==> time <= s.workers[i].beat + cfg.interval
  }

  predicate MaxDurationExceeded(cfg: Config, job: Job, time: int) {
    cfg.maxDuration > 0 && time - job.createdAt > cfg.maxDuration
  }

  // May worker w take the step?
  predicate Guard(cfg: Config, s: State, w: Worker, step: Step) {
    match step
    case Beat(_) => Busy(w)
    case Claim(_, id, asOf, locked) =>
      w.pc == Idle && asOf <= s.clock && Picks(s.tables, id, asOf - cfg.lease, locked)
    case ReadJob(_) => w.pc == Claimed && w.task.job in s.tables.jobs
    case CancelJob(_, _) => w.pc == JobRead && MaxDurationExceeded(cfg, w.job, s.clock)
    case StartJob(_, _) => w.pc == JobRead && !MaxDurationExceeded(cfg, w.job, w.readAt)
    case Redirect(_, url) =>
      w.pc == Fetching && w.job.kind != Map && Canonicalize(url, cfg.crawl.stripQuery) == url
    case StoreDocument(_, _) => w.pc == Fetching && w.job.kind != Map && w.task.job in s.tables.jobs
    case MarkSeen(_, _) => w.pc == Stored && cfg.crawl.dedupeCache
    case Stop(_) => w.pc == Fetched(w.job.kind)
    case Plan(_, _, _, _) =>
      w.job.kind != BatchScrape && w.pc == Fetched(w.job.kind) && w.task.depth < w.job.maxDepth
    case InsertRow(_) =>
      w.pc == Planned && w.job.kind == Crawl && w.task.job in s.tables.jobs && w.rest != []
    case CommitMap(_) => w.pc == Planned && w.job.kind == Map && w.task.job in s.tables.jobs
    case Fail(_) => Holding(w) && w.pc != Succeeded && w.pc != Erred
    case Complete(_, _) => w.pc == Succeeded
    case Settle(_, _) => w.pc == Erred
    case CountPending(_) => w.pc == Finalised
    case ReadFailed(_) => w.pc == Counted
    case WriteStatus(_) => w.pc == Flagged
    case AbandonFinish(_) => Finishing(w)
    case _ => true
  }

  predicate Enabled(cfg: Config, s: State, step: Step) {
    if ByWorker(step) then step.w < |s.workers| && Guard(cfg, s, s.workers[step.w], step)
    else
      match step
      case Tick(time) => s.clock <= time && OnTime(cfg, s, time)
      case CreateJob(job, seeds) => ValidRequest(s, job, seeds)
      case _ => true
  }

  // What processCrawlTask and processMapTask plan from a page and from the sitemap walk.
  function PlanLinks(cfg: Config, w: Worker, page: seq<Option<Url>>, sitemap: seq<Option<Url>>): seq<Url> {
    CollectedLinks(w.task.requested, page, if w.task.depth == 0 then sitemap else [], w.job.sameDomain, cfg.crawl)
  }

  function PlanTasks(cfg: Config, t: Tables, w: Worker, links: seq<Url>, seen: set<Url>): seq<NewTask> {
    PlannedTasks(cfg.crawl, cfg.maxTasks, links, seen, w.task.depth + 1, TaskCount(t, w.task.job))
  }

  // A crawl with nothing to insert, and a map without links, return at once.
  function PlanWorker(cfg: Config, t: Tables, w: Worker, links: seq<Url>, seen: set<Url>): Worker {
    var rest := PlanTasks(cfg, t, w, links, seen);
    if (if w.job.kind == Map then links else AsLinks(rest)) == [] then w.(pc := Succeeded, links := [], rest := [])
    else w.(pc := Planned, links := links, rest := rest)
  }

  function AsLinks(tasks: seq<NewTask>): (links: seq<Url>)
    ensures |links| == |tasks|
  {
    seq(|tasks|, i requires 0 <= i < |tasks| => tasks[i].final)
  }

  // The rows enqueueMapLinks writes for one page.
  function MappedRows(w: Worker): (rows: seq<MappedUrl>)
    ensures |rows| == |w.links|
  {
    MappedFor(w.task.job, w.task.requested, w.links, w.task.depth + 1)
  }

  // Worker w after its step. The functions below are total; they mean something on enabled steps.
  function NextWorker(cfg: Config, s: State, w: Worker, step: Step): Worker {
    match step
    case Beat(_) => w.(beat := s.clock)
    case Crash(_) => w.(pc := Idle)
    case Claim(_, id, _, _) =>
      w.(pc := Claimed, id := id, task := Row(ClaimTask(s.tables, id, s.clock), id, w.task), beat := s.clock,
         links := [], rest := [], stored := false)
    case ReadJob(_) =>
      w.(pc := JobRead, job := if w.task.job in s.tables.jobs then s.tables.jobs[w.task.job] else w.job,
         readAt := s.clock)
    case CancelJob(_, _) => w.(pc := Erred)
    case StartJob(_, _) => w.(pc := Fetching)
    case StoreDocument(_, _) => w.(pc := Stored, stored := true)
    case Stop(_) => w.(pc := Succeeded)
    case Plan(_, page, sitemap, seen) => PlanWorker(cfg, s.tables, w, PlanLinks(cfg, w, page, sitemap), seen)
    case InsertRow(_) => w.(pc := if |w.rest| == 1 then Succeeded else Planned, rest := Tail(w.rest))
    case CommitMap(_) => w.(pc := Succeeded)
    case Fail(_) => w.(pc := Erred)
    case Complete(_, _) => w.(pc := Finalised)
    case Settle(_, _) => w.(pc := Finalised)
    case CountPending(_) => w.(pc := if Quiescent(s.tables, w.task.job) then Counted else Idle)
    case ReadFailed(_) => w.(pc := Flagged, failed := HasFailed(s.tables, w.task.job))
    case WriteStatus(_) => w.(pc := Idle)
    case AbandonFinish(_) => w.(pc := Idle)
    case _ => w
  }

  function Row(t: Tables, id: TaskId, default: Task): Task {
    if id in t.tasks then t.tasks[id] else default
  }

  function Head(tasks: seq<NewTask>): seq<NewTask> {
    if tasks == [] then [] else tasks[..1]
  }

  function Tail(tasks: seq<NewTask>): seq<NewTask> {
    if tasks == [] then [] else tasks[1..]
  }

  // The tables after a worker's statement.
  function WorkerTables(cfg: Config, t: Tables, w: Worker, clock: int, step: Step): Tables {
    match step
    case Beat(_) => Heartbeat(t, w.id, clock)
    case Claim(_, id, _, _) => ClaimTask(t, id, clock)
    case CancelJob(_, ok) => if ok then SetJobStatus(t, w.task.job, JobCancelled) else t
    case StartJob(_, ok) => if ok && w.job.status == JobQueued then SetJobStatus(t, w.task.job, JobRunning) else t
    case Redirect(_, url) => UpdateTaskFinalUrl(t, w.id, url)
    case StoreDocument(_, url) => InsertDocument(t, Document(w.task.job, w.task.requested, url))
    case MarkSeen(_, url) => t.(seen := t.seen + {Canonicalize(url, cfg.crawl.stripQuery)})
    case InsertRow(_) => InsertTasks(t, w.task.job, Head(w.rest))
    case CommitMap(_) => InsertTasks(InsertMappedBatch(t, MappedRows(w)), w.task.job, w.rest)
    case Complete(_, ok) => if ok then CompleteTask(t, w.id) else t
    case Settle(_, ok) =>
      if !ok then t
      else if ShouldRetry(w.task.attempts, cfg.maxRetries) then RetryTask(t, w.id)
      else FailTask(t, w.id)
    case WriteStatus(_) => SetJobStatus(t, w.task.job, FinalStatus(w.failed))
    case _ => t
  }

  // The worker a step belongs to.
  function Actor(s: State, step: Step): Option<Worker> {
    if ByWorker(step) && step.w < |s.workers| then Some(s.workers[step.w]) else None
  }

  function NextTables(cfg: Config, s: State, step: Step): Tables {
    match Actor(s, step)
    case Some(w) => WorkerTables(cfg, s.tables, w, s.clock, step)
    case None =>
      match step
      case CreateJob(job, seeds) =>
        InsertTasks(InsertJob(s.tables, job), s.tables.nextJob, SeedTasks(seeds, cfg))
      case SweepCancel => CancelExpired(s.tables, s.clock)
      case SweepDelete => DeleteExpired(s.tables, s.clock)
      case DrawIds(tasks, documents, mapped) =>
        SkipIds(s.tables, tasks, documents, mapped)
      case LateBeat(id) => Heartbeat(s.tables, id, s.clock)
      case _ => s.tables
  }

  function NextWorkers(cfg: Config, s: State, step: Step): seq<Worker> {
    if ByWorker(step) && step.w < |s.workers|
    then s.workers[step.w := NextWorker(cfg, s, s.workers[step.w], step)] else s.workers
  }

  function Apply(cfg: Config, s: State, step: Step): State {
    var t := NextTables(cfg, s, step);
    var actor := Actor(s, step);
    State(
      t, NextWorkers(cfg, s, step),
      if step.Tick? then step.time else s.clock,
      if step.StoreDocument? && actor.Some? then Bumped(s.documents, actor.value.id) else s.documents,
      if step.CommitMap? && actor.Some? then Bumped(s.commits, actor.value.id) else s.commits,
      if step.CreateJob? then s.seeded[s.tables.nextJob := TaskCount(t, s.tables.nextJob)] else s.seeded)
  }

  function Bumped(m: map<TaskId, nat>, id: TaskId): map<TaskId, nat> {
    m[id := Tally(m, id) + 1]
  }

  // ----- Runs -----

  ghost predicate Initial(s: State) {
    && s.tables == EMPTY && s.documents == map[] && s.commits == map[] && s.seeded == map[]
    && forall i :: 0 <= i < |s.workers| ==> s.workers[i].pc == Idle
  }

  // states[k+1] is what steps[k] makes of states[k].
  ghost predicate Run(cfg: Config, states: seq<State>, steps: seq<Step>) {
    && |states| == |steps| + 1 && Initial(states[0])
    && forall k :: 0 <= k < |steps| ==>
         Enabled(cfg, states[k], steps[k]) && states[k + 1] == Apply(cfg, states[k], steps[k])
  }

  ghost predicate Faultless(steps: seq<Step>) {
    forall k :: 0 <= k < |steps| ==> !Fault(steps[k])
  }

  // Cutting a run short gives a run.
  lemma Prefix(cfg: Config, states: seq<State>, steps: seq<Step>)
    requires Run(cfg, states, steps) && steps != []
    ensures Run(cfg, states[..|steps|], steps[..|steps| - 1])
  {
  }

  lemma {:induction false} RunUpTo(cfg: Config, states: seq<State>, steps: seq<Step>, k: nat)
    requires Run(cfg, states, steps) && k <= |steps|
    ensures Run(cfg, states[..k + 1], steps[..k])
    decreases |steps|
  {
    if k == |steps| {
      assert states[..k + 1] == states && steps[..k] == steps;
    } else {
      var n := |steps| - 1;
      Prefix(cfg, states, steps);
      RunUpTo(cfg, states[..|steps|], steps[..n], k);
      assert states[..|steps|][..k + 1] == states[..k + 1] && steps[..n][..k] == steps[..k];
    }
  }
}
