// One pass through runWorker's loop as the code writes it, statement by statement over the store, and
// the proof that it is a path of the protocol: each statement is an enabled step with the same effect.
module WorkerLoop {
  import opened Wrappers
  import opened Urls
  import opened Tables
  import opened Frontier
  import opened Uniques
  import opened Protocol
  import opened Database
  import opened Transactions

  datatype Page = Page(final: Url, links: seq<Option<Url>>)

  // What one pass meets outside the tables, and which of its statements succeed: page is None when robots,
  // the wait, the fetch or the extraction fail; tooLate is the max_duration test after the store; lookups
  // are the URLs whose dedupe lookup fails; outage says what of the inserts fails.
  datatype Visit = Visit(
    page: Option<Page>, cancels: bool, starts: bool, renames: bool, stores: bool, marks: bool, tooLate: bool,
    includeSitemaps: bool, sitemap: seq<Option<Url>>, lookups: set<Url>, counts: bool, outage: Outage,
    finalises: bool, finishes: bool)

  // ----- Paths of the protocol -----

  datatype Path = Path(states: seq<State>, steps: seq<Step>)

  ghost predicate GoodStep(cfg: Config, p: Path, k: nat)
    requires k < |p.steps| && k + 1 < |p.states|
  {
    Enabled(cfg, p.states[k], p.steps[k]) && p.states[k + 1] == Apply(cfg, p.states[k], p.steps[k])
  }

  ghost predicate IsPath(cfg: Config, p: Path) {
    |p.states| == |p.steps| + 1 && forall k: nat | k < |p.steps| :: GoodStep(cfg, p, k)
  }

  function Last(p: Path): State
    requires p.states != []
  {
    p.states[|p.states| - 1]
  }

  // A step of worker i, or the loss of the ids its failed statements drew.
  predicate Own(step: Step, i: nat) {
    (ByWorker(step) && step.w == i) || step.DrawIds?
  }

  // q goes on from p by worker i's own steps, with a fault among them only if `faults` allows it.
  ghost predicate Continues(p: Path, q: Path, i: nat, faults: bool) {
    && p.states <= q.states && p.steps <= q.steps
    && forall k :: |p.steps| <= k < |q.steps| ==> Own(q.steps[k], i) && (Fault(q.steps[k]) ==> faults)
  }

  lemma Extend(cfg: Config, p: Path, i: nat, step: Step) returns (longer: Path)
    requires IsPath(cfg, p) && Enabled(cfg, Last(p), step) && Own(step, i)
    ensures IsPath(cfg, longer) && Last(longer) == Apply(cfg, Last(p), step)
    ensures Continues(p, longer, i, Fault(step)) && longer.steps == p.steps + [step]
  {
    var next := Apply(cfg, Last(p), step);
    longer := Path(p.states + [next], p.steps + [step]);
    forall k: nat | k < |longer.steps|
      ensures GoodStep(cfg, longer, k)
    {
      if k < |p.steps| {
        assert GoodStep(cfg, p, k);
        assert longer.states[k] == p.states[k] && longer.states[k + 1] == p.states[k + 1];
        assert longer.steps[k] == p.steps[k];
      } else {
        assert longer.states[k] == Last(p) && longer.states[k + 1] == next && longer.steps[k] == step;
      }
    }
  }

  // A step of worker i moves nobody else.
  lemma Take(cfg: Config, p: Path, i: nat, step: Step) returns (longer: Path)
    requires IsPath(cfg, p) && Enabled(cfg, Last(p), step) && ByWorker(step) && step.w == i
    ensures IsPath(cfg, longer) && Continues(p, longer, i, Fault(step)) && longer.steps == p.steps + [step]
    ensures Last(longer).tables == NextTables(cfg, Last(p), step)
    ensures Last(longer).workers == Last(p).workers[i := NextWorker(cfg, Last(p), Last(p).workers[i], step)]
    ensures Last(longer).clock == Last(p).clock
  {
    longer := Extend(cfg, p, i, step);
  }

  // ----- Statement by statement -----

  ghost predicate On(cfg: Config, p: Path, i: nat, pc: Pc) {
    IsPath(cfg, p) && i < |Last(p).workers| && Last(p).workers[i].pc == pc
  }

  function Me(p: Path, i: nat): Worker
    requires p.states != [] && i < |Last(p).workers|
  {
    Last(p).workers[i]
  }

  // From p to q only worker i has moved, and no time has passed.
  ghost predicate Alone(p: Path, q: Path, i: nat, faults: bool)
    requires p.states != [] && q.states != []
  {
    Continues(p, q, i, faults) && Last(q).clock == Last(p).clock && SameOthers(Last(p).workers, Last(q).workers, i)
  }

  // ... and within its claim, and without a fault.
  ghost predicate Moved(p: Path, q: Path, i: nat)
    requires p.states != [] && q.states != [] && i < |Last(p).workers|
  {
    Alone(p, q, i, false) && Me(q, i).id == Me(p, i).id && Me(q, i).task == Me(p, i).task
  }

  predicate SameOthers(a: seq<Worker>, b: seq<Worker>, i: nat) {
    |a| == |b| && forall k :: 0 <= k < |a| && k != i ==> b[k] == a[k]
  }

  lemma TakeClaim(cfg: Config, p: Path, i: nat, id: TaskId, locked: set<TaskId>) returns (q: Path)
    requires On(cfg, p, i, Idle) && Picks(Last(p).tables, id, Last(p).clock - cfg.lease, locked)
    ensures On(cfg, q, i, Claimed) && Alone(p, q, i, false)
    ensures Last(q).tables == ClaimTask(Last(p).tables, id, Last(p).clock)
    ensures Me(q, i).id == id && Me(q, i).task == Last(q).tables.tasks[id]
  {
    q := Take(cfg, p, i, Step.Claim(i, id, Last(p).clock, locked));
  }

  lemma TakeReadJob(cfg: Config, p: Path, i: nat) returns (q: Path)
    requires On(cfg, p, i, Claimed) && Me(p, i).task.job in Last(p).tables.jobs
    ensures On(cfg, q, i, JobRead) && Moved(p, q, i) && Last(q).tables == Last(p).tables
    ensures Me(q, i).job == Last(p).tables.jobs[Me(p, i).task.job] && Me(q, i).readAt == Last(p).clock
  {
    q := Take(cfg, p, i, ReadJob(i));
  }

  lemma TakeCancel(cfg: Config, p: Path, i: nat, ok: bool) returns (q: Path)
    requires On(cfg, p, i, JobRead) && MaxDurationExceeded(cfg, Me(p, i).job, Last(p).clock)
    ensures On(cfg, q, i, Erred) && Moved(p, q, i)
    ensures Last(q).tables ==
            if ok then SetJobStatus(Last(p).tables, Me(p, i).task.job, JobCancelled) else Last(p).tables
  {
    q := Take(cfg, p, i, CancelJob(i, ok));
  }

  lemma TakeStart(cfg: Config, p: Path, i: nat, ok: bool) returns (q: Path)
    requires On(cfg, p, i, JobRead) && !MaxDurationExceeded(cfg, Me(p, i).job, Me(p, i).readAt)
    ensures On(cfg, q, i, Fetching) && Moved(p, q, i) && Me(q, i).job == Me(p, i).job
    ensures Last(q).tables ==
            if ok && Me(p, i).job.status == JobQueued
            then SetJobStatus(Last(p).tables, Me(p, i).task.job, JobRunning) else Last(p).tables
  {
    q := Take(cfg, p, i, StartJob(i, ok));
  }

  lemma TakeRedirect(cfg: Config, p: Path, i: nat, url: Url) returns (q: Path)
    requires On(cfg, p, i, Fetching) && Me(p, i).job.kind != Map && Canonicalize(url, cfg.crawl.stripQuery) == url
    ensures On(cfg, q, i, Fetching) && Moved(p, q, i) && Me(q, i).job == Me(p, i).job
    ensures Last(q).tables == UpdateTaskFinalUrl(Last(p).tables, Me(p, i).id, url)
  {
    q := Take(cfg, p, i, Redirect(i, url));
  }

  lemma TakeStore(cfg: Config, p: Path, i: nat, url: Url) returns (q: Path)
    requires On(cfg, p, i, Fetching) && Me(p, i).job.kind != Map && Me(p, i).task.job in Last(p).tables.jobs
    ensures On(cfg, q, i, Stored) && Moved(p, q, i) && Me(q, i).job == Me(p, i).job
    ensures Last(q).tables ==
            InsertDocument(Last(p).tables, Document(Me(p, i).task.job, Me(p, i).task.requested, url))
  {
    q := Take(cfg, p, i, StoreDocument(i, url));
  }

  lemma TakeMark(cfg: Config, p: Path, i: nat, url: Url) returns (q: Path)
    requires On(cfg, p, i, Stored) && cfg.crawl.dedupeCache
    ensures On(cfg, q, i, Stored) && Moved(p, q, i) && Me(q, i).job == Me(p, i).job
    ensures Last(q).tables == Last(p).tables.(seen := Last(p).tables.seen + {Canonicalize(url, cfg.crawl.stripQuery)})
  {
    q := Take(cfg, p, i, MarkSeen(i, url));
  }

  lemma TakeStop(cfg: Config, p: Path, i: nat) returns (q: Path)
    requires IsPath(cfg, p) && i < |Last(p).workers| && Me(p, i).pc == Fetched(Me(p, i).job.kind)
    ensures On(cfg, q, i, Succeeded) && Moved(p, q, i) && Last(q).tables == Last(p).tables
  {
    q := Take(cfg, p, i, Stop(i));
  }

  lemma TakeFail(cfg: Config, p: Path, i: nat) returns (q: Path)
    requires IsPath(cfg, p) && i < |Last(p).workers|
    requires Holding(Me(p, i)) && Me(p, i).pc != Succeeded && Me(p, i).pc != Erred
    ensures On(cfg, q, i, Erred) && Moved(p, q, i) && Last(q).tables == Last(p).tables
  {
    q := Take(cfg, p, i, Fail(i));
  }

  lemma TakePlan(
      cfg: Config, p: Path, i: nat, page: seq<Option<Url>>, sitemap: seq<Option<Url>>, seen: set<Url>)
    returns (q: Path)
    requires IsPath(cfg, p) && i < |Last(p).workers| && Me(p, i).pc == Fetched(Me(p, i).job.kind)
    requires Me(p, i).job.kind != BatchScrape && Me(p, i).task.depth < Me(p, i).job.maxDepth
    ensures IsPath(cfg, q) && i < |Last(q).workers| && Moved(p, q, i) && Last(q).tables == Last(p).tables
    ensures var links := PlanLinks(cfg, Me(p, i), page, sitemap);
            Me(q, i) == PlanWorker(cfg, Last(p).tables, Me(p, i), links, seen)
  {
    q := Take(cfg, p, i, Plan(i, page, sitemap, seen));
  }

  lemma TakeRow(cfg: Config, p: Path, i: nat) returns (q: Path)
    requires On(cfg, p, i, Planned) && Me(p, i).job.kind == Crawl && Me(p, i).task.job in Last(p).tables.jobs
    requires Me(p, i).rest != []
    ensures IsPath(cfg, q) && i < |Last(q).workers| && Moved(p, q, i) && Me(q, i).job == Me(p, i).job
    ensures Me(q, i).pc == (if |Me(p, i).rest| == 1 then Succeeded else Planned) && Me(q, i).rest == Me(p, i).rest[1..]
    ensures Last(q).tables == InsertTasks(Last(p).tables, Me(p, i).task.job, Me(p, i).rest[..1])
    ensures q.steps == p.steps + [InsertRow(i)]
  {
    q := Take(cfg, p, i, InsertRow(i));
  }

  lemma TakeCommit(cfg: Config, p: Path, i: nat) returns (q: Path)
    requires On(cfg, p, i, Planned) && Me(p, i).job.kind == Map && Me(p, i).task.job in Last(p).tables.jobs
    ensures On(cfg, q, i, Succeeded) && Moved(p, q, i)
    ensures Last(q).tables ==
            InsertTasks(InsertMappedBatch(Last(p).tables, MappedRows(Me(p, i))), Me(p, i).task.job, Me(p, i).rest)
  {
    q := Take(cfg, p, i, CommitMap(i));
  }

  lemma TakeSkip(cfg: Config, p: Path, i: nat, tasks: nat, mapped: nat) returns (q: Path)
    requires IsPath(cfg, p) && i < |Last(p).workers|
    ensures On(cfg, q, i, Me(p, i).pc) && Moved(p, q, i)
    ensures Last(q).tables == SkipIds(Last(p).tables, tasks, 0, mapped)
  {
    q := Extend(cfg, p, i, DrawIds(tasks, 0, mapped));
  }

  lemma TakeFinal(cfg: Config, p: Path, i: nat, ok: bool) returns (q: Path)
    requires On(cfg, p, i, Succeeded) || On(cfg, p, i, Erred)
    ensures On(cfg, q, i, Finalised) && Alone(p, q, i, !ok)
    ensures Me(q, i).id == Me(p, i).id && Me(q, i).task == Me(p, i).task
    ensures
      var w, t := Me(p, i), Last(p).tables;
      Last(q).tables ==
      if !ok then t
      else if w.pc == Succeeded then CompleteTask(t, w.id)
      else if ShouldRetry(w.task.attempts, cfg.maxRetries) then RetryTask(t, w.id) else FailTask(t, w.id)
  {
    q := Take(cfg, p, i, if Me(p, i).pc == Succeeded then Complete(i, ok) else Settle(i, ok));
  }

  lemma TakeAbandon(cfg: Config, p: Path, i: nat) returns (q: Path)
    requires On(cfg, p, i, Finalised)
    ensures On(cfg, q, i, Idle) && Alone(p, q, i, true) && Last(q).tables == Last(p).tables
  {
    q := Take(cfg, p, i, AbandonFinish(i));
  }

  lemma TakeCount(cfg: Config, p: Path, i: nat) returns (q: Path)
    requires On(cfg, p, i, Finalised)
    ensures On(cfg, q, i, if Quiescent(Last(p).tables, Me(p, i).task.job) then Counted else Idle)
    ensures Moved(p, q, i) && Last(q).tables == Last(p).tables && q.steps == p.steps + [CountPending(i)]
  {
    q := Take(cfg, p, i, CountPending(i));
  }

  lemma TakeFlag(cfg: Config, p: Path, i: nat) returns (q: Path)
    requires On(cfg, p, i, Counted)
    ensures On(cfg, q, i, Flagged) && Moved(p, q, i) && Last(q).tables == Last(p).tables
    ensures Me(q, i).failed == HasFailed(Last(p).tables, Me(p, i).task.job) && q.steps == p.steps + [ReadFailed(i)]
  {
    q := Take(cfg, p, i, ReadFailed(i));
  }

  lemma TakeStatus(cfg: Config, p: Path, i: nat) returns (q: Path)
    requires On(cfg, p, i, Flagged)
    ensures On(cfg, q, i, Idle) && Moved(p, q, i) && q.steps == p.steps + [WriteStatus(i)]
    ensures Last(q).tables == SetJobStatus(Last(p).tables, Me(p, i).task.job, FinalStatus(Me(p, i).failed))
  {
    q := Take(cfg, p, i, WriteStatus(i));
  }

  // The tables that FinishJob leaves when nothing comes between its statements.
  ghost function FinishTables(t: Tables, j: JobId): Tables {
    if Quiescent(t, j) then SetJobStatus(t, j, FinalStatus(HasFailed(t, j))) else t
  }

  // FinishJob, undisturbed.
  lemma TakeFinish(cfg: Config, p: Path, i: nat) returns (q: Path)
    requires On(cfg, p, i, Finalised)
    ensures On(cfg, q, i, Idle) && Moved(p, q, i)
    ensures Last(q).tables == FinishTables(Last(p).tables, Me(p, i).task.job)
    ensures q.steps == p.steps + if Quiescent(Last(p).tables, Me(p, i).task.job)
                                 then [CountPending(i), ReadFailed(i), WriteStatus(i)] else [CountPending(i)]
  {
    q := TakeCount(cfg, p, i);
    if Quiescent(Last(p).tables, Me(p, i).task.job) {
      var flagged := TakeFlag(cfg, q, i);
      q := TakeStatus(cfg, flagged, i);
    }
  }

  // The first n rows of the plan.
  lemma {:induction false} TakeRows(cfg: Config, p: Path, i: nat, n: nat) returns (q: Path)
    requires On(cfg, p, i, Planned) && Me(p, i).job.kind == Crawl && Me(p, i).task.job in Last(p).tables.jobs
    requires n <= |Me(p, i).rest| && Me(p, i).rest != []
    ensures On(cfg, q, i, if n == |Me(p, i).rest| then Succeeded else Planned) && Moved(p, q, i)
    ensures Last(q).tables == InsertTasks(Last(p).tables, Me(p, i).task.job, Me(p, i).rest[..n])
    ensures q.steps == p.steps + seq(n, k => InsertRow(i))
    decreases n
  {
    var rest, t, j := Me(p, i).rest, Last(p).tables, Me(p, i).task.job;
    if n == 0 {
      q := p;
    } else {
      var one := TakeRow(cfg, p, i);
      InsertTasksTwice(t, j, rest[..1], rest[1..n]);
      assert rest[..1] + rest[1..n] == rest[..n];
      InsertTasksDraws(t, j, rest[..1]);
      if |rest| == 1 {
        q := one;
      } else {
        q := TakeRows(cfg, one, i, n - 1);
        assert rest[1..][..n - 1] == rest[1..n];
        assert p.steps + [InsertRow(i)] + seq(n - 1, k => InsertRow(i)) == p.steps + seq(n, k => InsertRow(i));
      }
    }
  }

  // ----- What the code comes to -----

  function SitemapOf(visit: Visit): seq<Option<Url>> {
    if visit.includeSitemaps then visit.sitemap else []
  }

  // The tables after a page task's redirect, document and dedupe mark.
  function PageTables(cfg: Config, t: Tables, claim: Claim, visit: Visit): Tables {
    if visit.page == None then t
    else
      var final := Canonicalize(visit.page.value.final, cfg.crawl.stripQuery);
      var renamed := RenamedTables(t, claim, final, visit);
      if visit.stores then StoredTables(cfg, renamed, claim, final, visit) else renamed
  }

  function RenamedTables(t: Tables, claim: Claim, final: Url, visit: Visit): Tables {
    if final != EMPTY_URL && final != claim.task.final && visit.renames
    then UpdateTaskFinalUrl(t, claim.id, final) else t
  }

  function StoredTables(cfg: Config, t: Tables, claim: Claim, final: Url, visit: Visit): Tables {
    var stored := InsertDocument(t, Document(claim.task.job, claim.task.requested, final));
    if cfg.crawl.dedupeCache && visit.marks
    then stored.(seen := stored.seen + {Canonicalize(final, cfg.crawl.stripQuery)}) else stored
  }

  predicate Stores(visit: Visit) {
    visit.page.Some? && visit.stores
  }

  function LinksFor(cfg: Config, task: Task, job: Job, visit: Visit): seq<Url>
    requires visit.page.Some?
  {
    CollectedLinks(task.requested, visit.page.value.links, if task.depth == 0 then SitemapOf(visit) else [],
                   job.sameDomain, cfg.crawl)
  }

  // The tasks planned for the page, or None when a lookup or the count fails.
  ghost function PlanFor(cfg: Config, t: Tables, task: Task, job: Job, visit: Visit): Option<seq<NewTask>>
    requires visit.page.Some?
  {
    var links := LinksFor(cfg, task, job, visit);
    var unique := FirstOccurrences(links, EMPTY_URL);
    var left := if cfg.crawl.dedupeCache then Unseen(unique, t.seen) else unique;
    if cfg.crawl.dedupeCache && exists u :: u in unique && u in visit.lookups then None
    else if left != [] && cfg.maxTasks > 0 && !visit.counts then None
    else Some(PlannedTasks(cfg.crawl, cfg.maxTasks, links, t.seen, task.depth + 1, TaskCount(t, task.job)))
  }

  datatype Outcome = Outcome(ok: bool, tables: Tables)

  // The rows of a plan up to the one whose insert fails.
  function InsertOutcome(t: Tables, j: JobId, plan: seq<NewTask>, visit: Visit): Outcome {
    var done := visit.outage.row.GetOr(|plan|);
    if done >= |plan| then Outcome(true, InsertTasks(t, j, plan)) else Outcome(false, InsertTasks(t, j, plan[..done]))
  }

  ghost function CrawlOutcome(cfg: Config, t: Tables, claim: Claim, job: Job, visit: Visit): Outcome {
    var page := PageTables(cfg, t, claim, visit);
    if !Stores(visit) then Outcome(false, page)
    else if claim.task.depth >= job.maxDepth then Outcome(true, page)
    else if visit.tooLate then Outcome(false, page)
    else EnqueueOutcome(cfg, page, claim, job, visit)
  }

  ghost function EnqueueOutcome(cfg: Config, t: Tables, claim: Claim, job: Job, visit: Visit): Outcome
    requires visit.page.Some?
  {
    match PlanFor(cfg, t, claim.task, job, visit)
    case None => Outcome(false, t)
    case Some(plan) => InsertOutcome(t, claim.task.job, plan, visit)
  }

  // A map page's transaction commits both parts, or leaves nothing but ids drawn.
  ghost predicate MapResult(cfg: Config, t: Tables, claim: Claim, job: Job, visit: Visit, result: Outcome) {
    if visit.page == None then result == Outcome(false, t)
    else if claim.task.depth >= job.maxDepth then result == Outcome(true, t)
    else MapLinksResult(cfg, t, claim, job, visit, result)
  }

  ghost predicate MapLinksResult(cfg: Config, t: Tables, claim: Claim, job: Job, visit: Visit, result: Outcome)
    requires visit.page.Some?
  {
    match PlanFor(cfg, t, claim.task, job, visit)
    case None => result == Outcome(false, t)
    case Some(plan) => CommitResult(t, claim, LinksFor(cfg, claim.task, job, visit), plan, visit, result)
  }

  ghost predicate CommitResult(
      t: Tables, claim: Claim, links: seq<Url>, plan: seq<NewTask>, visit: Visit, result: Outcome)
  {
    if links == [] then result == Outcome(true, t)
    else if !visit.outage.begin && visit.outage.link.GetOr(|links|) >= |links|
            && visit.outage.row.GetOr(|plan|) >= |plan| && !visit.outage.commit then
      result == Outcome(true, InsertTasks(
        InsertMappedBatch(t, MappedFor(claim.task.job, claim.task.requested, links, claim.task.depth + 1)),
        claim.task.job, plan))
    else !result.ok && exists tasks: nat, mapped: nat :: result.tables == SkipIds(t, tasks, 0, mapped)
  }

  ghost predicate TaskResult(cfg: Config, t: Tables, claim: Claim, job: Job, visit: Visit, result: Outcome) {
    match job.kind
    case BatchScrape => result == Outcome(Stores(visit), PageTables(cfg, t, claim, visit))
    case Crawl => result == CrawlOutcome(cfg, t, claim, job, visit)
    case Map => MapResult(cfg, t, claim, job, visit, result)
  }

  function StartTables(t: Tables, j: JobId, job: Job, visit: Visit): Tables {
    if job.status == JobQueued && visit.starts then SetJobStatus(t, j, JobRunning) else t
  }

  // What handleTask comes to: exactly when it succeeds, and the tables it leaves.
  ghost predicate HandleResult(cfg: Config, t: Tables, now: int, claim: Claim, visit: Visit, result: Outcome) {
    var j := claim.task.job;
    if j !in t.jobs then result == Outcome(false, t) else JobResult(cfg, t, now, claim, t.jobs[j], visit, result)
  }

  ghost predicate JobResult(
      cfg: Config, t: Tables, now: int, claim: Claim, job: Job, visit: Visit, result: Outcome)
  {
    if MaxDurationExceeded(cfg, job, now) then
      result == Outcome(false, if visit.cancels then SetJobStatus(t, claim.task.job, JobCancelled) else t)
    else TaskResult(cfg, StartTables(t, claim.task.job, job, visit), claim, job, visit, result)
  }

  // Completing, retrying or failing the task, unless the statement fails.
  function FinalTables(cfg: Config, t: Tables, claim: Claim, ok: bool, visit: Visit): Tables {
    if !visit.finalises then t
    else if ok then CompleteTask(t, claim.id)
    else if ShouldRetry(claim.task.attempts, cfg.maxRetries) then RetryTask(t, claim.id)
    else FailTask(t, claim.id)
  }

  // What a pass comes to once it has claimed a row.
  ghost predicate PassResult(
      cfg: Config, t: Tables, now: int, claim: Claim, visit: Visit, handled: Outcome, last: Tables)
  {
    && HandleResult(cfg, ClaimTask(t, claim.id, now), now, claim, visit, handled)
    && var final := FinalTables(cfg, handled.tables, claim, handled.ok, visit);
       last == if visit.finishes then FinishTables(final, claim.task.job) else final
  }

  // ----- The code -----

  // The path has come to where the store and the worker are.
  ghost predicate At(cfg: Config, p: Path, store: Store, i: nat, pc: Pc)
    reads store
  {
    On(cfg, p, i, pc) && store.View() == Last(p).tables
  }

  // fetchExtractAndStore and storeDocument; the links are those of the page.
  method StorePage(store: Store, cfg: Config, i: nat, claim: Claim, visit: Visit, ghost p: Path)
    returns (links: Option<seq<Option<Url>>>, ghost q: Path)
    requires At(cfg, p, store, i, Fetching) && Me(p, i).id == claim.id && Me(p, i).task == claim.task
    requires Me(p, i).job.kind != Map && claim.task.job in store.jobs
    modifies store
    ensures At(cfg, q, store, i, if links.Some? then Stored else Erred) && Moved(p, q, i)
    ensures links == (if Stores(visit) then Some(visit.page.value.links) else None)
    ensures store.View() == PageTables(cfg, old(store.View()), claim, visit)
    ensures links.Some? ==> Me(q, i).job == Me(p, i).job && claim.task.job in store.jobs
  {
    q := p;
    if visit.page == None {
      q := TakeFail(cfg, q, i);
      return None, q;
    }
    var final := Canonicalize(visit.page.value.final, cfg.crawl.stripQuery);
    CanonicalizeIdempotent(visit.page.value.final, cfg.crawl.stripQuery);
    q := StoreFetched(store, cfg, i, claim, final, visit, q);
    links := if visit.stores then Some(visit.page.value.links) else None;
  }

  // What follows the fetch of a page from final.
  method StoreFetched(store: Store, cfg: Config, i: nat, claim: Claim, final: Url, visit: Visit, ghost p: Path)
    returns (ghost q: Path)
    requires At(cfg, p, store, i, Fetching) && Me(p, i).id == claim.id && Me(p, i).task == claim.task
    requires Me(p, i).job.kind != Map && claim.task.job in store.jobs
    requires Canonicalize(final, cfg.crawl.stripQuery) == final
    modifies store
    ensures At(cfg, q, store, i, if visit.stores then Stored else Erred) && Moved(p, q, i)
    ensures
      var renamed := RenamedTables(old(store.View()), claim, final, visit);
      store.View() == if visit.stores then StoredTables(cfg, renamed, claim, final, visit) else renamed
    ensures visit.stores ==> Me(q, i).job == Me(p, i).job && claim.task.job in store.jobs
  {
    q := FollowRedirect(store, cfg, i, claim, final, visit, p);
    q := StoreAndMark(store, cfg, i, claim, final, visit, q);
  }

  // The rename of a redirected row, whose failure is ignored.
  method FollowRedirect(store: Store, cfg: Config, i: nat, claim: Claim, final: Url, visit: Visit, ghost p: Path)
    returns (ghost q: Path)
    requires At(cfg, p, store, i, Fetching) && Me(p, i).id == claim.id && Me(p, i).task == claim.task
    requires Me(p, i).job.kind != Map && Canonicalize(final, cfg.crawl.stripQuery) == final
    modifies store
    ensures At(cfg, q, store, i, Fetching) && Moved(p, q, i) && Me(q, i).job == Me(p, i).job
    ensures store.View() == RenamedTables(old(store.View()), claim, final, visit) && store.jobs == old(store.jobs)
  {
    q := p;
    if final != EMPTY_URL && final != claim.task.final && visit.renames {
      store.UpdateTaskFinalUrl(claim.id, final);
      q := TakeRedirect(cfg, q, i, final);
    }
  }

  // The statements of storeDocument.
  method StoreAndMark(store: Store, cfg: Config, i: nat, claim: Claim, final: Url, visit: Visit, ghost p: Path)
    returns (ghost q: Path)
    requires At(cfg, p, store, i, Fetching) && Me(p, i).task == claim.task
    requires Me(p, i).job.kind != Map && claim.task.job in store.jobs
    modifies store
    ensures At(cfg, q, store, i, if visit.stores then Stored else Erred) && Moved(p, q, i)
    ensures store.View() ==
            if visit.stores then StoredTables(cfg, old(store.View()), claim, final, visit) else old(store.View())
    ensures visit.stores ==> Me(q, i).job == Me(p, i).job && claim.task.job in store.jobs
  {
    if !visit.stores {
      q := TakeFail(cfg, p, i);
      return;
    }
    store.InsertDocument(Document(claim.task.job, claim.task.requested, final));
    q := TakeStore(cfg, p, i, final);
    if cfg.crawl.dedupeCache && visit.marks {
      store.MarkCanonical(Canonicalize(final, cfg.crawl.stripQuery));
      q := TakeMark(cfg, q, i, final);
    }
  }

  // The count does not matter where it is not read.
  lemma CountIgnored(cfg: CrawlConfig, maxTasks: int, links: seq<Url>, seen: set<Url>, depth: int, a: int, b: int)
    requires maxTasks <= 0 || (if cfg.dedupeCache then Unseen(FirstOccurrences(links, EMPTY_URL), seen)
                               else FirstOccurrences(links, EMPTY_URL)) == []
    ensures PlannedTasks(cfg, maxTasks, links, seen, depth, a) == PlannedTasks(cfg, maxTasks, links, seen, depth, b)
  {
  }

  // Only the links themselves matter of what the cache holds.
  lemma {:induction false} UnseenAmong(links: seq<Url>, some: set<Url>, seen: set<Url>)
    requires forall u :: u in links ==> (u in some <==> u in seen)
    ensures Unseen(links, some) == Unseen(links, seen)
    decreases |links|
  {
    if links == [] {
    } else {
      UnseenAmong(links[..|links| - 1], some, seen);
      assert links[|links| - 1] in links;
    }
  }

  // The store as planner answers with the cache, unless the lookup fails.
  ghost predicate Answers(planner: Planner, t: Tables, j: JobId, visit: Visit) {
    && (forall u :: planner.hasSeen(u) == if u in visit.lookups then None else Some(u in t.seen))
    && planner.taskCount == if visit.counts then Some(TaskCount(t, j)) else None
  }

  lemma LeftUnseen(planner: Planner, t: Tables, j: JobId, visit: Visit, unique: seq<Url>, cfg: CrawlConfig)
    requires Answers(planner, t, j, visit)
    ensures
      NewLinks(planner, unique, cfg) ==
      if !cfg.dedupeCache then Some(unique)
      else if exists u :: u in unique && u in visit.lookups then None
      else Some(Unseen(unique, t.seen))
    ensures cfg.dedupeCache && !(exists u :: u in unique && u in visit.lookups) ==>
              Unseen(unique, SeenLinks(planner, unique)) == Unseen(unique, t.seen)
  {
    if cfg.dedupeCache {
      if exists u :: u in unique && u in visit.lookups {
        var u :| u in unique && u in visit.lookups;
        var i :| 0 <= i < |unique| && unique[i] == u;
        assert planner.hasSeen(unique[i]) == None;
      } else {
        UnseenAmong(unique, SeenLinks(planner, unique), t.seen);
      }
    }
  }

  // buildLinkTasks with the store as planner comes to PlanFor.
  lemma PlanIsPlanned(cfg: Config, planner: Planner, t: Tables, task: Task, job: Job, visit: Visit)
    requires visit.page.Some? && Answers(planner, t, task.job, visit)
    ensures
      var links := LinksFor(cfg, task, job, visit);
      var unique := FirstOccurrences(links, EMPTY_URL);
      var left := NewLinks(planner, unique, cfg.crawl);
      PlanFor(cfg, t, task, job, visit) ==
      if left == None || (left.value != [] && cfg.maxTasks > 0 && planner.taskCount == None) then None
      else Some(PlannedTasks(cfg.crawl, cfg.maxTasks, links, SeenLinks(planner, unique), task.depth + 1,
                             planner.taskCount.GetOr(0)))
  {
    var links := LinksFor(cfg, task, job, visit);
    var unique := FirstOccurrences(links, EMPTY_URL);
    var count := TaskCount(t, task.job);
    LeftUnseen(planner, t, task.job, visit, unique, cfg.crawl);
    if !visit.counts && (cfg.maxTasks <= 0 || NewLinks(planner, unique, cfg.crawl) == Some([])) {
      CountIgnored(cfg.crawl, cfg.maxTasks, links, SeenLinks(planner, unique), task.depth + 1, 0, count);
    }
    if NewLinks(planner, unique, cfg.crawl).Some? {
      assert PlannedTasks(cfg.crawl, cfg.maxTasks, links, SeenLinks(planner, unique), task.depth + 1, count)
          == PlannedTasks(cfg.crawl, cfg.maxTasks, links, t.seen, task.depth + 1, count);
    }
  }

  // buildLinkTasks, asking the store.
  method BuildPlan(store: Store, cfg: Config, task: Task, job: Job, links: seq<Url>, visit: Visit)
    returns (plan: Option<seq<NewTask>>)
    requires visit.page.Some? && links == LinksFor(cfg, task, job, visit)
    ensures plan == PlanFor(cfg, store.View(), task, job, visit)
  {
    var cache, deaf := store.seen, visit.lookups;
    var count := store.TaskCount(task.job);
    var hasSeen := (u: Url) => if u in deaf then None else Some(u in cache);
    var planner := Planner(hasSeen, if visit.counts then Some(count) else None);
    PlanIsPlanned(cfg, planner, store.View(), task, job, visit);
    plan := BuildLinkTasks(planner, links, task.depth + 1, cfg.maxTasks, cfg.crawl);
  }

  // collectLinks and buildLinkTasks for a page; a plan is what the Plan step of worker w plans.
  method PlanPage(store: Store, cfg: Config, task: Task, job: Job, visit: Visit, ghost w: Worker)
    returns (links: seq<Url>, plan: Option<seq<NewTask>>)
    requires visit.page.Some? && w.task == task && w.job == job
    ensures links == LinksFor(cfg, task, job, visit) && plan == PlanFor(cfg, store.View(), task, job, visit)
    ensures links == PlanLinks(cfg, w, visit.page.value.links, SitemapOf(visit))
    ensures plan.Some? ==> plan.value == PlanTasks(cfg, store.View(), w, links, store.seen)
  {
    links := CollectPage(cfg, task, job, visit);
    plan := BuildPlan(store, cfg, task, job, links, visit);
    PlanIsPlanStep(cfg, store.View(), w, visit);
  }

  // collectLinks
  method CollectPage(cfg: Config, task: Task, job: Job, visit: Visit) returns (links: seq<Url>)
    requires visit.page.Some?
    ensures links == LinksFor(cfg, task, job, visit)
  {
    links := CollectLinks(
      task, visit.page.value.links, visit.includeSitemaps, visit.sitemap, job.sameDomain, cfg.crawl);
  }

  lemma PlanIsPlanStep(cfg: Config, t: Tables, w: Worker, visit: Visit)
    requires visit.page.Some?
    ensures
      var links := LinksFor(cfg, w.task, w.job, visit);
      var plan := PlanFor(cfg, t, w.task, w.job, visit);
      && links == PlanLinks(cfg, w, visit.page.value.links, SitemapOf(visit))
      && (plan.Some? ==> plan.value == PlanTasks(cfg, t, w, links, t.seen))
  {
    LinksArePlanLinks(cfg, w, visit);
  }

  lemma LinksArePlanLinks(cfg: Config, w: Worker, visit: Visit)
    requires visit.page.Some?
    ensures LinksFor(cfg, w.task, w.job, visit) == PlanLinks(cfg, w, visit.page.value.links, SitemapOf(visit))
  {
  }

  // The plan that PlanPage makes is the one that the Plan step makes.
  lemma TakeCrawlPlan(
      cfg: Config, p: Path, i: nat, page: seq<Option<Url>>, visit: Visit, links: seq<Url>, plan: seq<NewTask>,
      seen: set<Url>) returns (q: Path)
    requires On(cfg, p, i, Stored) && Me(p, i).job.kind == Crawl && Me(p, i).task.depth < Me(p, i).job.maxDepth
    requires links == PlanLinks(cfg, Me(p, i), page, SitemapOf(visit))
    requires plan == PlanTasks(cfg, Last(p).tables, Me(p, i), links, seen)
    ensures On(cfg, q, i, if plan == [] then Succeeded else Planned) && Moved(p, q, i)
    ensures Last(q).tables == Last(p).tables && Me(q, i).rest == plan && Me(q, i).job == Me(p, i).job
  {
    q := TakePlan(cfg, p, i, page, SitemapOf(visit), seen);
    assert AsLinks(plan) == [] <==> plan == [];
  }

  lemma TakeMapPlan(
      cfg: Config, p: Path, i: nat, page: seq<Option<Url>>, visit: Visit, links: seq<Url>, plan: seq<NewTask>,
      seen: set<Url>) returns (q: Path)
    requires On(cfg, p, i, Fetching) && Me(p, i).job.kind == Map && Me(p, i).task.depth < Me(p, i).job.maxDepth
    requires links == PlanLinks(cfg, Me(p, i), page, SitemapOf(visit))
    requires plan == PlanTasks(cfg, Last(p).tables, Me(p, i), links, seen)
    ensures On(cfg, q, i, if links == [] then Succeeded else Planned) && Moved(p, q, i)
    ensures Last(q).tables == Last(p).tables && Me(q, i).job == Me(p, i).job
    ensures links != [] ==> Me(q, i).rest == plan && Me(q, i).links == links
  {
    q := TakePlan(cfg, p, i, page, SitemapOf(visit), seen);
  }

  // processCrawlTask
  method CrawlTask(store: Store, cfg: Config, i: nat, claim: Claim, job: Job, visit: Visit, ghost p: Path)
    returns (ok: bool, ghost q: Path)
    requires At(cfg, p, store, i, Fetching) && Me(p, i).id == claim.id && Me(p, i).task == claim.task
    requires Me(p, i).job == job && job.kind == Crawl && claim.task.job in store.jobs
    modifies store
    ensures At(cfg, q, store, i, if ok then Succeeded else Erred) && Moved(p, q, i)
    ensures Outcome(ok, store.View()) == CrawlOutcome(cfg, old(store.View()), claim, job, visit)
  {
    var page;
    page, q := StorePage(store, cfg, i, claim, visit, p);
    if page == None {
      return false, q;
    }
    if claim.task.depth >= job.maxDepth {
      q := TakeStop(cfg, q, i);
      return true, q;
    }
    if visit.tooLate {
      q := TakeFail(cfg, q, i);
      return false, q;
    }
    ok, q := EnqueueLinks(store, cfg, i, claim, job, visit, q);
  }

  // The rest of processCrawlTask, for a page above max_depth.
  method EnqueueLinks(store: Store, cfg: Config, i: nat, claim: Claim, job: Job, visit: Visit, ghost p: Path)
    returns (ok: bool, ghost q: Path)
    requires At(cfg, p, store, i, Stored) && Me(p, i).id == claim.id && Me(p, i).task == claim.task
    requires Me(p, i).job == job && job.kind == Crawl && claim.task.job in store.jobs && claim.task.depth < job.maxDepth
    requires visit.page.Some?
    modifies store
    ensures At(cfg, q, store, i, if ok then Succeeded else Erred) && Moved(p, q, i)
    ensures Outcome(ok, store.View()) == EnqueueOutcome(cfg, old(store.View()), claim, job, visit)
  {
    var plan;
    plan, q := PlanCrawl(store, cfg, i, claim, job, visit, p);
    if plan == None {
      return false, q;
    }
    ok, q := InsertPlan(store, cfg, i, claim, plan.value, visit, q);
  }

  // The plan of a page under a crawl job.
  method PlanCrawl(store: Store, cfg: Config, i: nat, claim: Claim, job: Job, visit: Visit, ghost p: Path)
    returns (plan: Option<seq<NewTask>>, ghost q: Path)
    requires At(cfg, p, store, i, Stored) && Me(p, i).task == claim.task && Me(p, i).job == job
    requires job.kind == Crawl && claim.task.depth < job.maxDepth && visit.page.Some?
    ensures plan == PlanFor(cfg, store.View(), claim.task, job, visit)
    ensures At(cfg, q, store, i, if plan == None then Erred else if plan.value == [] then Succeeded else Planned)
    ensures Moved(p, q, i) && (plan.Some? ==> Me(q, i).rest == plan.value && Me(q, i).job == job)
  {
    var links;
    links, plan := PlanPage(store, cfg, claim.task, job, visit, Me(p, i));
    if plan == None {
      q := TakeFail(cfg, p, i);
    } else {
      q := TakeCrawlPlan(cfg, p, i, visit.page.value.links, visit, links, plan.value, store.seen);
    }
  }

  // Its last statement, one insert for each task; nothing for an empty plan.
  method InsertPlan(store: Store, cfg: Config, i: nat, claim: Claim, plan: seq<NewTask>, visit: Visit, ghost p: Path)
    returns (ok: bool, ghost q: Path)
    requires At(cfg, p, store, i, if plan == [] then Succeeded else Planned) && Me(p, i).task == claim.task
    requires Me(p, i).rest == plan && Me(p, i).job.kind == Crawl && claim.task.job in store.jobs
    modifies store
    ensures At(cfg, q, store, i, if ok then Succeeded else Erred) && Moved(p, q, i)
    ensures Outcome(ok, store.View()) == InsertOutcome(old(store.View()), claim.task.job, plan, visit)
  {
    q := p;
    if |plan| == 0 {
      return true, q;
    }
    ok := store.InsertTasks(claim.task.job, plan, visit.outage.row);
    ghost var n := if ok then |plan| else visit.outage.row.value;
    assert plan[..|plan|] == plan;
    q := TakeRows(cfg, q, i, n);
    if !ok {
      q := TakeFail(cfg, q, i);
    }
  }

  // processMapTask
  method MapTask(store: Store, cfg: Config, i: nat, claim: Claim, job: Job, visit: Visit, ghost p: Path)
    returns (ok: bool, ghost q: Path)
    requires At(cfg, p, store, i, Fetching) && Me(p, i).id == claim.id && Me(p, i).task == claim.task
    requires Me(p, i).job == job && job.kind == Map && claim.task.job in store.jobs
    modifies store
    ensures At(cfg, q, store, i, if ok then Succeeded else Erred) && Moved(p, q, i)
    ensures MapResult(cfg, old(store.View()), claim, job, visit, Outcome(ok, store.View()))
  {
    if visit.page == None {
      q := TakeFail(cfg, p, i);
      return false, q;
    }
    if claim.task.depth >= job.maxDepth {
      q := TakeStop(cfg, p, i);
      return true, q;
    }
    ok, q := EnqueueMap(store, cfg, i, claim, job, visit, p);
  }

  // The rest of processMapTask, for a page above max_depth.
  method EnqueueMap(store: Store, cfg: Config, i: nat, claim: Claim, job: Job, visit: Visit, ghost p: Path)
    returns (ok: bool, ghost q: Path)
    requires At(cfg, p, store, i, Fetching) && Me(p, i).id == claim.id && Me(p, i).task == claim.task
    requires Me(p, i).job == job && job.kind == Map && claim.task.job in store.jobs && claim.task.depth < job.maxDepth
    requires visit.page.Some?
    modifies store
    ensures At(cfg, q, store, i, if ok then Succeeded else Erred) && Moved(p, q, i)
    ensures MapLinksResult(cfg, old(store.View()), claim, job, visit, Outcome(ok, store.View()))
  {
    var links, plan;
    links, plan, q := PlanMap(store, cfg, i, claim, job, visit, p);
    if plan == None {
      return false, q;
    }
    ok, q := CommitLinks(store, cfg, i, claim, links, plan.value, visit, q);
  }

  // The links and the plan of a page under a map job.
  method PlanMap(store: Store, cfg: Config, i: nat, claim: Claim, job: Job, visit: Visit, ghost p: Path)
    returns (links: seq<Url>, plan: Option<seq<NewTask>>, ghost q: Path)
    requires At(cfg, p, store, i, Fetching) && Me(p, i).task == claim.task && Me(p, i).job == job
    requires job.kind == Map && claim.task.depth < job.maxDepth && visit.page.Some?
    ensures links == LinksFor(cfg, claim.task, job, visit)
    ensures plan == PlanFor(cfg, store.View(), claim.task, job, visit)
    ensures At(cfg, q, store, i, if plan == None then Erred else if links == [] then Succeeded else Planned)
    ensures Moved(p, q, i) && (plan.Some? ==> Me(q, i).job == job)
    ensures plan.Some? && links != [] ==> Me(q, i).rest == plan.value && Me(q, i).links == links
  {
    links, plan := PlanPage(store, cfg, claim.task, job, visit, Me(p, i));
    if plan == None {
      q := TakeFail(cfg, p, i);
    } else {
      q := TakeMapPlan(cfg, p, i, visit.page.value.links, visit, links, plan.value, store.seen);
    }
  }

  // The end of processMapTask.
  method CommitLinks(
      store: Store, cfg: Config, i: nat, claim: Claim, links: seq<Url>, plan: seq<NewTask>, visit: Visit, ghost p: Path)
    returns (ok: bool, ghost q: Path)
    requires At(cfg, p, store, i, if links == [] then Succeeded else Planned)
    requires Me(p, i).task == claim.task && Me(p, i).job.kind == Map && claim.task.job in store.jobs
    requires links != [] ==> Me(p, i).links == links && Me(p, i).rest == plan
    modifies store
    ensures At(cfg, q, store, i, if ok then Succeeded else Erred) && Moved(p, q, i)
    ensures CommitResult(old(store.View()), claim, links, plan, visit, Outcome(ok, store.View()))
  {
    q := p;
    if |links| == 0 {
      return true, q;
    }
    ok := EnqueueMapLinks(
      store, claim.task.job, claim.task.requested, links, claim.task.depth + 1, plan, visit.outage);
    if ok {
      q := TakeCommit(cfg, q, i);
    } else {
      ghost var tasks: nat, mapped: nat :| store.View() == SkipIds(Last(p).tables, tasks, 0, mapped);
      q := TakeSkip(cfg, q, i, tasks, mapped);
      q := TakeFail(cfg, q, i);
    }
  }

  // The switch on the job type at the end of handleTask.
  method ProcessTask(store: Store, cfg: Config, i: nat, claim: Claim, job: Job, visit: Visit, ghost p: Path)
    returns (ok: bool, ghost q: Path)
    requires At(cfg, p, store, i, Fetching) && Me(p, i).id == claim.id && Me(p, i).task == claim.task
    requires Me(p, i).job == job && claim.task.job in store.jobs
    modifies store
    ensures At(cfg, q, store, i, if ok then Succeeded else Erred) && Moved(p, q, i)
    ensures TaskResult(cfg, old(store.View()), claim, job, visit, Outcome(ok, store.View()))
  {
    match job.kind {
      case BatchScrape =>
        var links;
        links, q := StorePage(store, cfg, i, claim, visit, p);
        ok := links.Some?;
        if ok {
          q := TakeStop(cfg, q, i);
        }
      case Crawl => ok, q := CrawlTask(store, cfg, i, claim, job, visit, p);
      case Map => ok, q := MapTask(store, cfg, i, claim, job, visit, p);
    }
  }

  // handleTask
  method HandleTask(store: Store, cfg: Config, now: int, i: nat, claim: Claim, visit: Visit, ghost p: Path)
    returns (ok: bool, ghost q: Path)
    requires At(cfg, p, store, i, Claimed) && Me(p, i).id == claim.id && Me(p, i).task == claim.task
    requires now == Last(p).clock
    modifies store
    ensures At(cfg, q, store, i, if ok then Succeeded else Erred) && Moved(p, q, i)
    ensures HandleResult(cfg, old(store.View()), now, claim, visit, Outcome(ok, store.View()))
    ensures
      var j := claim.task.job;
      j in old(store.jobs) && 0 < cfg.maxDuration < now - old(store.jobs)[j].createdAt ==>
        && !ok
        && store.View() == old(store.View()).(
             jobs := if visit.cancels then old(store.jobs)[j := old(store.jobs)[j].(status := JobCancelled)]
                     else old(store.jobs))
    ensures
      var j := claim.task.job;
      j in old(store.jobs)
      && (cfg.maxDuration <= 0 || now - old(store.jobs)[j].createdAt <= cfg.maxDuration) ==>
        var job := old(store.jobs)[j];
        TaskResult(cfg, StartTables(old(store.View()), j, job, visit), claim, job, visit, Outcome(ok, store.View()))
  {
    var got := store.GetJob(claim.task.job);
    if got == None {
      q := TakeFail(cfg, p, i);
      return false, q;
    }
    q := TakeReadJob(cfg, p, i);
    ok, q := HandleJob(store, cfg, now, i, claim, got.value, visit, q);
  }

  // What follows GetJob.
  method HandleJob(store: Store, cfg: Config, now: int, i: nat, claim: Claim, job: Job, visit: Visit, ghost p: Path)
    returns (ok: bool, ghost q: Path)
    requires At(cfg, p, store, i, JobRead) && Me(p, i).id == claim.id && Me(p, i).task == claim.task
    requires Me(p, i).job == job && claim.task.job in store.jobs && now == Last(p).clock == Me(p, i).readAt
    modifies store
    ensures At(cfg, q, store, i, if ok then Succeeded else Erred) && Moved(p, q, i)
    ensures JobResult(cfg, old(store.View()), now, claim, job, visit, Outcome(ok, store.View()))
  {
    if MaxDurationExceeded(cfg, job, now) {
      ok := false;
      q := CancelOverdue(store, cfg, i, claim, visit, p);
    } else {
      ok, q := StartAndProcess(store, cfg, i, claim, job, visit, p);
    }
  }

  // The update of an overdue job, whose failure is ignored.
  method CancelOverdue(store: Store, cfg: Config, i: nat, claim: Claim, visit: Visit, ghost p: Path)
    returns (ghost q: Path)
    requires At(cfg, p, store, i, JobRead) && Me(p, i).task == claim.task && claim.task.job in store.jobs
    requires MaxDurationExceeded(cfg, Me(p, i).job, Last(p).clock)
    modifies store
    ensures At(cfg, q, store, i, Erred) && Moved(p, q, i)
    ensures store.View() ==
            if visit.cancels then SetJobStatus(old(store.View()), claim.task.job, JobCancelled) else old(store.View())
  {
    if visit.cancels {
      store.UpdateJobStatus(claim.task.job, JobCancelled);
    }
    q := TakeCancel(cfg, p, i, visit.cancels);
  }

  // The rest of handleTask.
  method StartAndProcess(store: Store, cfg: Config, i: nat, claim: Claim, job: Job, visit: Visit, ghost p: Path)
    returns (ok: bool, ghost q: Path)
    requires At(cfg, p, store, i, JobRead) && Me(p, i).id == claim.id && Me(p, i).task == claim.task
    requires Me(p, i).job == job && claim.task.job in store.jobs
    requires !MaxDurationExceeded(cfg, job, Me(p, i).readAt)
    modifies store
    ensures At(cfg, q, store, i, if ok then Succeeded else Erred) && Moved(p, q, i)
    ensures TaskResult(cfg, StartTables(old(store.View()), claim.task.job, job, visit), claim, job, visit,
                       Outcome(ok, store.View()))
  {
    q := StartQueued(store, cfg, i, claim, job, visit, p);
    ok, q := ProcessTask(store, cfg, i, claim, job, visit, q);
  }

  // StartJob, whose failure is ignored.
  method StartQueued(store: Store, cfg: Config, i: nat, claim: Claim, job: Job, visit: Visit, ghost p: Path)
    returns (ghost q: Path)
    requires At(cfg, p, store, i, JobRead) && Me(p, i).task == claim.task && Me(p, i).job == job
    requires !MaxDurationExceeded(cfg, job, Me(p, i).readAt) && claim.task.job in store.jobs
    modifies store
    ensures At(cfg, q, store, i, Fetching) && Moved(p, q, i)
    ensures store.View() == StartTables(old(store.View()), claim.task.job, job, visit)
    ensures Me(q, i).job == job && claim.task.job in store.jobs
  {
    if job.status == JobQueued && visit.starts {
      store.UpdateJobStatus(claim.task.job, JobRunning);
    }
    q := TakeStart(cfg, p, i, visit.starts);
  }

  // Completing, retrying or failing the task.
  method Finalise(store: Store, cfg: Config, i: nat, claim: Claim, ok: bool, visit: Visit, ghost p: Path)
    returns (ghost q: Path)
    requires At(cfg, p, store, i, if ok then Succeeded else Erred)
    requires Me(p, i).id == claim.id && Me(p, i).task == claim.task
    modifies store
    ensures At(cfg, q, store, i, Finalised) && Alone(p, q, i, !visit.finalises)
    ensures Me(q, i).id == claim.id && Me(q, i).task == claim.task
    ensures store.View() == FinalTables(cfg, old(store.View()), claim, ok, visit)
  {
    if !ok {
      if ShouldRetry(claim.task.attempts, cfg.maxRetries) {
        if visit.finalises {
          store.RetryTask(claim.id);
        }
      } else {
        if visit.finalises {
          store.FailTask(claim.id);
        }
      }
    } else {
      if visit.finalises {
        store.CompleteTask(claim.id);
      }
    }
    q := TakeFinal(cfg, p, i, visit.finalises);
  }

  method Finish(store: Store, cfg: Config, i: nat, claim: Claim, visit: Visit, ghost p: Path) returns (ghost q: Path)
    requires At(cfg, p, store, i, Finalised) && Me(p, i).task == claim.task
    modifies store
    ensures At(cfg, q, store, i, Idle) && Alone(p, q, i, !visit.finishes)
    ensures store.View() == if visit.finishes then FinishTables(old(store.View()), claim.task.job)
                            else old(store.View())
  {
    if visit.finishes {
      var finish := store.FinishJob(claim.task.job);
      q := TakeFinish(cfg, p, i);
    } else {
      q := TakeAbandon(cfg, p, i);
    }
  }

  // What follows the claim.
  method WorkOff(store: Store, cfg: Config, now: int, i: nat, claim: Claim, visit: Visit, ghost p: Path)
    returns (ghost q: Path, ghost handled: Outcome)
    requires At(cfg, p, store, i, Claimed) && Me(p, i).id == claim.id && Me(p, i).task == claim.task
    requires now == Last(p).clock
    modifies store
    ensures At(cfg, q, store, i, Idle) && Alone(p, q, i, !(visit.finalises && visit.finishes))
    ensures HandleResult(cfg, old(store.View()), now, claim, visit, handled)
    ensures
      var final := FinalTables(cfg, handled.tables, claim, handled.ok, visit);
      store.View() == if visit.finishes then FinishTables(final, claim.task.job) else final
  {
    var ok;
    ok, q := HandleTask(store, cfg, now, i, claim, visit, p);
    handled := Outcome(ok, store.View());
    q := Finalise(store, cfg, i, claim, ok, visit, q);
    q := Finish(store, cfg, i, claim, visit, q);
  }

  // One pass through runWorker's loop, run without interruption, goes on from p by steps of this worker, none
  // of them a fault when its last statements succeed. It claims the first claimable row that is not
  // locked, if there is one, and does with it what PassResult says; else it does nothing.
  method RunWorker(
      store: Store, cfg: Config, now: int, i: nat, locked: set<TaskId>, visit: Visit, ghost p: Path)
    returns (claim: Option<Claim>, ghost q: Path, ghost handled: Outcome)
    requires At(cfg, p, store, i, Idle) && now == Last(p).clock
    modifies store
    ensures At(cfg, q, store, i, Idle) && Alone(p, q, i, !(visit.finalises && visit.finishes))
    ensures claim.None? ==>
              && q == p && store.View() == old(store.View())
              && forall id | id in store.tasks :: Claimable(store.tasks[id], now - cfg.lease) ==> id in locked
    ensures claim.Some? ==>
              && Picks(old(store.View()), claim.value.id, now - cfg.lease, locked)
              && claim.value.task == ClaimTask(old(store.View()), claim.value.id, now).tasks[claim.value.id]
              && PassResult(cfg, old(store.View()), now, claim.value, visit, handled, store.View())
  {
    q := p;
    handled := Outcome(false, store.View());
    claim := store.DequeueTask(now, cfg.lease, locked);
    if claim == None {
      return;
    }
    q := TakeClaim(cfg, q, i, claim.value.id, locked);
    q, handled := WorkOff(store, cfg, now, i, claim.value, visit, q);
  }
}
