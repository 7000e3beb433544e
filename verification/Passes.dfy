// What one pass of a worker comes to, said without the functions that WorkerLoop computes it by.
module Passes {
  import opened Uniques
  import opened Wrappers
  import opened Urls
  import opened Tables
  import opened Frontier
  import opened Protocol
  import opened Database
  import opened WorkerLoop

  // ----- The page -----

  // A page that is stored adds one document and, with the dedupe cache, marks its canonical URL; the row is
  // renamed to it unless another row of the job has it; nothing else changes.
  lemma PageStored(cfg: Config, t: Tables, claim: Claim, visit: Visit)
    requires visit.page.Some? && claim.id in t.tasks
    ensures
      var t', final := PageTables(cfg, t, claim, visit), Canonicalize(visit.page.value.final, cfg.crawl.stripQuery);
      var row := t.tasks[claim.id];
      var taken := exists k :: k in t.tasks && k != claim.id && t.tasks[k].job == row.job && t.tasks[k].final == final;
      && t'.documents == (if visit.stores
                          then t.documents[t.nextDocument := Document(claim.task.job, claim.task.requested, final)]
                          else t.documents)
      && t'.seen == (if visit.stores && cfg.crawl.dedupeCache && visit.marks then t.seen + {final} else t.seen)
      && t'.tasks == (if visit.renames && final != EMPTY_URL && final != claim.task.final && !taken
                      then t.tasks[claim.id := row.(final := final)] else t.tasks)
      && t'.jobs == t.jobs && t'.mapped == t.mapped
  {
    var final := Canonicalize(visit.page.value.final, cfg.crawl.stripQuery);
    CanonicalizeIdempotent(visit.page.value.final, cfg.crawl.stripQuery);
    RenamedExactly(t, claim.id, final);
  }

  // ----- The plan -----

  // A plan is made unless the dedupe lookup of some link fails, or the count that the cap needs is not to be had
  // while some link is not in the cache.
  lemma PlanMadeWhen(cfg: Config, t: Tables, task: Task, job: Job, visit: Visit)
    requires visit.page.Some?
    ensures
      var links, plan := LinksFor(cfg, task, job, visit), PlanFor(cfg, t, task, job, visit);
      && (plan.Some? <==>
            && (cfg.crawl.dedupeCache ==> forall u :: u in links ==> u !in visit.lookups)
            && (visit.counts || cfg.maxTasks <= 0 || forall u :: u in links ==> cfg.crawl.dedupeCache && u in t.seen))
      && (plan.Some? ==>
            plan.value == PlannedTasks(cfg.crawl, cfg.maxTasks, links, t.seen, task.depth + 1, TaskCount(t, task.job)))
  {
    LinksAreUnique(cfg, task, job, visit);
    LeftWhen(cfg, LinksFor(cfg, task, job, visit), t.seen);
  }

  lemma LinksAreUnique(cfg: Config, task: Task, job: Job, visit: Visit)
    requires visit.page.Some?
    ensures var links := LinksFor(cfg, task, job, visit); FirstOccurrences(links, EMPTY_URL) == links
  {
    CollectedLinksExact(
      task.requested, visit.page.value.links, if task.depth == 0 then SitemapOf(visit) else [], job.sameDomain,
      cfg.crawl);
    FirstOccurrencesIdempotent(LinksFor(cfg, task, job, visit), EMPTY_URL);
  }

  lemma LeftWhen(cfg: Config, links: seq<Url>, seen: set<Url>)
    ensures
      var left := if cfg.crawl.dedupeCache then Unseen(links, seen) else links;
      left == [] <==> forall u :: u in links ==> cfg.crawl.dedupeCache && u in seen
  {
    var left := if cfg.crawl.dedupeCache then Unseen(links, seen) else links;
    UnseenExact(links, seen);
    if left != [] {
      assert left[0] in left;
    }
    if links != [] {
      assert links[0] in links;
    }
  }

  // ----- Success -----

  // WHEN A TASK SUCCEEDS. Its job is there and within max_duration and its page was fetched; a batch or crawl page
  // is stored; and, above max_depth, a crawl page's plan is made in time and all inserted, and a map page's plan
  // is made and, if there are links, committed.
  lemma SucceedsWhen(cfg: Config, t: Tables, now: int, claim: Claim, visit: Visit, r: Outcome)
    requires HandleResult(cfg, t, now, claim, visit, r) && claim.task.job in t.jobs
    ensures
      var job := t.jobs[claim.task.job];
      r.ok <==>
      && (cfg.maxDuration <= 0 || now - job.createdAt <= cfg.maxDuration) && visit.page.Some?
      && match job.kind
         case BatchScrape => visit.stores
         case Crawl =>
           && visit.stores
           && (claim.task.depth >= job.maxDepth || (!visit.tooLate && CrawlEnqueues(cfg, t, claim, visit)))
         case Map => claim.task.depth >= job.maxDepth || MapCommits(cfg, t, claim, visit)
  {
  }

  // The plan of a crawl page is made and no insert of it fails.
  ghost predicate CrawlEnqueues(cfg: Config, t: Tables, claim: Claim, visit: Visit)
    requires visit.page.Some? && claim.task.job in t.jobs
  {
    var job := t.jobs[claim.task.job];
    var stored := PageTables(cfg, StartTables(t, claim.task.job, job, visit), claim, visit);
    var plan := PlanFor(cfg, stored, claim.task, job, visit);
    plan.Some? && visit.outage.row.GetOr(|plan.value|) >= |plan.value|
  }

  // The plan of a map page is made and, when there are links, no statement of the transaction fails.
  ghost predicate MapCommits(cfg: Config, t: Tables, claim: Claim, visit: Visit)
    requires visit.page.Some? && claim.task.job in t.jobs
  {
    var job := t.jobs[claim.task.job];
    var links := LinksFor(cfg, claim.task, job, visit);
    var plan := PlanFor(cfg, StartTables(t, claim.task.job, job, visit), claim.task, job, visit);
    && plan.Some?
    && (links == []
        || (!visit.outage.begin && visit.outage.link.GetOr(|links|) >= |links|
            && visit.outage.row.GetOr(|plan.value|) >= |plan.value| && !visit.outage.commit))
  }

  lemma PageKeepsJobs(cfg: Config, t: Tables, claim: Claim, visit: Visit)
    ensures PageTables(cfg, t, claim, visit).jobs == t.jobs
  {
  }

  // Only the start of a queued job changes the jobs, once a task is within max_duration.
  lemma TaskStartsJob(cfg: Config, t: Tables, now: int, claim: Claim, visit: Visit, r: Outcome)
    requires HandleResult(cfg, t, now, claim, visit, r) && claim.task.job in t.jobs
    requires cfg.maxDuration <= 0 || now - t.jobs[claim.task.job].createdAt <= cfg.maxDuration
    ensures
      var job := t.jobs[claim.task.job];
      r.tables.jobs == if job.status == JobQueued && visit.starts
                       then t.jobs[claim.task.job := job.(status := JobRunning)] else t.jobs
  {
    var job := t.jobs[claim.task.job];
    var started := StartTables(t, claim.task.job, job, visit);
    PageKeepsJobs(cfg, started, claim, visit);
    match job.kind
    case BatchScrape =>
    case Crawl => CrawlKeepsJobs(cfg, started, claim, job, visit);
    case Map => MapKeepsJobs(cfg, started, claim, job, visit, r);
  }

  lemma CrawlKeepsJobs(cfg: Config, t: Tables, claim: Claim, job: Job, visit: Visit)
    ensures CrawlOutcome(cfg, t, claim, job, visit).tables.jobs == t.jobs
  {
    var page := PageTables(cfg, t, claim, visit);
    PageKeepsJobs(cfg, t, claim, visit);
    if Stores(visit) && claim.task.depth < job.maxDepth && !visit.tooLate {
      var plan := PlanFor(cfg, page, claim.task, job, visit);
      if plan.Some? {
        var done := visit.outage.row.GetOr(|plan.value|);
        InsertTasksDraws(page, claim.task.job, if done >= |plan.value| then plan.value else plan.value[..done]);
      }
    }
  }

  lemma MapKeepsJobs(cfg: Config, t: Tables, claim: Claim, job: Job, visit: Visit, r: Outcome)
    requires MapResult(cfg, t, claim, job, visit, r)
    ensures r.tables.jobs == t.jobs
  {
    if visit.page.Some? && claim.task.depth < job.maxDepth {
      var plan := PlanFor(cfg, t, claim.task, job, visit);
      if plan.Some? {
        ResultKeepsJobs(t, claim, LinksFor(cfg, claim.task, job, visit), plan.value, visit, r);
      }
    }
  }

  lemma ResultKeepsJobs(t: Tables, claim: Claim, links: seq<Url>, plan: seq<NewTask>, visit: Visit, r: Outcome)
    requires CommitResult(t, claim, links, plan, visit, r)
    ensures r.tables.jobs == t.jobs
  {
    if r.ok && links != [] {
      CommitKeepsJobs(
        t, MappedFor(claim.task.job, claim.task.requested, links, claim.task.depth + 1), claim.task.job, plan);
    }
  }

  lemma CommitKeepsJobs(t: Tables, rows: seq<MappedUrl>, j: JobId, plan: seq<NewTask>)
    ensures InsertTasks(InsertMappedBatch(t, rows), j, plan).jobs == t.jobs
  {
    InsertMappedBatchDraws(t, rows);
    InsertTasksDraws(InsertMappedBatch(t, rows), j, plan);
  }

  // ----- What the pass leaves -----

  // A claimed task is done when it succeeded; else its row is queued again, or failed after max_retries attempts,
  // with one attempt more. Other rows stay as handleTask left them.
  lemma PassFinalises(cfg: Config, handled: Outcome, claim: Claim, visit: Visit)
    requires visit.finalises && claim.id in handled.tables.tasks
    ensures
      var t, row := FinalTables(cfg, handled.tables, claim, handled.ok, visit), handled.tables.tasks[claim.id];
      && t.tasks.Keys == handled.tables.tasks.Keys
      && (forall id :: id in t.tasks && id != claim.id ==> t.tasks[id] == handled.tables.tasks[id])
      && (handled.ok ==> t.tasks[claim.id] == row.(status := Done))
      && (!handled.ok && claim.task.attempts < cfg.maxRetries ==>
            t.tasks[claim.id] == row.(status := Queued, attempts := row.attempts + 1, heartbeatAt := None))
      && (!handled.ok && claim.task.attempts >= cfg.maxRetries ==>
            t.tasks[claim.id] == row.(status := Failed, attempts := row.attempts + 1))
  {
  }

  // An undisturbed FinishJob writes a status exactly when no row of the job is queued or processing: completed
  // when none has failed, and completed with errors when one has.
  lemma PassFinishes(t: Tables, j: JobId)
    requires j in t.jobs
    ensures
      var status := FinishTables(t, j).jobs[j].status;
      var pending := exists id :: id in t.tasks && t.tasks[id].job == j
                       && (t.tasks[id].status == Queued || t.tasks[id].status == Processing);
      var failed := exists id :: id in t.tasks && t.tasks[id].job == j && t.tasks[id].status == Failed;
      && FinishTables(t, j).tasks == t.tasks
      && status == if pending then t.jobs[j].status else if failed then JobCompletedWithErrors else JobCompleted
  {
  }

  lemma RowsOfPlan(cfg: Config, t: Tables, task: Task, job: Job, visit: Visit, plan: seq<NewTask>)
    requires visit.page.Some? && PlanFor(cfg, t, task, job, visit) == Some(plan)
    requires forall id :: id in t.tasks ==> id < t.nextTask
    ensures plan == PlannedTasks(cfg.crawl, cfg.maxTasks, LinksFor(cfg, task, job, visit), t.seen, task.depth + 1,
                                 TaskCount(t, task.job))
    ensures forall k :: 0 <= k < |plan| ==> Conflict(InsertTasks(t, task.job, plan), task.job, plan[k].final)
  {
    PlanMadeWhen(cfg, t, task, job, visit);
    InsertTasksCovers(t, task.job, plan);
  }

  // A crawl page that succeeds above max_depth inserts its plan, which is made of its links and of the tables as
  // they are once the page is stored: a row for each of its tasks.
  lemma CrawlInserts(cfg: Config, t: Tables, now: int, claim: Claim, visit: Visit, r: Outcome, stored: Tables)
    returns (plan: seq<NewTask>)
    requires HandleResult(cfg, t, now, claim, visit, r) && r.ok && claim.task.job in t.jobs
    requires t.jobs[claim.task.job].kind == Crawl && claim.task.depth < t.jobs[claim.task.job].maxDepth
    requires stored == PageTables(cfg, StartTables(t, claim.task.job, t.jobs[claim.task.job], visit), claim, visit)
    ensures visit.page.Some? && PlanFor(cfg, stored, claim.task, t.jobs[claim.task.job], visit) == Some(plan)
    ensures r.tables == InsertTasks(stored, claim.task.job, plan)
  {
    plan := PlanFor(cfg, stored, claim.task, t.jobs[claim.task.job], visit).value;
  }
}
