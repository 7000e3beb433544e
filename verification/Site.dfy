// The crawl frontier over whole runs: what holds of every task ever enqueued.
module Site {
  import opened Wrappers
  import opened Text
  import opened Urls
  import opened Tables
  import opened Frontier
  import opened Protocol
  import opened Rows
  import opened Lease

  // ----- Where rows come from -----

  // The tasks the step offers to the INSERT.
  function Offered(cfg: Config, s: State, step: Step): seq<NewTask> {
    var actor := Actor(s, step);
    if step.CreateJob? then SeedTasks(step.seeds, cfg)
    else if actor.Some? && step.InsertRow? then Head(actor.value.rest)
    else if actor.Some? && step.CommitMap? then actor.value.rest
    else []
  }

  ghost predicate IsOffered(row: Task, offer: seq<NewTask>) {
    exists k :: 0 <= k < |offer| && row == FreshTask(row.job, offer[k])
  }

  lemma AddedIsOffered(t: Tables, t': Tables, j: JobId, ns: seq<NewTask>, id: TaskId)
    requires Adds(t, t', j, ns) && id in t'.tasks && id !in t.tasks
    ensures IsOffered(t'.tasks[id], ns)
  {
  }

  lemma InsertsOffer(cfg: Config, s: State, step: Step, id: TaskId)
    requires Sound(s.tables) && Enabled(cfg, s, step)
    requires step.CreateJob? || step.InsertRow? || step.CommitMap?
    requires id in NextTables(cfg, s, step).tasks && id !in s.tables.tasks
    ensures IsOffered(NextTables(cfg, s, step).tasks[id], Offered(cfg, s, step))
  {
    var t := NextTables(cfg, s, step);
    var offer := Offered(cfg, s, step);
    if step.CreateJob? {
      var created := InsertJob(s.tables, step.job);
      assert t == InsertTasks(created, s.tables.nextJob, offer);
      InsertTasksAdds(created, s.tables.nextJob, offer);
      AddedIsOffered(created, t, s.tables.nextJob, offer, id);
    } else {
      var w := s.workers[step.w];
      var base := if step.InsertRow? then s.tables else InsertMappedBatch(s.tables, MappedRows(w));
      MappedFollows(s.tables, w, s.clock);
      assert t == InsertTasks(base, w.task.job, offer);
      InsertTasksAdds(base, w.task.job, offer);
      AddedIsOffered(base, t, w.task.job, offer, id);
    }
  }

  lemma NewRowsOffered(cfg: Config, s: State, step: Step, id: TaskId)
    requires Sound(s.tables) && Enabled(cfg, s, step)
    requires id in NextTables(cfg, s, step).tasks && id !in s.tables.tasks
    ensures IsOffered(NextTables(cfg, s, step).tasks[id], Offered(cfg, s, step))
  {
    StepFollows(cfg, s, step);
    assert Added(s, step) != {};
    InsertsOffer(cfg, s, step, id);
  }

  // A row's final URL changes only by UpdateTaskFinalURL.
  ghost predicate FinalsFollow(t: Tables, t': Tables) {
    forall id :: id in t.tasks && id in t'.tasks ==> t'.tasks[id].final == t.tasks[id].final
  }

  lemma InsertsKeepFinals(cfg: Config, s: State, step: Step)
    requires Sound(s.tables) && Enabled(cfg, s, step)
    requires step.CreateJob? || step.InsertRow? || step.CommitMap?
    ensures FinalsFollow(s.tables, NextTables(cfg, s, step))
  {
    if step.CreateJob? {
      InsertTasksAdds(InsertJob(s.tables, step.job), s.tables.nextJob, SeedTasks(step.seeds, cfg));
    } else if step.InsertRow? {
      var w := s.workers[step.w];
      assert NextTables(cfg, s, step) == InsertTasks(s.tables, w.task.job, Head(w.rest));
      InsertTasksAdds(s.tables, w.task.job, Head(w.rest));
    } else {
      var w := s.workers[step.w];
      MappedFollows(s.tables, w, s.clock);
      assert NextTables(cfg, s, step)
          == InsertTasks(InsertMappedBatch(s.tables, MappedRows(w)), w.task.job, w.rest);
      InsertTasksAdds(InsertMappedBatch(s.tables, MappedRows(w)), w.task.job, w.rest);
    }
  }

  lemma StatementsKeepFinals(t: Tables, id: TaskId, now: int)
    ensures FinalsFollow(t, ClaimTask(t, id, now)) && FinalsFollow(t, CompleteTask(t, id))
    ensures FinalsFollow(t, RetryTask(t, id)) && FinalsFollow(t, FailTask(t, id))
  {
  }

  lemma LeasesKeepFinals(cfg: Config, s: State, step: Step)
    requires Enabled(cfg, s, step) && (step.Beat? || step.LateBeat? || step.SweepDelete?)
    ensures FinalsFollow(s.tables, NextTables(cfg, s, step))
  {
  }

  lemma TouchKeepsFinals(cfg: Config, s: State, step: Step)
    requires Enabled(cfg, s, step) && Touched(s, step) != {}
    ensures FinalsFollow(s.tables, NextTables(cfg, s, step))
  {
    var id :| id in Touched(s, step);
    TouchedTables(cfg, s, step, id);
    StatementsKeepFinals(s.tables, id, s.clock);
  }

  lemma FinalsStay(cfg: Config, s: State, step: Step)
    requires Sound(s.tables) && Enabled(cfg, s, step) && !step.Redirect?
    ensures FinalsFollow(s.tables, NextTables(cfg, s, step))
  {
    if step.CreateJob? || step.InsertRow? || step.CommitMap? {
      InsertsKeepFinals(cfg, s, step);
    } else if step.Beat? || step.LateBeat? || step.SweepDelete? {
      LeasesKeepFinals(cfg, s, step);
    } else if Touched(s, step) != {} {
      TouchKeepsFinals(cfg, s, step);
    } else {
      assert NextTables(cfg, s, step).tasks == s.tables.tasks;
    }
  }

  // ----- UNIQUE (job_id, final_url) -----

  lemma RedirectKeepsUnique(t: Tables, id: TaskId, final: Url)
    requires UniqueFinal(t)
    ensures UniqueFinal(UpdateTaskFinalUrl(t, id, final))
  {
  }

  lemma StepKeepsUnique(cfg: Config, s: State, step: Step)
    requires Sound(s.tables) && UniqueFinal(s.tables) && Enabled(cfg, s, step)
    ensures UniqueFinal(NextTables(cfg, s, step))
  {
    if step.Redirect? {
      assert NextTables(cfg, s, step) == UpdateTaskFinalUrl(s.tables, s.workers[step.w].id, step.url);
      RedirectKeepsUnique(s.tables, s.workers[step.w].id, step.url);
    } else if step.CreateJob? {
      InsertTasksUnique(InsertJob(s.tables, step.job), s.tables.nextJob, SeedTasks(step.seeds, cfg));
    } else if step.InsertRow? {
      var w := s.workers[step.w];
      assert NextTables(cfg, s, step) == InsertTasks(s.tables, w.task.job, Head(w.rest));
      InsertTasksUnique(s.tables, w.task.job, Head(w.rest));
    } else if step.CommitMap? {
      var w := s.workers[step.w];
      MappedFollows(s.tables, w, s.clock);
      assert NextTables(cfg, s, step)
          == InsertTasks(InsertMappedBatch(s.tables, MappedRows(w)), w.task.job, w.rest);
      InsertTasksUnique(InsertMappedBatch(s.tables, MappedRows(w)), w.task.job, w.rest);
    } else {
      StepFollows(cfg, s, step);
      FinalsStay(cfg, s, step);
      assert Added(s, step) == {};
    }
  }

  // ----- Depth, canonical keys and the start's site -----

  // GENERATIONS. A row that a worker's page adds is one level below the worker's own, and its key is its URL; a
  // row that a new job brings is at level 0, and its key is its URL's canonical form.
  lemma NewRowsDeeper(cfg: Config, states: seq<State>, steps: seq<Step>, k: nat, id: TaskId)
    requires 0 <= cfg.interval <= cfg.lease && Run(cfg, states, steps) && k < |steps|
    requires id in states[k + 1].tables.tasks && id !in states[k].tables.tasks
    ensures
      var step, row := steps[k], states[k + 1].tables.tasks[id];
      if step.CreateJob? then
        && row.depth == 0 && row.requested in step.seeds
        && row.final == Canonicalize(row.requested, cfg.crawl.stripQuery)
      else
        && ByWorker(step) && row.job == states[k].workers[step.w].task.job
        && row.depth == states[k].workers[step.w].task.depth + 1 && row.final == row.requested
  {
    RunUpTo(cfg, states, steps, k);
    LeaseExclusivity(cfg, states[..k + 1], steps[..k]);
    SiteInvHolds(cfg, states[..k + 1], steps[..k]);
    assert states[..k + 1][k] == states[k];
    if steps[k].CreateJob? {
      SeedRow(cfg, states[k], steps[k], id);
    } else {
      ChildRow(cfg, states[k], steps[k], id);
    }
  }

  lemma SeedRow(cfg: Config, s: State, step: Step, id: TaskId)
    requires Sound(s.tables) && Enabled(cfg, s, step) && step.CreateJob?
    requires id in NextTables(cfg, s, step).tasks && id !in s.tables.tasks
    ensures
      var row := NextTables(cfg, s, step).tasks[id];
      row.depth == 0 && row.requested in step.seeds && row.final == Canonicalize(row.requested, cfg.crawl.stripQuery)
  {
    NewRowsOffered(cfg, s, step, id);
    var row, offer := NextTables(cfg, s, step).tasks[id], SeedTasks(step.seeds, cfg);
    var k :| 0 <= k < |offer| && row == FreshTask(row.job, offer[k]);
    assert row.requested == step.seeds[k];
  }

  lemma ChildRow(cfg: Config, s: State, step: Step, id: TaskId)
    requires LeaseInv(cfg, s) && SiteInv(cfg, s) && Enabled(cfg, s, step) && !step.CreateJob?
    requires id in NextTables(cfg, s, step).tasks && id !in s.tables.tasks
    ensures
      var row := NextTables(cfg, s, step).tasks[id];
      && ByWorker(step) && row.job == s.workers[step.w].task.job
      && row.depth == s.workers[step.w].task.depth + 1 && row.final == row.requested
  {
    NewRowJob(cfg, s, step, id);
    NewRowsOffered(cfg, s, step, id);
    var row, offer := NextTables(cfg, s, step).tasks[id], Offered(cfg, s, step);
    var k :| 0 <= k < |offer| && row == FreshTask(row.job, offer[k]);
    OfferIsDeeper(cfg, s, step, k);
  }

  lemma OfferIsDeeper(cfg: Config, s: State, step: Step, k: nat)
    requires SiteInv(cfg, s) && Enabled(cfg, s, step) && (step.InsertRow? || step.CommitMap?)
    requires k < |Offered(cfg, s, step)| && s.workers[step.w].task.job in s.tables.jobs
    ensures
      var n := Offered(cfg, s, step)[k];
      n.depth == s.workers[step.w].task.depth + 1 && n.final == n.requested
  {
    assert WorkerAllowed(cfg, s.tables, s.workers[step.w]);
  }

  lemma NewRowJob(cfg: Config, s: State, step: Step, id: TaskId)
    requires Sound(s.tables) && Enabled(cfg, s, step)
    requires id in NextTables(cfg, s, step).tasks && id !in s.tables.tasks
    ensures NextTables(cfg, s, step).tasks[id].job in Added(s, step)
    ensures step.CreateJob? || step.InsertRow? || step.CommitMap?
    ensures !step.CreateJob? ==>
              ByWorker(step) && NextTables(cfg, s, step).tasks[id].job == s.workers[step.w].task.job
  {
    StepFollows(cfg, s, step);
  }

  // What the job allows: a depth up to its max_depth, a canonical key, and under same_domain a page
  // of the start's site.
  predicate Allowed(cfg: Config, job: Job, requested: Url, final: Url, depth: int) {
    && 0 <= depth <= job.maxDepth
    && Canonicalize(final, cfg.crawl.stripQuery) == final
    && (job.sameDomain ==> Inside(job.start, requested))
  }

  ghost predicate RowsAllowed(cfg: Config, t: Tables) {
    forall id :: id in t.tasks && t.tasks[id].job in t.jobs ==>
      Allowed(cfg, t.jobs[t.tasks[id].job], t.tasks[id].requested, t.tasks[id].final, t.tasks[id].depth)
  }

  // GetJob has answered and the answer is in use.
  predicate Informed(w: Worker) {
    w.pc == JobRead || w.pc == Fetching || w.pc == Stored || w.pc == Planned || w.pc == Succeeded
  }

  // The job as GetJob read it is still the job, but for its status.
  ghost predicate JobKnown(t: Tables, w: Worker) {
    Informed(w) && w.task.job in t.jobs ==>
      w.job == t.jobs[w.task.job].(status := w.job.status)
  }

  ghost predicate PlanAllowed(cfg: Config, t: Tables, w: Worker) {
    w.pc == Planned && w.task.job in t.jobs ==>
      forall k :: 0 <= k < |w.rest| ==>
        w.rest[k].depth == w.task.depth + 1 && w.rest[k].final == w.rest[k].requested
        && Allowed(cfg, w.job, w.rest[k].requested, w.rest[k].final, w.rest[k].depth)
  }

  // Map jobs store no document, only crawl and map jobs plan, and a crawl plan ends with its last insert.
  predicate PlanShape(w: Worker) {
    && (w.pc == Stored ==> w.job.kind != Map)
    && (w.pc == Planned ==> w.job.kind != BatchScrape && (w.job.kind == Crawl ==> w.rest != []))
  }

  ghost predicate WorkerAllowed(cfg: Config, t: Tables, w: Worker) {
    JobKnown(t, w) && PlanAllowed(cfg, t, w) && PlanShape(w)
  }

  ghost predicate SiteInv(cfg: Config, s: State) {
    && UniqueFinal(s.tables) && RowsAllowed(cfg, s.tables)
    && forall i :: 0 <= i < |s.workers| ==> WorkerAllowed(cfg, s.tables, s.workers[i])
  }

  lemma SeedsAllowed(cfg: Config, s: State, job: Job, seeds: seq<Url>)
    requires ValidRequest(s, job, seeds)
    ensures forall k :: 0 <= k < |seeds| ==>
              var n := SeedTasks(seeds, cfg)[k]; Allowed(cfg, job, n.requested, n.final, n.depth)
  {
    forall k | 0 <= k < |seeds|
      ensures var n := SeedTasks(seeds, cfg)[k]; Allowed(cfg, job, n.requested, n.final, n.depth)
    {
      CanonicalizeIdempotent(seeds[k], cfg.crawl.stripQuery);
    }
  }

  // Every link planned is canonical and, under same_domain, of the start's site if the page is.
  lemma LinksAllowed(cfg: Config, w: Worker, page: seq<Option<Url>>, sitemap: seq<Option<Url>>)
    requires w.job.sameDomain ==> Inside(w.job.start, w.task.requested)
    ensures forall u :: u in PlanLinks(cfg, w, page, sitemap) ==>
              Canonicalize(u, cfg.crawl.stripQuery) == u && (w.job.sameDomain ==> Inside(w.job.start, u))
  {
    var onStart := if w.task.depth == 0 then sitemap else [];
    CollectedLinksExact(w.task.requested, page, onStart, w.job.sameDomain, cfg.crawl);
    if w.job.sameDomain {
      CollectedLinksInside(w.job.start, w.task.requested, page, onStart, cfg.crawl);
    }
  }

  // One hop: a plan made for an allowed page is allowed.
  lemma PlannedAllowed(
      cfg: Config, t: Tables, w: Worker, page: seq<Option<Url>>, sitemap: seq<Option<Url>>, seen: set<Url>)
    requires w.job.sameDomain ==> Inside(w.job.start, w.task.requested)
    requires 0 <= w.task.depth < w.job.maxDepth
    ensures
      var plan := PlanTasks(cfg, t, w, PlanLinks(cfg, w, page, sitemap), seen);
      forall k :: 0 <= k < |plan| ==>
        plan[k].depth == w.task.depth + 1
        && Allowed(cfg, w.job, plan[k].requested, plan[k].final, plan[k].depth)
  {
    var links := PlanLinks(cfg, w, page, sitemap);
    var plan := PlanTasks(cfg, t, w, links, seen);
    LinksAllowed(cfg, w, page, sitemap);
    PlanUsesLinks(cfg, t, w, links, seen);
    forall k | 0 <= k < |plan|
      ensures plan[k].depth == w.task.depth + 1
              && Allowed(cfg, w.job, plan[k].requested, plan[k].final, plan[k].depth)
    {
      assert plan[k].final in links;
    }
  }

  lemma PlanUsesLinks(cfg: Config, t: Tables, w: Worker, links: seq<Url>, seen: set<Url>)
    ensures
      var plan := PlanTasks(cfg, t, w, links, seen);
      forall k :: 0 <= k < |plan| ==>
        plan[k].final in links && plan[k].requested == plan[k].final && plan[k].depth == w.task.depth + 1
  {
    PlannedTasksLongest(cfg.crawl, cfg.maxTasks, links, seen, w.task.depth + 1, TaskCount(t, w.task.job));
  }

  // The page a worker plans for is allowed itself.
  lemma PageIsAllowed(cfg: Config, s: State, i: nat)
    requires LeaseInv(cfg, s) && SiteInv(cfg, s) && i < |s.workers|
    requires Holding(s.workers[i]) && Informed(s.workers[i]) && s.workers[i].task.job in s.tables.jobs
    ensures
      var w := s.workers[i];
      0 <= w.task.depth && (w.job.sameDomain ==> Inside(w.job.start, w.task.requested))
  {
    var w := s.workers[i];
    WorkedJobIsPending(cfg, s, i);
    assert WorkerAllowed(cfg, s.tables, w);
    assert Allowed(cfg, s.tables.jobs[w.task.job], w.task.requested, s.tables.tasks[w.id].final, w.task.depth);
  }

  lemma PlanStepAllowed(cfg: Config, s: State, step: Step)
    requires LeaseInv(cfg, s) && SiteInv(cfg, s) && Enabled(cfg, s, step) && step.Plan?
    ensures WorkerAllowed(cfg, s.tables, NextWorker(cfg, s, s.workers[step.w], step))
  {
    var w := s.workers[step.w];
    assert WorkerAllowed(cfg, s.tables, w);
    if w.task.job in s.tables.jobs {
      PageIsAllowed(cfg, s, step.w);
    }
    PlannerAllowed(cfg, s, w, step);
  }

  lemma PlannerAllowed(cfg: Config, s: State, w: Worker, step: Step)
    requires Guard(cfg, s, w, step) && step.Plan? && WorkerAllowed(cfg, s.tables, w)
    requires w.task.job in s.tables.jobs ==>
               0 <= w.task.depth && (w.job.sameDomain ==> Inside(w.job.start, w.task.requested))
    ensures WorkerAllowed(cfg, s.tables, NextWorker(cfg, s, w, step))
  {
    assert NextWorker(cfg, s, w, step)
        == PlanWorker(cfg, s.tables, w, PlanLinks(cfg, w, step.page, step.sitemap), step.seen);
    if w.task.job in s.tables.jobs {
      PlannedAllowed(cfg, s.tables, w, step.page, step.sitemap, step.seen);
    }
  }

  // Any worker, as long as it does not plan, stays allowed while the tables move under it.
  lemma StaysAllowed(cfg: Config, s: State, step: Step, w: Worker)
    requires LeaseInv(cfg, s) && Enabled(cfg, s, step) && WorkerAllowed(cfg, s.tables, w)
    requires Busy(w) ==> w.task.job < s.tables.nextJob
    ensures WorkerAllowed(cfg, NextTables(cfg, s, step), w)
  {
    if w.task.job in NextTables(cfg, s, step).jobs {
      JobMoves(cfg, s, step, w.task.job);
    }
  }

  lemma MoverKnowsJob(cfg: Config, s: State, w: Worker, step: Step)
    requires Guard(cfg, s, w, step) && ByWorker(step) && !step.Plan? && WorkerAllowed(cfg, s.tables, w)
    ensures JobKnown(s.tables, NextWorker(cfg, s, w, step))
  {
  }

  lemma MoverPlans(cfg: Config, s: State, w: Worker, step: Step)
    requires Guard(cfg, s, w, step) && ByWorker(step) && !step.Plan? && WorkerAllowed(cfg, s.tables, w)
    ensures PlanAllowed(cfg, s.tables, NextWorker(cfg, s, w, step)) && PlanShape(NextWorker(cfg, s, w, step))
  {
  }

  lemma MoverAllowed(cfg: Config, s: State, w: Worker, step: Step)
    requires Guard(cfg, s, w, step) && ByWorker(step) && !step.Plan? && WorkerAllowed(cfg, s.tables, w)
    ensures WorkerAllowed(cfg, s.tables, NextWorker(cfg, s, w, step))
  {
    MoverKnowsJob(cfg, s, w, step);
    MoverPlans(cfg, s, w, step);
  }

  lemma MoverStaysAllowed(cfg: Config, s: State, step: Step)
    requires LeaseInv(cfg, s) && SiteInv(cfg, s) && Enabled(cfg, s, step) && ByWorker(step)
    ensures WorkerAllowed(cfg, NextTables(cfg, s, step), NextWorker(cfg, s, s.workers[step.w], step))
  {
    var w := s.workers[step.w];
    assert WorkerAllowed(cfg, s.tables, w);
    MoverKnown(cfg, s, step);
    if step.Plan? {
      PlanStepAllowed(cfg, s, step);
    } else {
      MoverAllowed(cfg, s, w, step);
    }
    StaysAllowed(cfg, s, step, NextWorker(cfg, s, w, step));
  }

  lemma OtherStaysAllowed(cfg: Config, s: State, step: Step, k: nat)
    requires LeaseInv(cfg, s) && SiteInv(cfg, s) && Enabled(cfg, s, step) && k < |s.workers|
    ensures WorkerAllowed(cfg, NextTables(cfg, s, step), s.workers[k])
  {
    assert WorkerSound(cfg, s.tables, s.clock, s.workers[k]);
    assert WorkerAllowed(cfg, s.tables, s.workers[k]);
    StaysAllowed(cfg, s, step, s.workers[k]);
  }

  lemma WorkersStayAllowed(cfg: Config, s: State, step: Step)
    requires LeaseInv(cfg, s) && SiteInv(cfg, s) && Enabled(cfg, s, step)
    ensures forall w :: w in NextWorkers(cfg, s, step) ==> WorkerAllowed(cfg, NextTables(cfg, s, step), w)
  {
    forall w | w in NextWorkers(cfg, s, step)
      ensures WorkerAllowed(cfg, NextTables(cfg, s, step), w)
    {
      if k :| 0 <= k < |s.workers| && s.workers[k] == w {
        OtherStaysAllowed(cfg, s, step, k);
      } else {
        assert w == NextWorker(cfg, s, s.workers[step.w], step);
        MoverStaysAllowed(cfg, s, step);
      }
    }
  }

  lemma MoverKnown(cfg: Config, s: State, step: Step)
    requires LeaseInv(cfg, s) && Enabled(cfg, s, step) && ByWorker(step)
    ensures Busy(NextWorker(cfg, s, s.workers[step.w], step)) ==>
              NextWorker(cfg, s, s.workers[step.w], step).task.job < s.tables.nextJob
  {
  }

  ghost predicate OfferAllowed(cfg: Config, job: Job, offer: seq<NewTask>) {
    forall k :: 0 <= k < |offer| ==> Allowed(cfg, job, offer[k].requested, offer[k].final, offer[k].depth)
  }

  lemma InsertedAreAllowed(cfg: Config, s: State, step: Step)
    requires SiteInv(cfg, s) && Enabled(cfg, s, step) && (step.InsertRow? || step.CommitMap?)
    ensures OfferAllowed(cfg, s.tables.jobs[s.workers[step.w].task.job], Offered(cfg, s, step))
  {
  }

  // What is offered to a job is allowed by it.
  lemma OffersAreAllowed(cfg: Config, s: State, step: Step, j: JobId)
    requires LeaseInv(cfg, s) && SiteInv(cfg, s) && Enabled(cfg, s, step)
    requires j in Added(s, step) && j in NextTables(cfg, s, step).jobs
    ensures OfferAllowed(cfg, NextTables(cfg, s, step).jobs[j], Offered(cfg, s, step))
  {
    JobMoves(cfg, s, step, j);
    if step.CreateJob? {
      assert j !in s.tables.jobs;
      SeedsAllowed(cfg, s, step.job, step.seeds);
    } else {
      InsertedAreAllowed(cfg, s, step);
    }
  }

  lemma NewRowAllowed(cfg: Config, s: State, step: Step, id: TaskId)
    requires LeaseInv(cfg, s) && SiteInv(cfg, s) && Enabled(cfg, s, step)
    requires id in NextTables(cfg, s, step).tasks && id !in s.tables.tasks
    requires NextTables(cfg, s, step).tasks[id].job in NextTables(cfg, s, step).jobs
    ensures
      var t := NextTables(cfg, s, step);
      Allowed(cfg, t.jobs[t.tasks[id].job], t.tasks[id].requested, t.tasks[id].final, t.tasks[id].depth)
  {
    StepFollows(cfg, s, step);
    NewRowsOffered(cfg, s, step, id);
    OffersAreAllowed(cfg, s, step, NextTables(cfg, s, step).tasks[id].job);
  }

  // A row keeps a canonical key, redirected or not.
  lemma KeyStaysCanonical(cfg: Config, s: State, step: Step, id: TaskId)
    requires Sound(s.tables) && Enabled(cfg, s, step)
    requires id in NextTables(cfg, s, step).tasks && id in s.tables.tasks
    requires Canonicalize(s.tables.tasks[id].final, cfg.crawl.stripQuery) == s.tables.tasks[id].final
    ensures
      var final := NextTables(cfg, s, step).tasks[id].final;
      Canonicalize(final, cfg.crawl.stripQuery) == final
  {
    if step.Redirect? {
      var w := s.workers[step.w];
      assert NextTables(cfg, s, step) == UpdateTaskFinalUrl(s.tables, w.id, step.url);
    } else {
      FinalsStay(cfg, s, step);
    }
  }

  lemma OldRowAllowed(cfg: Config, s: State, step: Step, id: TaskId)
    requires LeaseInv(cfg, s) && SiteInv(cfg, s) && Enabled(cfg, s, step)
    requires id in NextTables(cfg, s, step).tasks && id in s.tables.tasks
    requires NextTables(cfg, s, step).tasks[id].job in NextTables(cfg, s, step).jobs
    ensures
      var t := NextTables(cfg, s, step);
      Allowed(cfg, t.jobs[t.tasks[id].job], t.tasks[id].requested, t.tasks[id].final, t.tasks[id].depth)
  {
    var row := s.tables.tasks[id];
    assert row.job in s.tables.jobs;
    assert Allowed(cfg, s.tables.jobs[row.job], row.requested, row.final, row.depth);
    StepFollows(cfg, s, step);
    assert SameTask(row, NextTables(cfg, s, step).tasks[id]);
    JobMoves(cfg, s, step, row.job);
    KeyStaysCanonical(cfg, s, step, id);
  }

  lemma StepKeepsRowsAllowed(cfg: Config, s: State, step: Step)
    requires LeaseInv(cfg, s) && SiteInv(cfg, s) && Enabled(cfg, s, step)
    ensures RowsAllowed(cfg, NextTables(cfg, s, step))
  {
    var t := NextTables(cfg, s, step);
    forall id | id in t.tasks && t.tasks[id].job in t.jobs
      ensures Allowed(cfg, t.jobs[t.tasks[id].job], t.tasks[id].requested, t.tasks[id].final, t.tasks[id].depth)
    {
      if id in s.tables.tasks {
        OldRowAllowed(cfg, s, step, id);
      } else {
        NewRowAllowed(cfg, s, step, id);
      }
    }
  }

  lemma StepKeepsSite(cfg: Config, s: State, step: Step)
    requires LeaseInv(cfg, s) && SiteInv(cfg, s) && Enabled(cfg, s, step)
    ensures SiteInv(cfg, Apply(cfg, s, step))
  {
    StepKeepsUnique(cfg, s, step);
    StepKeepsRowsAllowed(cfg, s, step);
    WorkersStayAllowed(cfg, s, step);
  }

  lemma {:induction false} SiteInvHolds(cfg: Config, states: seq<State>, steps: seq<Step>)
    requires 0 <= cfg.interval <= cfg.lease
    requires Run(cfg, states, steps)
    ensures SiteInv(cfg, states[|steps|]) && References(states[|steps|].tables)
    decreases |steps|
  {
    LeaseExclusivity(cfg, states, steps);
    if steps == [] {
    } else {
      var n := |steps| - 1;
      Prefix(cfg, states, steps);
      SiteInvHolds(cfg, states[..|steps|], steps[..n]);
      LeaseExclusivity(cfg, states[..|steps|], steps[..n]);
      StepKeepsSite(cfg, states[n], steps[n]);
    }
  }

  // THE SITE INVARIANT. In every state of every run: (job, final_url) is unique; every row, document and
  // mapped URL belongs to an existing job; every row's depth is between 0 and the job's max_depth;
  // every key is canonical; and under same_domain every task ever enqueued is on the start's host or
  // a subdomain of it.
  lemma SiteHolds(cfg: Config, states: seq<State>, steps: seq<Step>)
    requires 0 <= cfg.interval <= cfg.lease
    requires Run(cfg, states, steps)
    ensures SiteInv(cfg, states[|steps|]) && References(states[|steps|].tables)
    ensures
      var t := states[|steps|].tables;
      forall id :: id in t.tasks ==>
        && 0 <= t.tasks[id].depth <= t.jobs[t.tasks[id].job].maxDepth
        && Canonicalize(t.tasks[id].final, cfg.crawl.stripQuery) == t.tasks[id].final
        && (t.jobs[t.tasks[id].job].sameDomain ==>
              LabelsEnd(Lower(t.jobs[t.tasks[id].job].start.name), Lower(t.tasks[id].requested.name)))
  {
    SiteInvHolds(cfg, states, steps);
    RowsOnSite(cfg, states[|steps|].tables);
  }

  lemma RowsOnSite(cfg: Config, t: Tables)
    requires RowsAllowed(cfg, t) && References(t)
    ensures
      forall id :: id in t.tasks ==>
        && 0 <= t.tasks[id].depth <= t.jobs[t.tasks[id].job].maxDepth
        && Canonicalize(t.tasks[id].final, cfg.crawl.stripQuery) == t.tasks[id].final
        && (t.jobs[t.tasks[id].job].sameDomain ==>
              LabelsEnd(Lower(t.jobs[t.tasks[id].job].start.name), Lower(t.tasks[id].requested.name)))
  {
    forall id | id in t.tasks && t.jobs[t.tasks[id].job].sameDomain
      ensures LabelsEnd(Lower(t.jobs[t.tasks[id].job].start.name), Lower(t.tasks[id].requested.name))
    {
      InsideLabels(t.jobs[t.tasks[id].job].start, t.tasks[id].requested);
    }
  }
}
