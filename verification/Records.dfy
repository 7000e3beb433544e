// What the documents and mapped rows of a run say: each comes from a row of its job.
module Records {
  import opened Wrappers
  import opened Text
  import opened Urls
  import opened Tables
  import opened Frontier
  import opened Protocol
  import opened Rows
  import opened Lease
  import opened Site
  import opened Listings

  // Some row of job j asked for the page.
  ghost predicate Asked(t: Tables, j: JobId, requested: Url) {
    exists id :: id in t.tasks && t.tasks[id].job == j && t.tasks[id].requested == requested
  }

  // ... at the depth above `depth`.
  ghost predicate AskedAbove(t: Tables, j: JobId, requested: Url, depth: int) {
    exists id :: id in t.tasks && t.tasks[id].job == j && t.tasks[id].requested == requested
                 && t.tasks[id].depth == depth - 1
  }

  // A link that the job lets be mapped: canonical and, under same_domain, of the start's site.
  predicate LinkAllowed(cfg: Config, job: Job, link: Url) {
    Canonicalize(link, cfg.crawl.stripQuery) == link && (job.sameDomain ==> Inside(job.start, link))
  }

  ghost predicate MappedSound(cfg: Config, t: Tables, m: MappedUrl)
    requires m.job in t.jobs
  {
    var job := t.jobs[m.job];
    && job.kind == Map && 1 <= m.depth <= job.maxDepth
    && AskedAbove(t, m.job, m.source, m.depth) && LinkAllowed(cfg, job, m.target)
  }

  ghost predicate RecordsSound(cfg: Config, t: Tables) {
    && (forall d :: d in t.documents ==> Asked(t, t.documents[d].job, t.documents[d].requested))
    && (forall m :: m in t.mapped && t.mapped[m].job in t.jobs ==> MappedSound(cfg, t, t.mapped[m]))
  }

  // The links a worker is about to commit.
  predicate LinksSound(cfg: Config, w: Worker) {
    w.pc == Planned ==> w.task.depth < w.job.maxDepth && forall u :: u in w.links ==> LinkAllowed(cfg, w.job, u)
  }

  ghost predicate LinksInv(cfg: Config, s: State) {
    forall i :: 0 <= i < |s.workers| && s.workers[i].task.job in s.tables.jobs ==> LinksSound(cfg, s.workers[i])
  }

  // ----- The links planned -----

  lemma PlannedLinksSound(cfg: Config, s: State, step: Step)
    requires LeaseInv(cfg, s) && SiteInv(cfg, s) && Enabled(cfg, s, step) && step.Plan?
    requires s.workers[step.w].task.job in s.tables.jobs
    ensures LinksSound(cfg, NextWorker(cfg, s, s.workers[step.w], step))
  {
    var w := s.workers[step.w];
    var links := PlanLinks(cfg, w, step.page, step.sitemap);
    PageIsAllowed(cfg, s, step.w);
    LinksAllowed(cfg, w, step.page, step.sitemap);
    PlanKeepsLinks(cfg, s.tables, w, links, step.seen);
  }

  lemma PlanKeepsLinks(cfg: Config, t: Tables, w: Worker, links: seq<Url>, seen: set<Url>)
    ensures
      var w' := PlanWorker(cfg, t, w, links, seen);
      w'.pc == Planned ==> w'.links == links && w'.job == w.job && w'.task == w.task
  {
  }

  lemma MoverLinksSound(cfg: Config, s: State, step: Step)
    requires LeaseInv(cfg, s) && SiteInv(cfg, s) && LinksInv(cfg, s) && Enabled(cfg, s, step) && ByWorker(step)
    requires NextWorker(cfg, s, s.workers[step.w], step).task.job in s.tables.jobs
    ensures LinksSound(cfg, NextWorker(cfg, s, s.workers[step.w], step))
  {
    if step.Plan? {
      PlannedLinksSound(cfg, s, step);
    } else if NextWorker(cfg, s, s.workers[step.w], step).pc == Planned {
      StillPlanned(cfg, s, s.workers[step.w], step);
    }
  }

  lemma StillPlanned(cfg: Config, s: State, w: Worker, step: Step)
    requires Guard(cfg, s, w, step) && ByWorker(step) && !step.Plan? && NextWorker(cfg, s, w, step).pc == Planned
    ensures var w' := NextWorker(cfg, s, w, step);
            w.pc == Planned && w'.task == w.task && w'.job == w.job && w'.links == w.links
  {
  }

  lemma StepKeepsLinks(cfg: Config, s: State, step: Step)
    requires LeaseInv(cfg, s) && SiteInv(cfg, s) && LinksInv(cfg, s) && Enabled(cfg, s, step)
    ensures LinksInv(cfg, Apply(cfg, s, step))
  {
    var next := Apply(cfg, s, step);
    forall i | 0 <= i < |next.workers| && next.workers[i].task.job in next.tables.jobs && next.workers[i].pc == Planned
      ensures LinksSound(cfg, next.workers[i])
    {
      if ByWorker(step) && step.w == i {
        assert next.workers[i] == NextWorker(cfg, s, s.workers[i], step);
        OldJob(cfg, s, step, next.workers[i].task.job);
        MoverLinksSound(cfg, s, step);
      } else {
        assert next.workers[i] == s.workers[i] && WorkerSound(cfg, s.tables, s.clock, s.workers[i]);
        if step.CreateJob? {
          KnownJob(cfg, s, step, s.workers[i].task.job);
        } else {
          OldJob(cfg, s, step, s.workers[i].task.job);
        }
      }
    }
  }

  lemma OldJob(cfg: Config, s: State, step: Step, j: JobId)
    requires Sound(s.tables) && Enabled(cfg, s, step) && !step.CreateJob? && j in NextTables(cfg, s, step).jobs
    ensures j in s.tables.jobs
  {
    JobMoves(cfg, s, step, j);
  }

  lemma KnownJob(cfg: Config, s: State, step: Step, j: JobId)
    requires Sound(s.tables) && Enabled(cfg, s, step) && j in NextTables(cfg, s, step).jobs && j < s.tables.nextJob
    ensures j in s.tables.jobs
  {
    JobMoves(cfg, s, step, j);
  }

  // ----- Where records come from -----

  lemma InsertsAddNoRecords(cfg: Config, s: State, step: Step)
    requires Enabled(cfg, s, step) && !step.StoreDocument? && !step.CommitMap?
    ensures var t := NextTables(cfg, s, step);
            && (forall d :: d in t.documents ==> d in s.tables.documents && t.documents[d] == s.tables.documents[d])
            && (forall m :: m in t.mapped ==> m in s.tables.mapped && t.mapped[m] == s.tables.mapped[m])
  {
    if step.SweepDelete? {
      DeletedExactly(s.tables, s.clock);
      assert NextTables(cfg, s, step) == DeleteExpired(s.tables, s.clock);
    } else if step.CreateJob? || step.InsertRow? {
      InsertsKeepRecords(cfg, s, step);
    } else {
      OthersKeepRecords(cfg, s, step);
    }
  }

  // The row a worker holds asked for its page.
  lemma HolderAsked(cfg: Config, s: State, i: nat)
    requires LeaseInv(cfg, s) && i < |s.workers| && Holding(s.workers[i]) && s.workers[i].task.job in s.tables.jobs
    ensures
      var w := s.workers[i];
      && Asked(s.tables, w.task.job, w.task.requested)
      && AskedAbove(s.tables, w.task.job, w.task.requested, w.task.depth + 1)
  {
    WorkedJobIsPending(cfg, s, i);
    var row := s.tables.tasks[s.workers[i].id];
    assert SameTask(row, s.workers[i].task);
  }

  // Rows stay as long as their jobs do.
  lemma RowStays(cfg: Config, s: State, step: Step, id: TaskId)
    requires Sound(s.tables) && Enabled(cfg, s, step)
    requires id in s.tables.tasks && s.tables.tasks[id].job in NextTables(cfg, s, step).jobs
    ensures id in NextTables(cfg, s, step).tasks
    ensures SameTask(s.tables.tasks[id], NextTables(cfg, s, step).tasks[id])
  {
    StepFollows(cfg, s, step);
  }

  lemma AskedStays(cfg: Config, s: State, step: Step, j: JobId, requested: Url)
    requires Sound(s.tables) && Enabled(cfg, s, step) && j in NextTables(cfg, s, step).jobs
    requires Asked(s.tables, j, requested)
    ensures Asked(NextTables(cfg, s, step), j, requested)
  {
    var id :| id in s.tables.tasks && s.tables.tasks[id].job == j && s.tables.tasks[id].requested == requested;
    RowStays(cfg, s, step, id);
  }

  lemma AskedAboveStays(cfg: Config, s: State, step: Step, j: JobId, requested: Url, depth: int)
    requires Sound(s.tables) && Enabled(cfg, s, step) && j in NextTables(cfg, s, step).jobs
    requires AskedAbove(s.tables, j, requested, depth)
    ensures AskedAbove(NextTables(cfg, s, step), j, requested, depth)
  {
    var id :| id in s.tables.tasks && s.tables.tasks[id].job == j && s.tables.tasks[id].requested == requested
              && s.tables.tasks[id].depth == depth - 1;
    RowStays(cfg, s, step, id);
  }

  // A document of the next state was there, or is the one that StoreDocument adds.
  lemma DocumentAsked(cfg: Config, s: State, step: Step, d: Serial)
    requires LeaseInv(cfg, s) && RecordsSound(cfg, s.tables) && Enabled(cfg, s, step)
    requires d in NextTables(cfg, s, step).documents
    ensures var row := NextTables(cfg, s, step).documents[d]; Asked(s.tables, row.job, row.requested)
  {
    if step.StoreDocument? {
      var w := s.workers[step.w];
      HolderAsked(cfg, s, step.w);
      assert NextTables(cfg, s, step) == InsertDocument(s.tables, Document(w.task.job, w.task.requested, step.url));
    } else if step.CommitMap? {
      CommitAddsLinks(cfg, s, step);
    } else {
      InsertsAddNoRecords(cfg, s, step);
    }
  }

  lemma DocumentsStaySound(cfg: Config, s: State, step: Step)
    requires LeaseInv(cfg, s) && RecordsSound(cfg, s.tables) && Enabled(cfg, s, step)
    ensures
      var t := NextTables(cfg, s, step);
      forall d :: d in t.documents ==> Asked(t, t.documents[d].job, t.documents[d].requested)
  {
    var t := NextTables(cfg, s, step);
    StepFollows(cfg, s, step);
    forall d | d in t.documents
      ensures Asked(t, t.documents[d].job, t.documents[d].requested)
    {
      DocumentAsked(cfg, s, step, d);
      AskedStays(cfg, s, step, t.documents[d].job, t.documents[d].requested);
    }
  }

  // The map transaction adds rows for the worker's links, and no document.
  lemma CommitAddsLinks(cfg: Config, s: State, step: Step)
    requires FreshIds(s.tables) && Enabled(cfg, s, step) && step.CommitMap?
    ensures
      var t, w := NextTables(cfg, s, step), s.workers[step.w];
      && t.documents == s.tables.documents && t.jobs == s.tables.jobs
      && forall m :: m in t.mapped ==>
           || (m in s.tables.mapped && t.mapped[m] == s.tables.mapped[m])
           || exists k :: 0 <= k < |w.links|
                && t.mapped[m] == MappedUrl(w.task.job, w.task.requested, w.links[k], w.task.depth + 1)
  {
    var t, w := NextTables(cfg, s, step), s.workers[step.w];
    assert t == InsertTasks(InsertMappedBatch(s.tables, MappedRows(w)), w.task.job, w.rest);
    InsertMappedBatchAdds(s.tables, MappedRows(w));
    InsertTasksDraws(InsertMappedBatch(s.tables, MappedRows(w)), w.task.job, w.rest);
    forall m | m in t.mapped && m !in s.tables.mapped
      ensures exists k :: 0 <= k < |w.links|
                && t.mapped[m] == MappedUrl(w.task.job, w.task.requested, w.links[k], w.task.depth + 1)
    {
      var k := m - s.tables.nextMapped;
      assert t.mapped[m] == MappedRows(w)[k];
    }
  }

  lemma OldMappedSound(cfg: Config, s: State, step: Step, m: MappedUrl)
    requires Sound(s.tables) && Enabled(cfg, s, step)
    requires m.job in s.tables.jobs && m.job in NextTables(cfg, s, step).jobs && MappedSound(cfg, s.tables, m)
    ensures MappedSound(cfg, NextTables(cfg, s, step), m)
  {
    AskedAboveStays(cfg, s, step, m.job, m.source, m.depth);
    JobMoves(cfg, s, step, m.job);
  }

  lemma NewMappedSound(cfg: Config, s: State, step: Step, link: Url)
    requires LeaseInv(cfg, s) && SiteInv(cfg, s) && LinksInv(cfg, s) && Enabled(cfg, s, step) && step.CommitMap?
    requires link in s.workers[step.w].links
    ensures
      var w := s.workers[step.w];
      && w.task.job in s.tables.jobs
      && MappedSound(cfg, s.tables, MappedUrl(w.task.job, w.task.requested, link, w.task.depth + 1))
  {
    var w := s.workers[step.w];
    HolderAsked(cfg, s, step.w);
    PageIsDeep(cfg, s, step.w);
    assert LinksSound(cfg, w) && WorkerAllowed(cfg, s.tables, w);
  }

  lemma PageIsDeep(cfg: Config, s: State, i: nat)
    requires LeaseInv(cfg, s) && SiteInv(cfg, s) && i < |s.workers| && Holding(s.workers[i])
    requires Informed(s.workers[i]) && s.workers[i].task.job in s.tables.jobs
    ensures 0 <= s.workers[i].task.depth
  {
    PageIsAllowed(cfg, s, i);
  }

  lemma MappedStaysSound(cfg: Config, s: State, step: Step)
    requires LeaseInv(cfg, s) && SiteInv(cfg, s) && LinksInv(cfg, s) && RecordsSound(cfg, s.tables)
    requires Enabled(cfg, s, step)
    ensures
      var t := NextTables(cfg, s, step);
      forall m :: m in t.mapped && t.mapped[m].job in t.jobs ==> MappedSound(cfg, t, t.mapped[m])
  {
    var t := NextTables(cfg, s, step);
    forall m | m in t.mapped && t.mapped[m].job in t.jobs
      ensures MappedSound(cfg, t, t.mapped[m])
    {
      MappedRowSound(cfg, s, step, m);
    }
  }

  // A mapped row of the next state was there, or is one that CommitMap adds.
  lemma MappedRowFound(cfg: Config, s: State, step: Step, m: Serial)
    requires LeaseInv(cfg, s) && SiteInv(cfg, s) && LinksInv(cfg, s) && RecordsSound(cfg, s.tables)
    requires Enabled(cfg, s, step) && m in NextTables(cfg, s, step).mapped
    requires !step.CommitMap?
    ensures m in s.tables.mapped && NextTables(cfg, s, step).mapped[m] == s.tables.mapped[m]
  {
    if step.StoreDocument? {
      var w := s.workers[step.w];
      assert NextTables(cfg, s, step) == InsertDocument(s.tables, Document(w.task.job, w.task.requested, step.url));
    } else {
      InsertsAddNoRecords(cfg, s, step);
    }
  }

  lemma CommittedRow(cfg: Config, s: State, step: Step, m: Serial) returns (link: Url)
    requires FreshIds(s.tables) && Enabled(cfg, s, step) && step.CommitMap?
    requires m in NextTables(cfg, s, step).mapped
    requires !(m in s.tables.mapped && NextTables(cfg, s, step).mapped[m] == s.tables.mapped[m])
    ensures
      var w := s.workers[step.w];
      && link in w.links
      && NextTables(cfg, s, step).mapped[m] == MappedUrl(w.task.job, w.task.requested, link, w.task.depth + 1)
  {
    var w := s.workers[step.w];
    CommitAddsLinks(cfg, s, step);
    var k :| 0 <= k < |w.links| && NextTables(cfg, s, step).mapped[m]
                                   == MappedUrl(w.task.job, w.task.requested, w.links[k], w.task.depth + 1);
    link := w.links[k];
  }

  lemma CommittedRowSound(cfg: Config, s: State, step: Step, m: Serial)
    requires LeaseInv(cfg, s) && SiteInv(cfg, s) && LinksInv(cfg, s) && RecordsSound(cfg, s.tables)
    requires Enabled(cfg, s, step) && step.CommitMap? && m in NextTables(cfg, s, step).mapped
    ensures
      var row := NextTables(cfg, s, step).mapped[m];
      row.job in s.tables.jobs ==> MappedSound(cfg, s.tables, row)
  {
    if !(m in s.tables.mapped && NextTables(cfg, s, step).mapped[m] == s.tables.mapped[m]) {
      var link := CommittedRow(cfg, s, step, m);
      NewMappedSound(cfg, s, step, link);
    }
  }

  lemma MappedRowSound(cfg: Config, s: State, step: Step, m: Serial)
    requires LeaseInv(cfg, s) && SiteInv(cfg, s) && LinksInv(cfg, s) && RecordsSound(cfg, s.tables)
    requires Enabled(cfg, s, step)
    requires m in NextTables(cfg, s, step).mapped
    requires NextTables(cfg, s, step).mapped[m].job in NextTables(cfg, s, step).jobs
    ensures MappedSound(cfg, NextTables(cfg, s, step), NextTables(cfg, s, step).mapped[m])
  {
    if step.CommitMap? {
      OldJob(cfg, s, step, NextTables(cfg, s, step).mapped[m].job);
      CommittedRowSound(cfg, s, step, m);
    } else {
      MappedRowFound(cfg, s, step, m);
    }
    OldMappedSound(cfg, s, step, NextTables(cfg, s, step).mapped[m]);
  }

  // ----- Whole runs -----

  // RECORDS. In every run each document is of a page that some row of its job asked for; and each mapped row
  // belongs to a map job, was found on a page that some row of the job one level above asked for, lies within
  // max_depth, is canonical and, under same_domain, on the start's site.
  lemma {:induction false} RecordsHold(cfg: Config, states: seq<State>, steps: seq<Step>)
    requires 0 <= cfg.interval <= cfg.lease
    requires Run(cfg, states, steps)
    ensures RecordsSound(cfg, states[|steps|].tables) && LinksInv(cfg, states[|steps|])
    decreases |steps|
  {
    if steps == [] {
    } else {
      var n := |steps| - 1;
      Prefix(cfg, states, steps);
      RecordsHold(cfg, states[..|steps|], steps[..n]);
      LeaseExclusivity(cfg, states[..|steps|], steps[..n]);
      SiteInvHolds(cfg, states[..|steps|], steps[..n]);
      DocumentsStaySound(cfg, states[n], steps[n]);
      MappedStaysSound(cfg, states[n], steps[n]);
      StepKeepsLinks(cfg, states[n], steps[n]);
    }
  }
}
