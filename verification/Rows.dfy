// What one step can do to the tables: the facts every later invariant starts from.
module Rows {
  import opened Wrappers
  import opened Urls
  import opened Tables
  import opened Protocol

  // Ids come from sequences that are never rewound.
  ghost predicate FreshIds(t: Tables) {
    && (forall id :: id in t.tasks ==> id < t.nextTask)
    && (forall j :: j in t.jobs ==> j < t.nextJob)
    && (forall id :: id in t.documents ==> id < t.nextDocument)
    && (forall id :: id in t.mapped ==> id < t.nextMapped)
  }

  // The foreign keys of the schema.
  ghost predicate References(t: Tables) {
    && (forall id :: id in t.tasks ==> t.tasks[id].job in t.jobs)
    && (forall id :: id in t.documents ==> t.documents[id].job in t.jobs)
    && (forall id :: id in t.mapped ==> t.mapped[id].job in t.jobs)
  }

  ghost predicate Sound(t: Tables) {
    FreshIds(t) && References(t)
  }

  predicate SameTask(a: Task, b: Task) {
    a.job == b.job && a.requested == b.requested && a.depth == b.depth
  }

  // A row that a statement leaves alone, but for its final URL and a heartbeat at `now`.
  predicate SameState(a: Task, b: Task, now: int) {
    a.status == b.status && a.attempts == b.attempts && (b.heartbeatAt == a.heartbeatAt || b.heartbeatAt == Some(now))
  }

  // From t to t' only the rows in `touched` change state and only the jobs in `adds` get rows, which
  // are queued; rows go only with their job, and jobs come only under new ids.
  ghost predicate RowsFollow(t: Tables, t': Tables, touched: set<TaskId>, adds: set<JobId>, now: int) {
    && t.nextTask <= t'.nextTask && t.nextJob <= t'.nextJob
    && t.nextDocument <= t'.nextDocument && t.nextMapped <= t'.nextMapped
    && (forall j :: j in t'.jobs ==> j in t.jobs || j >= t.nextJob)
    && (forall id :: id in t.tasks && id in t'.tasks ==> SameTask(t.tasks[id], t'.tasks[id]))
    && (forall id :: id in t.tasks && id in t'.tasks && id !in touched ==>
          SameState(t.tasks[id], t'.tasks[id], now))
    && (forall id :: id in t.tasks && t.tasks[id].job in t'.jobs ==> id in t'.tasks)
    && (forall id :: id in t'.tasks && id !in t.tasks ==>
          t.nextTask <= id < t'.nextTask && t'.tasks[id].job in adds
          && t'.tasks[id].status == Queued && t'.tasks[id].attempts == 0)
  }

  ghost predicate Follows(t: Tables, t': Tables, touched: set<TaskId>, adds: set<JobId>, now: int) {
    Sound(t') && RowsFollow(t, t', touched, adds, now)
  }

  lemma InsertTasksFollow(t: Tables, j: JobId, ns: seq<NewTask>, now: int)
    requires Sound(t) && j in t.jobs
    ensures Follows(t, InsertTasks(t, j, ns), {}, {j}, now)
  {
    InsertTasksAdds(t, j, ns);
  }

  lemma CreateFollows(t: Tables, job: Job, ns: seq<NewTask>, now: int)
    requires Sound(t)
    ensures Follows(t, InsertTasks(InsertJob(t, job), t.nextJob, ns), {}, {t.nextJob}, now)
  {
    InsertTasksAdds(InsertJob(t, job), t.nextJob, ns);
  }

  lemma MappedFollows(t: Tables, w: Worker, now: int)
    requires Sound(t) && w.task.job in t.jobs
    ensures Follows(t, InsertMappedBatch(t, MappedRows(w)), {}, {}, now)
    ensures InsertMappedBatch(t, MappedRows(w)).tasks == t.tasks
    ensures InsertMappedBatch(t, MappedRows(w)).jobs == t.jobs
  {
    InsertMappedBatchAdds(t, MappedRows(w));
    var mapped := InsertMappedBatch(t, MappedRows(w));
    forall id | id in mapped.mapped
      ensures id < mapped.nextMapped && mapped.mapped[id].job in t.jobs
    {
      assert id in t.mapped || t.nextMapped <= id < mapped.nextMapped;
    }
  }

  lemma MapFollows(t: Tables, w: Worker, now: int)
    requires Sound(t) && w.task.job in t.jobs
    ensures Follows(t, InsertTasks(InsertMappedBatch(t, MappedRows(w)), w.task.job, w.rest), {}, {w.task.job}, now)
  {
    MappedFollows(t, w, now);
    InsertTasksFollow(InsertMappedBatch(t, MappedRows(w)), w.task.job, w.rest, now);
  }

  lemma SkipFollows(t: Tables, tasks: nat, documents: nat, mapped: nat, now: int)
    requires Sound(t)
    ensures Follows(t, SkipIds(t, tasks, documents, mapped), {}, {}, now)
  {
  }

  lemma HeartbeatFollows(t: Tables, id: TaskId, now: int)
    requires Sound(t)
    ensures Follows(t, Heartbeat(t, id, now), {}, {}, now)
  {
  }

  lemma RedirectFollows(t: Tables, id: TaskId, final: Url, now: int)
    requires Sound(t)
    ensures Follows(t, UpdateTaskFinalUrl(t, id, final), {}, {}, now)
  {
  }

  lemma ClaimFollows(t: Tables, id: TaskId, now: int)
    requires Sound(t)
    ensures Follows(t, ClaimTask(t, id, now), {id}, {}, now)
  {
  }

  lemma CompleteFollows(t: Tables, id: TaskId, now: int)
    requires Sound(t)
    ensures Follows(t, CompleteTask(t, id), {id}, {}, now)
  {
  }

  lemma FailFollows(t: Tables, id: TaskId, now: int)
    requires Sound(t)
    ensures Follows(t, FailTask(t, id), {id}, {}, now)
  {
  }

  lemma RetryFollows(t: Tables, id: TaskId, now: int)
    requires Sound(t)
    ensures Follows(t, RetryTask(t, id), {id}, {}, now)
  {
  }

  lemma StatusFollows(t: Tables, j: JobId, status: JobStatus, now: int)
    requires Sound(t)
    ensures Follows(t, SetJobStatus(t, j, status), {}, {}, now)
  {
  }

  lemma DocumentFollows(t: Tables, d: Document, now: int)
    requires Sound(t) && d.job in t.jobs
    ensures Follows(t, InsertDocument(t, d), {}, {}, now)
  {
  }

  lemma CancelFollows(t: Tables, now: int)
    requires Sound(t)
    ensures Follows(t, CancelExpired(t, now), {}, {}, now)
  {
  }

  lemma DeleteFollows(t: Tables, now: int)
    requires Sound(t)
    ensures Follows(t, DeleteExpired(t, now), {}, {}, now)
  {
  }

  lemma SeenFollows(t: Tables, seen: set<Url>, now: int)
    requires Sound(t)
    ensures Follows(t, t.(seen := seen), {}, {}, now)
  {
  }

  // The row whose state the step may change.
  function Touched(s: State, step: Step): set<TaskId> {
    var actor := Actor(s, step);
    if step.Claim? then {step.id}
    else if actor.Some? && ((step.Complete? && step.ok) || (step.Settle? && step.ok)) then {actor.value.id}
    else {}
  }

  // The job the step may add rows to.
  function Added(s: State, step: Step): set<JobId> {
    var actor := Actor(s, step);
    if step.CreateJob? then {s.tables.nextJob}
    else if actor.Some? && (step.InsertRow? || step.CommitMap?) then {actor.value.task.job}
    else {}
  }

  // What becomes of the touched row.
  lemma TouchedTables(cfg: Config, s: State, step: Step, id: TaskId)
    requires Enabled(cfg, s, step) && id in Touched(s, step)
    ensures
      if step.Claim? then NextTables(cfg, s, step) == ClaimTask(s.tables, id, s.clock)
      else
        && (step.Complete? || step.Settle?) && step.ok && id == s.workers[step.w].id
        && NextTables(cfg, s, step) ==
           if step.Complete? then CompleteTask(s.tables, id)
           else if ShouldRetry(s.workers[step.w].task.attempts, cfg.maxRetries) then RetryTask(s.tables, id)
           else FailTask(s.tables, id)
  {
  }

  // What the lemmas below show of each step.
  ghost predicate StepOk(cfg: Config, s: State, step: Step) {
    Follows(s.tables, NextTables(cfg, s, step), Touched(s, step), Added(s, step), s.clock)
  }

  lemma LeaseStepFollows(cfg: Config, s: State, step: Step)
    requires Sound(s.tables) && Enabled(cfg, s, step)
    requires step.Beat? || step.LateBeat? || step.Claim?
    ensures StepOk(cfg, s, step)
  {
    if step.Claim? {
      assert NextTables(cfg, s, step) == ClaimTask(s.tables, step.id, s.clock);
      ClaimFollows(s.tables, step.id, s.clock);
    } else {
      var id := if step.Beat? then s.workers[step.w].id else step.id;
      assert NextTables(cfg, s, step) == Heartbeat(s.tables, id, s.clock);
      assert Touched(s, step) == {} && Added(s, step) == {};
      HeartbeatFollows(s.tables, id, s.clock);
    }
  }

  lemma RedirectStepFollows(cfg: Config, s: State, step: Step)
    requires Sound(s.tables) && Enabled(cfg, s, step) && step.Redirect?
    ensures StepOk(cfg, s, step)
  {
    var id := s.workers[step.w].id;
    assert NextTables(cfg, s, step) == UpdateTaskFinalUrl(s.tables, id, step.url);
    assert Touched(s, step) == {} && Added(s, step) == {};
    RedirectFollows(s.tables, id, step.url, s.clock);
  }

  lemma FinalStepFollows(cfg: Config, s: State, step: Step)
    requires Sound(s.tables) && Enabled(cfg, s, step)
    requires step.Complete? || step.Settle?
    ensures StepOk(cfg, s, step)
  {
    var w := s.workers[step.w];
    assert Added(s, step) == {};
    if !step.ok {
      assert NextTables(cfg, s, step) == s.tables;
    } else if step.Complete? {
      assert NextTables(cfg, s, step) == CompleteTask(s.tables, w.id) && Touched(s, step) == {w.id};
      CompleteFollows(s.tables, w.id, s.clock);
    } else if ShouldRetry(w.task.attempts, cfg.maxRetries) {
      assert NextTables(cfg, s, step) == RetryTask(s.tables, w.id) && Touched(s, step) == {w.id};
      RetryFollows(s.tables, w.id, s.clock);
    } else {
      assert NextTables(cfg, s, step) == FailTask(s.tables, w.id) && Touched(s, step) == {w.id};
      FailFollows(s.tables, w.id, s.clock);
    }
  }

  lemma StatusStepFollows(cfg: Config, s: State, step: Step)
    requires Sound(s.tables) && Enabled(cfg, s, step)
    requires step.CancelJob? || step.StartJob? || step.WriteStatus?
    ensures StepOk(cfg, s, step)
  {
    var w := s.workers[step.w];
    var status :=
      if step.CancelJob? then JobCancelled else if step.StartJob? then JobRunning else FinalStatus(w.failed);
    assert NextTables(cfg, s, step) == SetJobStatus(s.tables, w.task.job, status)
           || NextTables(cfg, s, step) == s.tables;
    assert Touched(s, step) == {} && Added(s, step) == {};
    StatusFollows(s.tables, w.task.job, status, s.clock);
  }

  lemma InsertStepFollows(cfg: Config, s: State, step: Step)
    requires Sound(s.tables) && Enabled(cfg, s, step)
    requires step.CreateJob? || step.InsertRow? || step.CommitMap?
    ensures StepOk(cfg, s, step)
  {
    assert Touched(s, step) == {};
    if step.CreateJob? {
      var ns := SeedTasks(step.seeds, cfg);
      assert NextTables(cfg, s, step) == InsertTasks(InsertJob(s.tables, step.job), s.tables.nextJob, ns);
      CreateFollows(s.tables, step.job, ns, s.clock);
    } else if step.InsertRow? {
      var w := s.workers[step.w];
      assert NextTables(cfg, s, step) == InsertTasks(s.tables, w.task.job, Head(w.rest));
      InsertTasksFollow(s.tables, w.task.job, Head(w.rest), s.clock);
    } else {
      var w := s.workers[step.w];
      assert NextTables(cfg, s, step)
          == InsertTasks(InsertMappedBatch(s.tables, MappedRows(w)), w.task.job, w.rest);
      MapFollows(s.tables, w, s.clock);
    }
  }

  lemma OtherStepFollows(cfg: Config, s: State, step: Step)
    requires Sound(s.tables) && Enabled(cfg, s, step)
    requires step.StoreDocument? || step.SweepCancel? || step.SweepDelete? || step.DrawIds?
    ensures StepOk(cfg, s, step)
  {
    assert Touched(s, step) == {} && Added(s, step) == {};
    if step.StoreDocument? {
      var d := Document(s.workers[step.w].task.job, s.workers[step.w].task.requested, step.url);
      assert NextTables(cfg, s, step) == InsertDocument(s.tables, d);
      DocumentFollows(s.tables, d, s.clock);
    } else if step.SweepCancel? {
      assert NextTables(cfg, s, step) == CancelExpired(s.tables, s.clock);
      CancelFollows(s.tables, s.clock);
    } else if step.SweepDelete? {
      assert NextTables(cfg, s, step) == DeleteExpired(s.tables, s.clock);
      DeleteFollows(s.tables, s.clock);
    } else {
      assert NextTables(cfg, s, step) == SkipIds(s.tables, step.tasks, step.documents, step.mapped);
      SkipFollows(s.tables, step.tasks, step.documents, step.mapped, s.clock);
    }
  }

  // Steps that leave every row as it is.
  lemma LocalStepFollows(cfg: Config, s: State, step: Step)
    requires Sound(s.tables) && Enabled(cfg, s, step)
    requires
      || step.Tick? || step.Crash? || step.ReadJob? || step.Stop? || step.Plan? || step.Fail?
      || step.CountPending? || step.ReadFailed? || step.AbandonFinish?
    ensures StepOk(cfg, s, step)
  {
    assert NextTables(cfg, s, step) == s.tables;
    assert Touched(s, step) == {} && Added(s, step) == {};
    SeenFollows(s.tables, s.tables.seen, s.clock);
  }

  lemma MarkStepFollows(cfg: Config, s: State, step: Step)
    requires Sound(s.tables) && Enabled(cfg, s, step) && step.MarkSeen?
    ensures StepOk(cfg, s, step)
  {
    var seen := NextTables(cfg, s, step).seen;
    assert NextTables(cfg, s, step) == s.tables.(seen := seen);
    assert Touched(s, step) == {} && Added(s, step) == {};
    SeenFollows(s.tables, seen, s.clock);
  }

  lemma StepFollows(cfg: Config, s: State, step: Step)
    requires Sound(s.tables) && Enabled(cfg, s, step)
    ensures StepOk(cfg, s, step)
  {
    if step.Beat? || step.LateBeat? || step.Claim? {
      LeaseStepFollows(cfg, s, step);
    } else if step.Redirect? {
      RedirectStepFollows(cfg, s, step);
    } else if step.Complete? || step.Settle? {
      FinalStepFollows(cfg, s, step);
    } else if step.CancelJob? || step.StartJob? || step.WriteStatus? {
      StatusStepFollows(cfg, s, step);
    } else if step.CreateJob? || step.InsertRow? || step.CommitMap? {
      InsertStepFollows(cfg, s, step);
    } else if step.StoreDocument? || step.SweepCancel? || step.SweepDelete? || step.DrawIds? {
      OtherStepFollows(cfg, s, step);
    } else if step.MarkSeen? {
      MarkStepFollows(cfg, s, step);
    } else {
      LocalStepFollows(cfg, s, step);
    }
  }

  // How the step leaves job j: as it was, but for its status.
  predicate StatusMoves(s: State, step: Step, j: JobId, before: JobStatus, after: JobStatus) {
    var actor := Actor(s, step);
    || after == before
    || (step.SweepCancel? && after == JobCancelled && !Finished(before))
    || (actor.Some? && actor.value.task.job == j
        && (|| (step.CancelJob? && after == JobCancelled)
            || (step.StartJob? && after == JobRunning)
            || (step.WriteStatus? && after == FinalStatus(actor.value.failed))))
  }

  ghost predicate JobFollows(cfg: Config, s: State, step: Step, j: JobId)
    requires j in NextTables(cfg, s, step).jobs
  {
    var job' := NextTables(cfg, s, step).jobs[j];
    if j !in s.tables.jobs then step.CreateJob? && j == s.tables.nextJob && job' == step.job
    else
      && job' == s.tables.jobs[j].(status := job'.status)
      && StatusMoves(s, step, j, s.tables.jobs[j].status, job'.status)
  }

  lemma InsertsLeaveJobs(cfg: Config, s: State, step: Step, j: JobId)
    requires Sound(s.tables) && Enabled(cfg, s, step) && j in NextTables(cfg, s, step).jobs
    requires step.CreateJob? || step.InsertRow? || step.CommitMap?
    ensures JobFollows(cfg, s, step, j)
  {
    if step.CreateJob? {
      InsertTasksAdds(InsertJob(s.tables, step.job), s.tables.nextJob, SeedTasks(step.seeds, cfg));
    } else if step.InsertRow? {
      InsertTasksAdds(s.tables, s.workers[step.w].task.job, Head(s.workers[step.w].rest));
    } else {
      var w := s.workers[step.w];
      MappedFollows(s.tables, w, s.clock);
      InsertTasksAdds(InsertMappedBatch(s.tables, MappedRows(w)), w.task.job, w.rest);
    }
  }

  lemma StatusesMove(cfg: Config, s: State, step: Step, j: JobId)
    requires Sound(s.tables) && Enabled(cfg, s, step) && j in NextTables(cfg, s, step).jobs
    requires step.CancelJob? || step.StartJob? || step.WriteStatus? || step.SweepCancel? || step.SweepDelete?
    ensures JobFollows(cfg, s, step, j)
  {
  }

  lemma JobMoves(cfg: Config, s: State, step: Step, j: JobId)
    requires Sound(s.tables) && Enabled(cfg, s, step) && j in NextTables(cfg, s, step).jobs
    ensures JobFollows(cfg, s, step, j)
  {
    if step.CreateJob? || step.InsertRow? || step.CommitMap? {
      InsertsLeaveJobs(cfg, s, step, j);
    } else if step.CancelJob? || step.StartJob? || step.WriteStatus? || step.SweepCancel? || step.SweepDelete? {
      StatusesMove(cfg, s, step, j);
    } else {
      assert NextTables(cfg, s, step).jobs == s.tables.jobs;
    }
  }

  lemma NewJobs(cfg: Config, s: State, step: Step, j: JobId)
    requires Sound(s.tables) && Enabled(cfg, s, step) && j in NextTables(cfg, s, step).jobs && j !in s.tables.jobs
    ensures step.CreateJob? && j == s.tables.nextJob && NextTables(cfg, s, step).jobs[j] == step.job
  {
    JobMoves(cfg, s, step, j);
  }
}
