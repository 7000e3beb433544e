// Why jobs are cancelled and deleted, and the limit on a job's time: what the clock decides, over whole runs.
module Causes {
  import opened Wrappers
  import opened Tables
  import opened Protocol
  import opened Rows
  import opened Lease
  import opened Site

  // A worker's copy of a job has the creation time of the job itself.
  lemma SameCreation(cfg: Config, s: State, i: nat)
    requires SiteInv(cfg, s) && i < |s.workers| && Informed(s.workers[i]) && s.workers[i].task.job in s.tables.jobs
    ensures s.workers[i].job.createdAt == s.tables.jobs[s.workers[i].task.job].createdAt
  {
    assert WorkerAllowed(cfg, s.tables, s.workers[i]);
  }

  // MAX_DURATION. A worker cancels a job only once the job is older than a max_duration that is set, and starts
  // work on it only if it was not when the worker read it.
  lemma DeadlinesDecide(cfg: Config, states: seq<State>, steps: seq<Step>, k: nat)
    requires 0 <= cfg.interval <= cfg.lease
    requires Run(cfg, states, steps) && k < |steps| && (steps[k].CancelJob? || steps[k].StartJob?)
    requires states[k].workers[steps[k].w].task.job in states[k].tables.jobs
    ensures
      var s, w := states[k], states[k].workers[steps[k].w];
      var createdAt := s.tables.jobs[w.task.job].createdAt;
      && (steps[k].CancelJob? ==> 0 < cfg.maxDuration < s.clock - createdAt)
      && (steps[k].StartJob? ==>
            w.readAt <= s.clock && (cfg.maxDuration <= 0 || w.readAt - createdAt <= cfg.maxDuration))
  {
    var i := steps[k].w;
    RunUpTo(cfg, states, steps, k);
    LeaseExclusivity(cfg, states[..k + 1], steps[..k]);
    SiteInvHolds(cfg, states[..k + 1], steps[..k]);
    assert states[..k + 1][k] == states[k];
    assert WorkerSound(cfg, states[k].tables, states[k].clock, states[k].workers[i]);
    SameCreation(cfg, states[k], i);
  }

  // CANCELLED FOR A CAUSE. A job becomes cancelled only when its expiry has passed before it completed, or when
  // it is older than max_duration; and it is deleted only when its expiry or its deadline has passed.
  lemma CancelledForCause(cfg: Config, states: seq<State>, steps: seq<Step>, k: nat, j: JobId)
    requires 0 <= cfg.interval <= cfg.lease && Run(cfg, states, steps) && k < |steps|
    requires j in states[k].tables.jobs && j in states[k + 1].tables.jobs
    requires states[k].tables.jobs[j].status != JobCancelled && states[k + 1].tables.jobs[j].status == JobCancelled
    ensures
      var job, now := states[k].tables.jobs[j], states[k].clock;
      || (job.expiresAt.Some? && job.expiresAt.value < now
          && job.status != JobCompleted && job.status != JobCompletedWithErrors)
      || 0 < cfg.maxDuration < now - job.createdAt
  {
    RunUpTo(cfg, states, steps, k);
    LeaseExclusivity(cfg, states[..k + 1], steps[..k]);
    assert states[..k + 1][k] == states[k];
    JobMoves(cfg, states[k], steps[k], j);
    if steps[k].CancelJob? {
      DeadlinesDecide(cfg, states, steps, k);
    } else if steps[k].SweepCancel? {
      CancelledExactly(states[k].tables, states[k].clock, j);
    }
  }

  lemma DeletedForCause(cfg: Config, states: seq<State>, steps: seq<Step>, k: nat, j: JobId)
    requires 0 <= cfg.interval <= cfg.lease && Run(cfg, states, steps) && k < |steps|
    requires j in states[k].tables.jobs && j !in states[k + 1].tables.jobs
    ensures
      var job, now := states[k].tables.jobs[j], states[k].clock;
      (job.expiresAt.Some? && job.expiresAt.value < now) || (job.deadlineAt.Some? && job.deadlineAt.value < now)
  {
    RunUpTo(cfg, states, steps, k);
    LeaseExclusivity(cfg, states[..k + 1], steps[..k]);
    assert states[..k + 1][k] == states[k];
    OnlySweepDeletes(cfg, states[k], steps[k], j);
    DeletedExactly(states[k].tables, states[k].clock);
  }

  // Only the deleting sweep removes jobs.
  lemma OnlySweepDeletes(cfg: Config, s: State, step: Step, j: JobId)
    requires Sound(s.tables) && Enabled(cfg, s, step)
    requires j in s.tables.jobs && j !in NextTables(cfg, s, step).jobs
    ensures step.SweepDelete?
  {
    if step.CreateJob? || step.InsertRow? || step.CommitMap? {
      InsertsKeepJobs(cfg, s, step, j);
    }
  }

  lemma InsertsKeepJobs(cfg: Config, s: State, step: Step, j: JobId)
    requires Sound(s.tables) && Enabled(cfg, s, step) && j in s.tables.jobs
    requires step.CreateJob? || step.InsertRow? || step.CommitMap?
    ensures j in NextTables(cfg, s, step).jobs
  {
    if step.CreateJob? {
      InsertTasksDraws(InsertJob(s.tables, step.job), s.tables.nextJob, SeedTasks(step.seeds, cfg));
    } else if step.InsertRow? {
      InsertTasksDraws(s.tables, s.workers[step.w].task.job, Head(s.workers[step.w].rest));
    } else {
      var w := s.workers[step.w];
      InsertMappedBatchDraws(s.tables, MappedRows(w));
      InsertTasksDraws(InsertMappedBatch(s.tables, MappedRows(w)), w.task.job, w.rest);
    }
  }

  // ----- Work in time -----

  // Past StartJob, the job was within max_duration when it was read.
  ghost predicate InTime(cfg: Config, w: Worker) {
    w.pc == Fetching || w.pc == Stored || w.pc == Planned || w.pc == Succeeded ==>
      cfg.maxDuration <= 0 || w.readAt - w.job.createdAt <= cfg.maxDuration
  }

  lemma StaysInTime(cfg: Config, s: State, w: Worker, step: Step)
    requires Guard(cfg, s, w, step) && ByWorker(step) && InTime(cfg, w)
    ensures InTime(cfg, NextWorker(cfg, s, w, step))
  {
  }

  // In every run a worker that fetches, stores, plans or has succeeded read its job within max_duration.
  lemma {:induction false} WorkInTime(cfg: Config, states: seq<State>, steps: seq<Step>)
    requires Run(cfg, states, steps)
    ensures forall i :: 0 <= i < |states[|steps|].workers| ==> InTime(cfg, states[|steps|].workers[i])
    decreases |steps|
  {
    if steps == [] {
    } else {
      var n := |steps| - 1;
      Prefix(cfg, states, steps);
      WorkInTime(cfg, states[..|steps|], steps[..n]);
      var s, step := states[n], steps[n];
      assert states[n + 1].workers == NextWorkers(cfg, s, step);
      if ByWorker(step) {
        StaysInTime(cfg, s, s.workers[step.w], step);
      }
    }
  }
}
