// Leases: what every run keeps, whatever workers crash and whatever statements fail, as long as
// heartbeats land within the lease.
module Lease {
  import opened Wrappers
  import opened Tables
  import opened Protocol
  import opened Rows

  // A row under lease: it is still as it was claimed, and its heartbeat is at least the worker's.
  ghost predicate Leased(row: Task, w: Worker) {
    && SameTask(row, w.task) && row.status == Processing && row.attempts == w.task.attempts
    && row.heartbeatAt.Some? && w.beat <= row.heartbeatAt.value
  }

  // The row outlives the claim unless its whole job is deleted.
  ghost predicate HoldsLease(cfg: Config, t: Tables, clock: int, w: Worker) {
    && w.beat <= clock <= w.beat + cfg.interval
    && (w.task.job in t.jobs ==> w.id in t.tasks)
    && (w.id in t.tasks ==> Leased(t.tasks[w.id], w))
  }

  ghost predicate WorkerSound(cfg: Config, t: Tables, clock: int, w: Worker) {
    && (Busy(w) ==> w.id < t.nextTask && w.task.job < t.nextJob)
    && (w.pc == JobRead ==> w.readAt <= clock)
    && (Holding(w) ==> HoldsLease(cfg, t, clock, w))
  }

  ghost predicate Leases(cfg: Config, s: State) {
    forall i :: 0 <= i < |s.workers| ==> WorkerSound(cfg, s.tables, s.clock, s.workers[i])
  }

  // No two workers are inside handleTask for the same row.
  ghost predicate Exclusive(workers: seq<Worker>) {
    forall i, k | 0 <= i < |workers| && 0 <= k < |workers| && i != k ::
      Holding(workers[i]) && Holding(workers[k]) ==> workers[i].id != workers[k].id
  }

  ghost predicate LeaseInv(cfg: Config, s: State) {
    Sound(s.tables) && Leases(cfg, s) && Exclusive(s.workers)
  }

  // The row a step touches is held by nobody but, for CompleteTask, RetryTask and FailTask, by the
  // worker that steps: a claimed row was queued or its lease had run out.
  lemma TouchedIsFree(cfg: Config, s: State, step: Step, k: nat)
    requires cfg.interval <= cfg.lease
    requires LeaseInv(cfg, s) && Enabled(cfg, s, step)
    requires k < |s.workers| && Holding(s.workers[k]) && (ByWorker(step) && step.w == k ==> step.Claim?)
    ensures s.workers[k].id !in Touched(s, step)
  {
  }

  // A worker whose row is not touched keeps its lease.
  lemma LeaseStands(
      cfg: Config, t: Tables, t': Tables, touched: set<TaskId>, adds: set<JobId>, clock: int, w: Worker)
    requires Sound(t) && Follows(t, t', touched, adds, clock)
    requires WorkerSound(cfg, t, clock, w) && (Holding(w) ==> w.id !in touched)
    ensures WorkerSound(cfg, t', clock, w)
  {
  }

  // How the worker that steps gets its new claim, if it has one.
  lemma MoverClaim(cfg: Config, s: State, step: Step)
    requires Enabled(cfg, s, step) && ByWorker(step)
    ensures
      var w, w' := s.workers[step.w], NextWorker(cfg, s, s.workers[step.w], step);
      && (!step.Claim? ==> w'.id == w.id && w'.task == w.task && (Busy(w') ==> Busy(w)) && (Holding(w') ==> Holding(w)))
      && (!step.Claim? && !step.Beat? ==> w'.beat == w.beat)
      && ((step.Complete? || step.Settle?) ==> !Holding(w'))
  {
  }

  lemma MoverSound(cfg: Config, s: State, step: Step)
    requires 0 <= cfg.interval
    requires LeaseInv(cfg, s) && Enabled(cfg, s, step) && ByWorker(step)
    ensures WorkerSound(cfg, NextTables(cfg, s, step), s.clock, NextWorker(cfg, s, s.workers[step.w], step))
  {
    var w := s.workers[step.w];
    assert WorkerSound(cfg, s.tables, s.clock, w);
    StepFollows(cfg, s, step);
    MoverClaim(cfg, s, step);
    if !step.Claim? && !step.Beat? && Touched(s, step) == {} {
      LeaseStands(cfg, s.tables, NextTables(cfg, s, step), {}, Added(s, step), s.clock, w);
    }
  }

  lemma LeasesKept(cfg: Config, s: State, step: Step)
    requires 0 <= cfg.interval <= cfg.lease
    requires LeaseInv(cfg, s) && Enabled(cfg, s, step) && !step.Tick?
    ensures Leases(cfg, Apply(cfg, s, step))
  {
    var s' := Apply(cfg, s, step);
    StepFollows(cfg, s, step);
    forall k | 0 <= k < |s'.workers|
      ensures WorkerSound(cfg, s'.tables, s'.clock, s'.workers[k])
    {
      if ByWorker(step) && step.w == k {
        MoverSound(cfg, s, step);
      } else {
        assert WorkerSound(cfg, s.tables, s.clock, s.workers[k]);
        if Holding(s.workers[k]) {
          TouchedIsFree(cfg, s, step, k);
        }
        LeaseStands(cfg, s.tables, s'.tables, Touched(s, step), Added(s, step), s.clock, s.workers[k]);
      }
    }
  }

  lemma ExclusiveKept(cfg: Config, s: State, step: Step)
    requires cfg.interval <= cfg.lease
    requires LeaseInv(cfg, s) && Enabled(cfg, s, step)
    ensures Exclusive(Apply(cfg, s, step).workers)
  {
    if ByWorker(step) {
      MoverClaim(cfg, s, step);
      if step.Claim? {
        forall k | 0 <= k < |s.workers| && Holding(s.workers[k])
          ensures s.workers[k].id != step.id
        {
          TouchedIsFree(cfg, s, step, k);
        }
      }
    }
  }

  lemma StepKeepsLeases(cfg: Config, s: State, step: Step)
    requires 0 <= cfg.interval <= cfg.lease
    requires LeaseInv(cfg, s) && Enabled(cfg, s, step)
    ensures LeaseInv(cfg, Apply(cfg, s, step))
  {
    StepFollows(cfg, s, step);
    ExclusiveKept(cfg, s, step);
    if step.Tick? {
      forall k | 0 <= k < |s.workers|
        ensures WorkerSound(cfg, s.tables, step.time, s.workers[k])
      {
        assert WorkerSound(cfg, s.tables, s.clock, s.workers[k]);
      }
    } else {
      LeasesKept(cfg, s, step);
    }
  }

  // LEASE EXCLUSIVITY. In every state of every run, however many workers there are, whatever crashes
  // and whichever statements fail, no two workers are inside handleTask for the same row.
  lemma {:induction false} LeaseExclusivity(cfg: Config, states: seq<State>, steps: seq<Step>)
    requires 0 <= cfg.interval <= cfg.lease
    requires Run(cfg, states, steps)
    ensures LeaseInv(cfg, states[|steps|]) && Exclusive(states[|steps|].workers)
    decreases |steps|
  {
    if steps == [] {
    } else {
      var n := |steps| - 1;
      Prefix(cfg, states, steps);
      LeaseExclusivity(cfg, states[..|steps|], steps[..n]);
      StepKeepsLeases(cfg, states[n], steps[n]);
    }
  }

  // A job that a worker is working on has a pending row.
  lemma WorkedJobIsPending(cfg: Config, s: State, i: nat)
    requires LeaseInv(cfg, s) && i < |s.workers| && Holding(s.workers[i])
    requires s.workers[i].task.job in s.tables.jobs
    ensures !Quiescent(s.tables, s.workers[i].task.job)
    ensures s.workers[i].id in s.tables.tasks && Leased(s.tables.tasks[s.workers[i].id], s.workers[i])
  {
  }
}
