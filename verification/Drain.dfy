// All jobs together: once no new job comes, the workers' steps run out, and they can always be taken until
// nothing is pending, nobody is busy and every job's status is right.
module Drain {
  import opened Wrappers
  import opened Sums
  import opened Tables
  import opened Protocol
  import opened Rows
  import opened Lease
  import opened Site
  import opened Attempts
  import opened TaskCap
  import opened BreadthFirst
  import opened Finish
  import opened Reachability
  import opened Termination
  import opened Causes

  // ----- Workers whose job was deleted -----

  // The most steps to the end of FinishJob for a worker whose job is gone.
  function Stray(j: JobId, w: Worker): nat {
    if w.task.job != j then 0
    else
      match w.pc
      case Idle => 0
      case Claimed => 9
      case JobRead => 8
      case Fetching => 7
      case Stored => 6
      case Planned => 5
      case Succeeded => 4
      case Erred => 4
      case Finalised => 3
      case Counted => 2
      case Flagged => 1
  }

  function Strays(j: JobId): Worker -> nat {
    (w: Worker) => Stray(j, w)
  }

  lemma StrayDrops(cfg: Config, s: State, w: Worker, step: Step, j: JobId)
    requires Guard(cfg, s, w, step) && ByWorker(step) && !Fault(step) && !step.Claim? && !step.Plan?
    requires j !in s.tables.jobs
    ensures
      var w' := NextWorker(cfg, s, w, step);
      Stray(j, w') + (if Advances(step) && w'.task.job == j then 1 else 0) <= Stray(j, w)
  {
  }

  lemma PlannerStrays(cfg: Config, s: State, w: Worker, step: Step, j: JobId)
    requires cfg.maxTasks > 0 && Guard(cfg, s, w, step) && step.Plan?
    ensures
      var w' := NextWorker(cfg, s, w, step);
      Stray(j, w') + (if w'.task.job == j then 1 else 0) <= Stray(j, w)
  {
    PlanIsBounded(cfg, s, w, step);
    PlannedStrays(j, w, NextWorker(cfg, s, w, step));
  }

  lemma PlannedStrays(j: JobId, w: Worker, w': Worker)
    requires w.pc == Fetching || w.pc == Stored
    requires w'.task == w.task && w'.pc in {Planned, Succeeded}
    ensures Stray(j, w') + (if w'.task.job == j then 1 else 0) <= Stray(j, w)
  {
  }

  // A claim is of a job that exists.
  lemma ClaimIsNotStray(cfg: Config, s: State, step: Step, j: JobId)
    requires Sound(s.tables) && Enabled(cfg, s, step) && step.Claim? && j !in s.tables.jobs
    ensures NextWorker(cfg, s, s.workers[step.w], step).task.job != j
  {
  }

  lemma StraysDrop(cfg: Config, s: State, step: Step, j: JobId)
    requires cfg.maxTasks > 0 && Sound(s.tables) && Enabled(cfg, s, step) && !Fault(step) && j !in s.tables.jobs
    ensures Total(Strays(j), NextWorkers(cfg, s, step)) + (if AdvancesJob(cfg, s, step, j) then 1 else 0)
         <= Total(Strays(j), s.workers)
  {
    if ByWorker(step) {
      var w' := NextWorker(cfg, s, s.workers[step.w], step);
      TotalUpdate(Strays(j), s.workers, step.w, w');
      if step.Claim? {
        ClaimIsNotStray(cfg, s, step, j);
      } else if step.Plan? {
        PlannerStrays(cfg, s, s.workers[step.w], step, j);
      } else {
        StrayDrops(cfg, s, s.workers[step.w], step, j);
      }
    }
  }

  // ----- What is left to do for a job -----

  function Potential(cfg: Config, s: State, j: JobId): int {
    if j in s.tables.jobs then Measure(cfg, s, j) else Total(Strays(j), s.workers)
  }

  // Completing a row would use up an attempt.
  lemma CompletingSpends(cfg: Config, t: Tables, id: TaskId, j: JobId)
    requires FreshIds(t) && id in t.tasks && Pending(t.tasks[id]) && t.tasks[id].job == j
    requires AttemptsSound(cfg, t.tasks[id])
    ensures Spent(cfg, t, j) < Spent(cfg, CompleteTask(t, id), j)
  {
    var done := CompleteTask(t, id);
    RowCost(cfg, t, id, 0);
    forall k: nat
      ensures Cost(cfg, t, j, k) <= Cost(cfg, done, j, k)
    {
      assert k != id && k in t.tasks ==> done.tasks[k] == t.tasks[k];
    }
    SpentGrows(cfg, t, done, j, t.nextTask, t.nextTask, {id});
  }

  // ... so with a pending row the job has not used up its attempts.
  lemma PendingLeavesUnspent(cfg: Config, s: State, j: JobId, id: TaskId)
    requires AttemptsInv(cfg, s.tables) && FreshIds(s.tables) && JobCapped(cfg, s, j)
    requires id in s.tables.tasks && Pending(s.tables.tasks[id]) && s.tables.tasks[id].job == j
    ensures Unspent(cfg, s, j) >= 1
  {
    assert AttemptsSound(cfg, s.tables.tasks[id]);
    CompletingSpends(cfg, s.tables, id, j);
    CompletedRow(cfg, s.tables, id, j);
    SpentBound(cfg, CompleteTask(s.tables, id), j);
    Multiply(TaskCount(s.tables, j), CapBound(cfg, s, j), Retries(cfg) + 1);
  }

  lemma CompletedRow(cfg: Config, t: Tables, id: TaskId, j: JobId)
    requires AttemptsInv(cfg, t) && FreshIds(t) && id in t.tasks && Pending(t.tasks[id])
    ensures
      var done := CompleteTask(t, id);
      AttemptsInv(cfg, done) && FreshIds(done) && TaskCount(done, j) == TaskCount(t, j) && done.nextTask == t.nextTask
  {
    var done := CompleteTask(t, id);
    assert AttemptsSound(cfg, t.tasks[id]);
    assert RowsOf(done, j) == RowsOf(t, j);
  }

  lemma HolderLeavesMore(cfg: Config, s: State, j: JobId, i: nat)
    requires cfg.maxTasks > 0 && Invariants(cfg, s) && j in s.tables.jobs
    requires i < |s.workers| && Holding(s.workers[i]) && s.workers[i].task.job == j
    ensures Ceiling(cfg, s) <= Measure(cfg, s, j)
  {
    HolderLeavesUnspent(cfg, s, j, i);
    DistanceBelowCeiling(cfg, s, j);
    Heavy(Unspent(cfg, s, j), Distance(cfg, s.workers, j), Ceiling(cfg, s));
  }

  lemma HolderLeavesUnspent(cfg: Config, s: State, j: JobId, i: nat)
    requires LeaseInv(cfg, s) && AttemptsInv(cfg, s.tables) && JobCapped(cfg, s, j) && j in s.tables.jobs
    requires i < |s.workers| && Holding(s.workers[i]) && s.workers[i].task.job == j
    ensures Unspent(cfg, s, j) >= 1
  {
    WorkedJobIsPending(cfg, s, i);
    PendingLeavesUnspent(cfg, s, j, s.workers[i].id);
  }

  lemma Heavy(x: int, p: nat, ceiling: nat)
    requires x >= 1
    ensures ceiling <= Weigh(x, p, ceiling)
  {
    Multiply(1, x, ceiling + 1);
  }

  lemma DistanceBelowMeasure(cfg: Config, s: State, j: JobId)
    requires cfg.maxTasks > 0 && Invariants(cfg, s) && j in s.tables.jobs
    ensures Distance(cfg, s.workers, j) <= Measure(cfg, s, j)
  {
    SpentBound(cfg, s.tables, j);
    assert JobCapped(cfg, s, j);
    Multiply(TaskCount(s.tables, j), CapBound(cfg, s, j), Retries(cfg) + 1);
    DistanceBelowCeiling(cfg, s, j);
    Light(Unspent(cfg, s, j), Distance(cfg, s.workers, j), Ceiling(cfg, s));
  }

  lemma Light(x: nat, p: nat, ceiling: nat)
    ensures p <= Weigh(x, p, ceiling)
  {
    Multiply(0, x, ceiling + 1);
  }

  // The steps a deletion leaves a job's workers were left to them before.
  lemma DeletedLeavesLess(cfg: Config, s: State, j: JobId)
    requires cfg.maxTasks > 0 && Invariants(cfg, s) && j in s.tables.jobs
    ensures Total(Strays(j), s.workers) <= Measure(cfg, s, j)
  {
    if i :| 0 <= i < |s.workers| && Holding(s.workers[i]) && s.workers[i].task.job == j {
      HolderLeavesMore(cfg, s, j, i);
      StraysBelowCeiling(cfg, s, j);
    } else {
      DistanceBelowMeasure(cfg, s, j);
      FinishersStray(cfg.maxTasks, s.workers, j);
    }
  }

  lemma StraysBelowCeiling(cfg: Config, s: State, j: JobId)
    requires cfg.maxTasks > 0
    ensures Total(Strays(j), s.workers) <= Ceiling(cfg, s)
  {
    TotalBound(Strays(j), s.workers, Top(cfg));
  }

  lemma FinishersStray(k: nat, workers: seq<Worker>, j: JobId)
    requires forall i :: 0 <= i < |workers| && Holding(workers[i]) ==> workers[i].task.job != j
    ensures Total(Strays(j), workers) <= Total(Positions(k, j), workers)
  {
    TotalBound(_ => 0, workers, 0);
    TotalAdds(Strays(j), _ => 0, Positions(k, j), workers);
  }

  lemma PotentialMoves(cfg: Config, s: State, step: Step, j: JobId)
    requires cfg.maxTasks > 0 && Invariants(cfg, s) && Enabled(cfg, s, step) && !Fault(step) && !step.CreateJob?
    ensures Potential(cfg, Apply(cfg, s, step), j) + (if AdvancesJob(cfg, s, step, j) then 1 else 0)
         <= Potential(cfg, s, j)
  {
    if j in NextTables(cfg, s, step).jobs {
      if j !in s.tables.jobs {
        NewJobs(cfg, s, step, j);
      } else {
        MeasureDrops(cfg, s, step, j);
      }
    } else if j in s.tables.jobs {
      OnlySweepDeletes(cfg, s, step, j);
      DeletedLeavesLess(cfg, s, j);
    } else {
      StraysDrop(cfg, s, step, j);
    }
  }

  // ----- What is left to do in all -----

  function Potentials(cfg: Config, s: State, n: nat): int {
    if n == 0 then 0 else Potentials(cfg, s, n - 1) + Potential(cfg, s, n - 1)
  }

  function LeftToDo(cfg: Config, s: State): int {
    Potentials(cfg, s, s.tables.nextJob)
  }

  // The bound, from the state alone: StepBound for each job, and nine steps for each worker.
  function BoundsBelow(cfg: Config, s: State, n: nat): int {
    if n == 0 then 0
    else BoundsBelow(cfg, s, n - 1) + (if n - 1 in s.tables.jobs then StepBound(cfg, s, n - 1) else 0)
  }

  function Workload(cfg: Config, s: State): int {
    BoundsBelow(cfg, s, s.tables.nextJob) + |s.workers| * 9
  }

  // From s to s' no potential grows, and that of job a drops.
  ghost predicate Lowers(cfg: Config, s: State, s': State, a: int) {
    forall j: JobId :: Potential(cfg, s', j) + (if j == a then 1 else 0) <= Potential(cfg, s, j)
  }

  lemma {:induction false} PotentialsMove(cfg: Config, s: State, s': State, a: int, n: nat)
    requires Lowers(cfg, s, s', a)
    ensures Potentials(cfg, s', n) + (if 0 <= a < n then 1 else 0) <= Potentials(cfg, s, n)
  {
    if n == 0 {
    } else {
      PotentialsMove(cfg, s, s', a, n - 1);
      assert Potential(cfg, s', n - 1) + (if n - 1 == a then 1 else 0) <= Potential(cfg, s, n - 1);
    }
  }

  lemma StepLowers(cfg: Config, s: State, step: Step)
    requires cfg.maxTasks > 0 && Invariants(cfg, s) && Enabled(cfg, s, step) && !Fault(step) && !step.CreateJob?
    ensures Lowers(cfg, s, Apply(cfg, s, step), AdvancedJob(cfg, s, step))
  {
    var s' := Apply(cfg, s, step);
    forall j: JobId
      ensures Potential(cfg, s', j) + (if j == AdvancedJob(cfg, s, step) then 1 else 0) <= Potential(cfg, s, j)
    {
      PotentialMoves(cfg, s, step, j);
    }
  }

  // The job that a step advances, or -1.
  function AdvancedJob(cfg: Config, s: State, step: Step): int {
    if Advances(step) && step.w < |s.workers| then NextWorker(cfg, s, s.workers[step.w], step).task.job else -1
  }

  // Its id was given out.
  lemma AdvancedJobIsKnown(cfg: Config, s: State, step: Step)
    requires LeaseInv(cfg, s) && Enabled(cfg, s, step) && Advances(step) && !Fault(step)
    ensures 0 <= AdvancedJob(cfg, s, step) < s.tables.nextJob
  {
    assert WorkerSound(cfg, s.tables, s.clock, s.workers[step.w]);
  }

  lemma LeftDrops(cfg: Config, s: State, step: Step)
    requires cfg.maxTasks > 0 && Invariants(cfg, s) && Enabled(cfg, s, step) && !Fault(step) && !step.CreateJob?
    ensures LeftToDo(cfg, Apply(cfg, s, step)) + (if Advances(step) then 1 else 0) <= LeftToDo(cfg, s)
  {
    StepLowers(cfg, s, step);
    PotentialsMove(cfg, s, Apply(cfg, s, step), AdvancedJob(cfg, s, step), s.tables.nextJob);
    if Advances(step) {
      AdvancedJobIsKnown(cfg, s, step);
    }
    NoNewIds(cfg, s, step);
  }

  lemma NoNewIds(cfg: Config, s: State, step: Step)
    requires Enabled(cfg, s, step) && !step.CreateJob?
    ensures NextTables(cfg, s, step).nextJob == s.tables.nextJob
  {
    if step.InsertRow? {
      InsertTasksDraws(s.tables, s.workers[step.w].task.job, Head(s.workers[step.w].rest));
    } else if step.CommitMap? {
      var w := s.workers[step.w];
      InsertMappedBatchDraws(s.tables, MappedRows(w));
      InsertTasksDraws(InsertMappedBatch(s.tables, MappedRows(w)), w.task.job, w.rest);
    }
  }

  lemma {:induction false} LeftIsNatural(cfg: Config, s: State, n: nat)
    requires cfg.maxTasks > 0 && Invariants(cfg, s)
    ensures 0 <= Potentials(cfg, s, n)
  {
    if n == 0 {
    } else {
      LeftIsNatural(cfg, s, n - 1);
      if n - 1 in s.tables.jobs {
        MeasureIsNatural(cfg, s, n - 1);
      }
    }
  }

  // A worker busy with a job below n.
  function StrayBelow(n: nat): Worker -> nat {
    (w: Worker) => if w.task.job < n then 9 else 0
  }

  lemma {:induction false} LeftIsBounded(cfg: Config, s: State, n: nat)
    requires cfg.maxTasks > 0
    ensures Potentials(cfg, s, n) <= BoundsBelow(cfg, s, n) + Total(StrayBelow(n), s.workers)
  {
    if n == 0 {
    } else {
      LeftIsBounded(cfg, s, n - 1);
      TotalAdds(StrayBelow(n - 1), Strays(n - 1), StrayBelow(n), s.workers);
      if n - 1 in s.tables.jobs {
        MeasureBelowBound(cfg, s, n - 1);
      }
    }
  }

  lemma LeftWithinWorkload(cfg: Config, s: State)
    requires cfg.maxTasks > 0
    ensures LeftToDo(cfg, s) <= Workload(cfg, s)
  {
    LeftIsBounded(cfg, s, s.tables.nextJob);
    TotalBound(StrayBelow(s.tables.nextJob), s.workers, 9);
  }

  // ----- Whole runs -----

  // How often any worker advances from step `from` to the end.
  function WorkDone(steps: seq<Step>, from: nat): nat {
    if |steps| <= from then 0
    else WorkDone(steps[..|steps| - 1], from) + (if Advances(steps[|steps| - 1]) then 1 else 0)
  }

  lemma LastStepLeaves(cfg: Config, states: seq<State>, steps: seq<Step>)
    requires 0 <= cfg.interval <= cfg.lease && cfg.maxTasks > 0
    requires Run(cfg, states, steps) && Faultless(steps) && steps != [] && !steps[|steps| - 1].CreateJob?
    ensures
      var n := |steps| - 1;
      LeftToDo(cfg, states[n + 1]) + (if Advances(steps[n]) then 1 else 0) <= LeftToDo(cfg, states[n])
  {
    var n := |steps| - 1;
    Prefix(cfg, states, steps);
    InvariantsHold(cfg, states[..|steps|], steps[..n]);
    LeftDrops(cfg, states[n], steps[n]);
  }

  lemma {:induction false} WorkTakesFromLeft(cfg: Config, states: seq<State>, steps: seq<Step>, from: nat)
    requires 0 <= cfg.interval <= cfg.lease && cfg.maxTasks > 0
    requires Run(cfg, states, steps) && Faultless(steps) && from <= |steps|
    requires forall k :: from <= k < |steps| ==> !steps[k].CreateJob?
    ensures WorkDone(steps, from) + LeftToDo(cfg, states[|steps|]) <= LeftToDo(cfg, states[from])
    decreases |steps|
  {
    if from == |steps| {
    } else {
      var n := |steps| - 1;
      Prefix(cfg, states, steps);
      WorkTakesFromLeft(cfg, states[..|steps|], steps[..n], from);
      LastStepLeaves(cfg, states, steps);
    }
  }

  // THE WORK RUNS OUT. From any point of a run without faults after which no job is created, with max_tasks
  // set, all workers together take at most StepBound steps for each job, and nine more for each worker.
  lemma WorkRunsOut(cfg: Config, states: seq<State>, steps: seq<Step>, from: nat)
    requires 0 <= cfg.interval <= cfg.lease && cfg.maxTasks > 0
    requires Run(cfg, states, steps) && Faultless(steps) && from <= |steps|
    requires forall k :: from <= k < |steps| ==> !steps[k].CreateJob?
    ensures WorkDone(steps, from) <= Workload(cfg, states[from])
  {
    WorkTakesFromLeft(cfg, states, steps, from);
    InvariantsHold(cfg, states, steps);
    LeftIsNatural(cfg, states[|steps|], states[|steps|].tables.nextJob);
    LeftWithinWorkload(cfg, states[from]);
  }

  // Nothing is pending, nobody is busy, and every job with rows has the status its rows ask for.
  ghost predicate AtRest(s: State) {
    && !Restless(s)
    && forall j :: j in s.tables.jobs && HasRows(s.tables, j) ==>
         Quiescent(s.tables, j)
         && s.tables.jobs[j].status == if HasFailed(s.tables, j) then JobCompletedWithErrors else JobCompleted
  }

  lemma RestIsRight(cfg: Config, states: seq<State>, steps: seq<Step>)
    requires 0 <= cfg.interval <= cfg.lease
    requires Run(cfg, states, steps) && Faultless(steps) && !Restless(states[|steps|])
    ensures AtRest(states[|steps|])
  {
    NoneLeftHanging(cfg, states, steps);
  }

  // The workers' own steps, none of them a fault.
  ghost predicate Sturdy(steps: seq<Step>) {
    forall k :: 0 <= k < |steps| ==> Advances(steps[k]) && !Fault(steps[k])
  }

  // One of them brings the end nearer.
  lemma OneMoreStep(cfg: Config, states: seq<State>, steps: seq<Step>) returns (step: Step, next: State)
    requires 0 <= cfg.interval <= cfg.lease && cfg.maxTasks > 0
    requires Run(cfg, states, steps) && Faultless(steps) && states[|steps|].workers != []
    requires Restless(states[|steps|])
    ensures Run(cfg, states + [next], steps + [step]) && Faultless(steps + [step]) && Sturdy([step])
    ensures 0 <= LeftToDo(cfg, next) < LeftToDo(cfg, states[|steps|]) && next.workers != []
  {
    step := NoStandstill(cfg, states, steps);
    next := Apply(cfg, states[|steps|], step);
    RunExtends(cfg, states, steps, step, next);
    NearerTheEnd(cfg, states + [next], steps + [step]);
  }

  lemma NearerTheEnd(cfg: Config, states: seq<State>, steps: seq<Step>)
    requires 0 <= cfg.interval <= cfg.lease && cfg.maxTasks > 0
    requires Run(cfg, states, steps) && Faultless(steps) && steps != [] && Advances(steps[|steps| - 1])
    ensures 0 <= LeftToDo(cfg, states[|steps|]) < LeftToDo(cfg, states[|steps| - 1])
  {
    LastStepLeaves(cfg, states, steps);
    InvariantsHold(cfg, states, steps);
    LeftIsNatural(cfg, states[|steps|], states[|steps|].tables.nextJob);
  }

  lemma Chained(states: seq<State>, next: State, after: seq<State>, steps: seq<Step>, step: Step, rest: seq<Step>)
    requires Sturdy([step]) && Sturdy(rest)
    ensures states + ([next] + after) == (states + [next]) + after
    ensures steps + ([step] + rest) == (steps + [step]) + rest && Sturdy([step] + rest)
  {
    forall k | 0 <= k < |[step] + rest|
      ensures Advances(([step] + rest)[k]) && !Fault(([step] + rest)[k])
    {
      if k == 0 {
        assert ([step] + rest)[0] == [step][0];
      }
    }
  }

  lemma {:induction false} LeftCanBeDone(cfg: Config, states: seq<State>, steps: seq<Step>)
    returns (more: seq<State>, rest: seq<Step>)
    requires 0 <= cfg.interval <= cfg.lease && cfg.maxTasks > 0
    requires Run(cfg, states, steps) && Faultless(steps) && states[|steps|].workers != []
    requires 0 <= LeftToDo(cfg, states[|steps|])
    ensures Run(cfg, states + more, steps + rest) && Sturdy(rest) && |rest| <= LeftToDo(cfg, states[|steps|])
    ensures AtRest((states + more)[|steps + rest|])
    decreases LeftToDo(cfg, states[|steps|])
  {
    if !Restless(states[|steps|]) {
      more, rest := [], [];
      assert states + more == states && steps + rest == steps;
      RestIsRight(cfg, states, steps);
    } else {
      var step, next := OneMoreStep(cfg, states, steps);
      assert (states + [next])[|steps + [step]|] == next;
      more, rest := LeftCanBeDone(cfg, states + [next], steps + [step]);
      Chained(states, next, more, steps, step, rest);
      more, rest := [next] + more, [step] + rest;
    }
  }

  // EVERYTHING CAN END. Every run without faults, with a worker and max_tasks set, goes on by fault-free
  // worker steps, no more than the bound, to where nothing is pending, nobody is busy and every job with
  // rows is completed, with errors exactly when one of its rows failed.
  lemma WorkCanEnd(cfg: Config, states: seq<State>, steps: seq<Step>)
    returns (more: seq<State>, rest: seq<Step>)
    requires 0 <= cfg.interval <= cfg.lease && cfg.maxTasks > 0
    requires Run(cfg, states, steps) && Faultless(steps) && states[|steps|].workers != []
    ensures Run(cfg, states + more, steps + rest) && Sturdy(rest) && |rest| <= Workload(cfg, states[|steps|])
    ensures AtRest((states + more)[|steps + rest|])
  {
    InvariantsHold(cfg, states, steps);
    LeftIsNatural(cfg, states[|steps|], states[|steps|].tables.nextJob);
    more, rest := LeftCanBeDone(cfg, states, steps);
    LeftWithinWorkload(cfg, states[|steps|]);
  }

  // ----- After crashes -----

  // Steps of the clock, and workers' steps without a fault.
  ghost predicate Recovering(steps: seq<Step>) {
    forall k :: 0 <= k < |steps| ==> steps[k].Tick? || (Advances(steps[k]) && !Fault(steps[k]))
  }

  // A worker that is busy can go on, whatever has happened to others.
  lemma BusyGoesOn(cfg: Config, s: State, i: nat) returns (step: Step)
    requires LeaseInv(cfg, s) && SiteInv(cfg, s) && i < |s.workers| && Busy(s.workers[i])
    ensures Enabled(cfg, s, step) && Advances(step) && !Fault(step)
  {
    assert WorkerSound(cfg, s.tables, s.clock, s.workers[i]) && WorkerAllowed(cfg, s.tables, s.workers[i]);
    NextStepGuarded(cfg, s, s.workers[i], i);
    step := NextStep(cfg, s.tables, s.workers[i], i);
  }

  // When all are idle, a row under a lease nobody holds can be claimed once the lease has run out.
  lemma LeaseRunsOut(cfg: Config, s: State, id: TaskId) returns (tick: Step, after: State, claim: Step)
    requires s.workers != [] && forall i :: 0 <= i < |s.workers| ==> s.workers[i].pc == Idle
    requires id in s.tables.tasks && Pending(s.tables.tasks[id])
    ensures Enabled(cfg, s, tick) && tick.Tick? && after == Apply(cfg, s, tick)
    ensures Enabled(cfg, after, claim) && Advances(claim) && !Fault(claim)
  {
    var row := s.tables.tasks[id];
    var time := if row.heartbeatAt.Some? then Max(s.clock, row.heartbeatAt.value + cfg.lease + 1) else s.clock;
    tick := Tick(time);
    after := Apply(cfg, s, tick);
    assert after.tables == s.tables && after.workers == s.workers && after.clock == time;
    claim := IdleClaims(cfg, after, id);
  }

  lemma LeftAfter(cfg: Config, states: seq<State>, steps: seq<Step>, step: Step, next: State)
    requires 0 <= cfg.interval <= cfg.lease && cfg.maxTasks > 0 && Run(cfg, states, steps)
    requires Enabled(cfg, states[|steps|], step) && !Fault(step) && !step.CreateJob?
    requires next == Apply(cfg, states[|steps|], step)
    ensures Run(cfg, states + [next], steps + [step]) && |next.workers| == |states[|steps|].workers|
    ensures 0 <= LeftToDo(cfg, next)
    ensures LeftToDo(cfg, next) + (if Advances(step) then 1 else 0) <= LeftToDo(cfg, states[|steps|])
  {
    RunExtends(cfg, states, steps, step, next);
    InvariantsHold(cfg, states, steps);
    InvariantsHold(cfg, states + [next], steps + [step]);
    assert (states + [next])[|steps + [step]|] == next;
    LeftDrops(cfg, states[|steps|], step);
    LeftIsNatural(cfg, next, next.tables.nextJob);
  }

  lemma BusyRound(cfg: Config, states: seq<State>, steps: seq<Step>, i: nat) returns (step: Step, next: State)
    requires 0 <= cfg.interval <= cfg.lease && cfg.maxTasks > 0
    requires Run(cfg, states, steps) && i < |states[|steps|].workers| && Busy(states[|steps|].workers[i])
    ensures Run(cfg, states + [next], steps + [step]) && Recovering([step]) && next.workers != []
    ensures 0 <= LeftToDo(cfg, next) < LeftToDo(cfg, states[|steps|])
  {
    LeaseExclusivity(cfg, states, steps);
    SiteInvHolds(cfg, states, steps);
    step := BusyGoesOn(cfg, states[|steps|], i);
    next := Apply(cfg, states[|steps|], step);
    LeftAfter(cfg, states, steps, step, next);
  }

  lemma IdleRound(cfg: Config, states: seq<State>, steps: seq<Step>, id: TaskId)
    returns (tick: Step, after: State, claim: Step, next: State)
    requires 0 <= cfg.interval <= cfg.lease && cfg.maxTasks > 0
    requires Run(cfg, states, steps) && states[|steps|].workers != []
    requires forall i :: 0 <= i < |states[|steps|].workers| ==> states[|steps|].workers[i].pc == Idle
    requires id in states[|steps|].tables.tasks && Pending(states[|steps|].tables.tasks[id])
    ensures Run(cfg, states + [after] + [next], steps + [tick] + [claim])
    ensures Recovering([tick, claim]) && next.workers != []
    ensures 0 <= LeftToDo(cfg, next) < LeftToDo(cfg, states[|steps|])
  {
    tick, after, claim := LeaseRunsOut(cfg, states[|steps|], id);
    LeftAfter(cfg, states, steps, tick, after);
    assert (states + [after])[|steps + [tick]|] == after;
    next := Apply(cfg, after, claim);
    LeftAfter(cfg, states + [after], steps + [tick], claim, next);
  }

  // One step of a busy worker, or one tick and a claim, leaves less to do.
  lemma OneMoreRound(cfg: Config, states: seq<State>, steps: seq<Step>) returns (more: seq<State>, rest: seq<Step>)
    requires 0 <= cfg.interval <= cfg.lease && cfg.maxTasks > 0
    requires Run(cfg, states, steps) && states[|steps|].workers != [] && Restless(states[|steps|])
    ensures Run(cfg, states + more, steps + rest) && |more| == |rest| && 1 <= |rest| <= 2 && Recovering(rest)
    ensures more[|more| - 1].workers != []
    ensures 0 <= LeftToDo(cfg, more[|more| - 1]) < LeftToDo(cfg, states[|steps|])
  {
    if i :| 0 <= i < |states[|steps|].workers| && Busy(states[|steps|].workers[i]) {
      var step, next := BusyRound(cfg, states, steps, i);
      more, rest := [next], [step];
    } else {
      var id :| id in states[|steps|].tables.tasks && Pending(states[|steps|].tables.tasks[id]);
      var tick, after, claim, next := IdleRound(cfg, states, steps, id);
      more, rest := [after, next], [tick, claim];
      assert states + more == states + [after] + [next] && steps + rest == steps + [tick] + [claim];
    }
  }

  lemma {:induction false} RowsCanEnd(cfg: Config, states: seq<State>, steps: seq<Step>)
    returns (more: seq<State>, rest: seq<Step>)
    requires 0 <= cfg.interval <= cfg.lease && cfg.maxTasks > 0
    requires Run(cfg, states, steps) && states[|steps|].workers != [] && 0 <= LeftToDo(cfg, states[|steps|])
    ensures Run(cfg, states + more, steps + rest) && Recovering(rest)
    ensures |rest| <= 2 * LeftToDo(cfg, states[|steps|]) && !Restless((states + more)[|steps + rest|])
    decreases LeftToDo(cfg, states[|steps|])
  {
    if !Restless(states[|steps|]) {
      more, rest := [], [];
      assert states + more == states && steps + rest == steps;
    } else {
      var first, begun := OneMoreRound(cfg, states, steps);
      assert (states + first)[|steps + begun|] == first[|first| - 1];
      var later, ending := RowsCanEnd(cfg, states + first, steps + begun);
      more, rest := first + later, begun + ending;
      assert states + more == states + first + later && steps + rest == steps + begun + ending;
    }
  }

  // CRASHES ARE MADE UP FOR. Whatever crashes and failed statements a run has had, with a worker and max_tasks set
  // it goes on, by the clock and by workers' steps without faults, at most two for each step of the bound, to where
  // no row is pending and nobody is busy: the rows of crashed workers are claimed again when their leases run out.
  lemma CrashesRecover(cfg: Config, states: seq<State>, steps: seq<Step>)
    returns (more: seq<State>, rest: seq<Step>)
    requires 0 <= cfg.interval <= cfg.lease && cfg.maxTasks > 0
    requires Run(cfg, states, steps) && states[|steps|].workers != []
    ensures Run(cfg, states + more, steps + rest) && Recovering(rest)
    ensures |rest| <= 2 * Workload(cfg, states[|steps|]) && !Restless((states + more)[|steps + rest|])
  {
    InvariantsHold(cfg, states, steps);
    LeftIsNatural(cfg, states[|steps|], states[|steps|].tables.nextJob);
    more, rest := RowsCanEnd(cfg, states, steps);
    LeftWithinWorkload(cfg, states[|steps|]);
  }
}
