// Every fault-free run gives a job only boundedly many worker steps: retries, child tasks and the
// steps inside each attempt run out.
module Termination {
  import opened Wrappers
  import opened Sums
  import opened Urls
  import opened Tables
  import opened Frontier
  import opened Protocol
  import opened Rows
  import opened Lease
  import opened Site
  import opened Attempts
  import opened TaskCap
  import opened BreadthFirst

  // The steps that advance a worker's loop. Heartbeats, redirects and dedupe marks do not.
  predicate Advances(step: Step) {
    ByWorker(step) && !step.Beat? && !step.Redirect? && !step.MarkSeen?
  }

  // The job a worker's step is about.
  predicate AdvancesJob(cfg: Config, s: State, step: Step, j: JobId) {
    && Advances(step) && step.w < |s.workers|
    && NextWorker(cfg, s, s.workers[step.w], step).task.job == j
  }

  // ----- Where a worker stands -----

  // Steps left in the attempt, with room for a plan of k tasks; FinishJob comes on top. A worker busy
  // with another job counts like an idle one.
  function Position(k: nat, j: JobId, w: Worker): nat {
    if w.pc == Idle || w.task.job != j then k + 7
    else
      match w.pc
      case Finalised => k + 10
      case Counted => k + 9
      case Flagged => k + 8
      case Claimed => k + 6
      case JobRead => k + 5
      case Fetching => k + 4
      case Stored => k + 3
      case Planned => if |w.rest| <= k then 2 + |w.rest| else k + 2
      case Succeeded => 1
      case Erred => 0
      case Idle => k + 7
  }

  function Positions(k: nat, j: JobId): Worker -> nat {
    (w: Worker) => Position(k, j, w)
  }

  // Within an attempt, and within FinishJob, each step of job j brings the worker forward.
  lemma PositionDrops(cfg: Config, s: State, w: Worker, step: Step, j: JobId)
    requires cfg.maxTasks > 0 && Guard(cfg, s, w, step) && Advances(step) && !Fault(step)
    requires !step.Plan? && !step.Complete? && !step.Settle?
    requires w.pc == Planned && w.task.job == j ==> |w.rest| <= cfg.maxTasks && PlanShape(w)
    ensures
      var w' := NextWorker(cfg, s, w, step);
      var k := cfg.maxTasks;
      && Position(k, j, w') <= Position(k, j, w)
      && (w'.task.job == j ==> Position(k, j, w') < Position(k, j, w))
  {
  }

  lemma PlanPositionDrops(cfg: Config, s: State, w: Worker, step: Step, j: JobId)
    requires cfg.maxTasks > 0 && Guard(cfg, s, w, step) && step.Plan?
    ensures
      var w' := NextWorker(cfg, s, w, step);
      var k := cfg.maxTasks;
      && Position(k, j, w') <= Position(k, j, w)
      && (w'.task.job == j ==> Position(k, j, w') < Position(k, j, w))
  {
    PlanIsBounded(cfg, s, w, step);
    PlannedPosition(cfg.maxTasks, j, w, NextWorker(cfg, s, w, step));
  }

  lemma PlannedPosition(k: nat, j: JobId, w: Worker, w': Worker)
    requires w.pc == Fetching || w.pc == Stored
    requires w'.task == w.task && w'.pc in {Planned, Succeeded} && (w'.pc == Planned ==> |w'.rest| <= k)
    ensures Position(k, j, w') <= Position(k, j, w)
    ensures w.task.job == j ==> Position(k, j, w') < Position(k, j, w)
  {
  }

  // ----- What the rows have used up -----

  // A pending row has used up its attempts so far, a finished one all of its max_retries + 1.
  function Cost(cfg: Config, t: Tables, j: JobId, id: TaskId): nat {
    if id !in t.tasks || t.tasks[id].job != j then 0
    else if Pending(t.tasks[id]) then t.tasks[id].attempts
    else Retries(cfg) + 1
  }

  function SpentBelow(cfg: Config, t: Tables, j: JobId, n: nat): nat {
    if n == 0 then 0 else SpentBelow(cfg, t, j, n - 1) + Cost(cfg, t, j, n - 1)
  }

  function Spent(cfg: Config, t: Tables, j: JobId): nat {
    SpentBelow(cfg, t, j, t.nextTask)
  }

  lemma {:induction false} SpentGrows(cfg: Config, t: Tables, t': Tables, j: JobId, n: nat, n': nat, extra: set<TaskId>)
    requires n <= n'
    requires forall id: nat :: Cost(cfg, t, j, id) <= Cost(cfg, t', j, id)
    requires forall id: nat :: id in extra ==> id < n' && Cost(cfg, t, j, id) < Cost(cfg, t', j, id)
    ensures SpentBelow(cfg, t, j, n) <= SpentBelow(cfg, t', j, n')
    ensures n == n' && extra != {} ==> SpentBelow(cfg, t, j, n) < SpentBelow(cfg, t', j, n')
    decreases n'
  {
    if n' == 0 {
    } else {
      if n < n' {
        SpentGrows(cfg, t, t', j, n, n' - 1, {});
      } else {
        SpentGrows(cfg, t, t', j, n - 1, n' - 1, extra - {n - 1});
        if extra != {} && n - 1 !in extra {
          var id :| id in extra;
          assert id in extra - {n - 1};
        }
      }
    }
  }

  // A job's rows use up at most max_retries + 1 each.
  lemma {:induction false} SpentBelowBound(cfg: Config, t: Tables, j: JobId, n: nat)
    requires AttemptsInv(cfg, t)
    ensures SpentBelow(cfg, t, j, n) <= StatsBelow(t, j, n).total * (Retries(cfg) + 1)
    decreases n
  {
    if n == 0 {
    } else {
      SpentBelowBound(cfg, t, j, n - 1);
      if n - 1 in t.tasks && t.tasks[n - 1].job == j {
        assert AttemptsSound(cfg, t.tasks[n - 1]);
        assert Cost(cfg, t, j, n - 1) <= Retries(cfg) + 1;
        OneMore(StatsBelow(t, j, n - 1).total, Retries(cfg) + 1);
      }
    }
  }

  lemma SpentBound(cfg: Config, t: Tables, j: JobId)
    requires AttemptsInv(cfg, t) && FreshIds(t)
    ensures Spent(cfg, t, j) <= TaskCount(t, j) * (Retries(cfg) + 1)
  {
    SpentBelowBound(cfg, t, j, t.nextTask);
    StatsAddUp(cfg, t, j);
  }

  // No step gives an attempt back, and finalising a row uses one up.
  lemma RowCost(cfg: Config, t: Tables, id: TaskId, now: int)
    requires id in t.tasks && Pending(t.tasks[id]) && AttemptsSound(cfg, t.tasks[id])
    ensures
      var j := t.tasks[id].job;
      && Cost(cfg, t, j, id) <= Cost(cfg, ClaimTask(t, id, now), j, id)
      && Cost(cfg, t, j, id) < Cost(cfg, CompleteTask(t, id), j, id)
      && Cost(cfg, t, j, id) < Cost(cfg, RetryTask(t, id), j, id)
      && Cost(cfg, t, j, id) < Cost(cfg, FailTask(t, id), j, id)
  {
  }

  lemma TouchedCost(cfg: Config, s: State, step: Step, id: TaskId)
    requires LeaseInv(cfg, s) && AttemptsInv(cfg, s.tables) && Enabled(cfg, s, step)
    requires id in Touched(s, step) && id in s.tables.tasks
    ensures
      var j := s.tables.tasks[id].job;
      && Cost(cfg, s.tables, j, id) <= Cost(cfg, NextTables(cfg, s, step), j, id)
      && (!step.Claim? ==> Cost(cfg, s.tables, j, id) < Cost(cfg, NextTables(cfg, s, step), j, id))
  {
    TouchedTables(cfg, s, step, id);
    TouchedIsPending(cfg, s, step, id);
    RowCost(cfg, s.tables, id, s.clock);
  }

  lemma CostsGrow(cfg: Config, s: State, step: Step, j: JobId, id: TaskId)
    requires LeaseInv(cfg, s) && AttemptsInv(cfg, s.tables) && Enabled(cfg, s, step)
    requires j in s.tables.jobs && j in NextTables(cfg, s, step).jobs
    ensures Cost(cfg, s.tables, j, id) <= Cost(cfg, NextTables(cfg, s, step), j, id)
  {
    if id in s.tables.tasks && s.tables.tasks[id].job == j {
      if id in Touched(s, step) {
        TouchedCost(cfg, s, step, id);
      } else {
        StepFollows(cfg, s, step);
      }
    }
  }

  lemma SpentMoves(cfg: Config, s: State, step: Step, j: JobId)
    requires LeaseInv(cfg, s) && AttemptsInv(cfg, s.tables) && Enabled(cfg, s, step) && !Fault(step)
    requires j in s.tables.jobs && j in NextTables(cfg, s, step).jobs
    ensures Spent(cfg, s.tables, j) <= Spent(cfg, NextTables(cfg, s, step), j)
    ensures (step.Complete? || step.Settle?) && s.workers[step.w].task.job == j ==>
              Spent(cfg, s.tables, j) < Spent(cfg, NextTables(cfg, s, step), j)
  {
    var t := NextTables(cfg, s, step);
    CostsAllGrow(cfg, s, step, j);
    var extra: set<TaskId> := {};
    if (step.Complete? || step.Settle?) && s.workers[step.w].task.job == j {
      FinaliserSpends(cfg, s, step);
      extra := {s.workers[step.w].id};
    }
    SpentGrows(cfg, s.tables, t, j, s.tables.nextTask, t.nextTask, extra);
  }

  lemma CostsAllGrow(cfg: Config, s: State, step: Step, j: JobId)
    requires LeaseInv(cfg, s) && AttemptsInv(cfg, s.tables) && Enabled(cfg, s, step)
    requires j in s.tables.jobs && j in NextTables(cfg, s, step).jobs
    ensures s.tables.nextTask <= NextTables(cfg, s, step).nextTask
    ensures forall id: nat :: Cost(cfg, s.tables, j, id) <= Cost(cfg, NextTables(cfg, s, step), j, id)
  {
    forall id: nat
      ensures Cost(cfg, s.tables, j, id) <= Cost(cfg, NextTables(cfg, s, step), j, id)
    {
      CostsGrow(cfg, s, step, j, id);
    }
    StepFollows(cfg, s, step);
  }

  lemma FinaliserSpends(cfg: Config, s: State, step: Step)
    requires LeaseInv(cfg, s) && AttemptsInv(cfg, s.tables) && Enabled(cfg, s, step) && !Fault(step)
    requires (step.Complete? || step.Settle?) && s.workers[step.w].task.job in s.tables.jobs
    ensures
      var w, t := s.workers[step.w], NextTables(cfg, s, step);
      && t.nextTask == s.tables.nextTask && w.id < t.nextTask
      && Cost(cfg, s.tables, w.task.job, w.id) < Cost(cfg, t, w.task.job, w.id)
  {
    WorkedJobIsPending(cfg, s, step.w);
    FinalisesRow(cfg, s, step);
    TouchedCost(cfg, s, step, s.workers[step.w].id);
  }

  lemma FinalisesRow(cfg: Config, s: State, step: Step)
    requires Enabled(cfg, s, step) && !Fault(step) && (step.Complete? || step.Settle?)
    ensures s.workers[step.w].id in Touched(s, step)
    ensures NextTables(cfg, s, step).nextTask == s.tables.nextTask
  {
  }

  // ----- The measure -----

  // The highest position.
  function Top(cfg: Config): int {
    cfg.maxTasks + 10
  }

  function Ceiling(cfg: Config, s: State): int {
    |s.workers| * Top(cfg)
  }

  // x first, then p, as one number: p stays below ceiling + 1.
  function Weigh(x: int, p: nat, ceiling: int): int {
    x * (ceiling + 1) + p
  }

  // Attempts job j has not used up yet.
  function Unspent(cfg: Config, s: State, j: JobId): int {
    CapBound(cfg, s, j) * (Retries(cfg) + 1) - Spent(cfg, s.tables, j)
  }

  function Distance(cfg: Config, workers: seq<Worker>, j: JobId): nat {
    Total(Positions(Max(cfg.maxTasks, 0), j), workers)
  }

  // Attempts the job can still use up, then how far its workers are from ending theirs.
  function Measure(cfg: Config, s: State, j: JobId): int {
    Weigh(Unspent(cfg, s, j), Distance(cfg, s.workers, j), Ceiling(cfg, s))
  }

  ghost predicate Invariants(cfg: Config, s: State) {
    LeaseInv(cfg, s) && SiteInv(cfg, s) && AttemptsInv(cfg, s.tables) && Capped(cfg, s)
  }

  lemma MeasureIsNatural(cfg: Config, s: State, j: JobId)
    requires cfg.maxTasks > 0 && Invariants(cfg, s) && j in s.tables.jobs
    ensures 0 <= Measure(cfg, s, j)
  {
    SpentBound(cfg, s.tables, j);
    assert JobCapped(cfg, s, j);
    Multiply(TaskCount(s.tables, j), CapBound(cfg, s, j), Retries(cfg) + 1);
    Multiply(0, Unspent(cfg, s, j), Ceiling(cfg, s) + 1);
  }

  lemma Multiply(a: int, b: int, c: nat)
    requires a <= b
    ensures a * c <= b * c
  {
  }

  lemma Descends(x: int, x': int, p: nat, p': nat, ceiling: nat)
    requires x' < x && p' <= ceiling
    ensures Weigh(x', p', ceiling) < Weigh(x, p, ceiling)
  {
    Multiply(x', x - 1, ceiling + 1);
  }

  lemma Declines(x: int, x': int, p: nat, p': nat, ceiling: nat)
    requires x' <= x && p' <= p
    ensures Weigh(x', p', ceiling) <= Weigh(x, p, ceiling)
    ensures p' < p ==> Weigh(x', p', ceiling) < Weigh(x, p, ceiling)
  {
  }

  lemma BoundStays(cfg: Config, s: State, step: Step, j: JobId)
    requires Sound(s.tables) && j in s.tables.jobs
    ensures CapBound(cfg, Apply(cfg, s, step), j) == CapBound(cfg, s, j)
    ensures Ceiling(cfg, Apply(cfg, s, step)) == Ceiling(cfg, s)
  {
  }

  lemma MoverPosition(cfg: Config, s: State, step: Step, j: JobId)
    requires cfg.maxTasks > 0 && SiteInv(cfg, s) && JobCapped(cfg, s, j)
    requires Enabled(cfg, s, step) && ByWorker(step) && !Fault(step)
    requires !((step.Complete? || step.Settle?) && s.workers[step.w].task.job == j)
    ensures
      var p, p' := Position(cfg.maxTasks, j, s.workers[step.w]),
                   Position(cfg.maxTasks, j, NextWorker(cfg, s, s.workers[step.w], step));
      p' <= p && (AdvancesJob(cfg, s, step, j) ==> p' < p)
  {
    var w := s.workers[step.w];
    if step.Plan? {
      PlanPositionDrops(cfg, s, w, step, j);
    } else if Advances(step) && !step.Complete? && !step.Settle? {
      assert WorkerAllowed(cfg, s.tables, w);
      OnePlanFits(cfg, s, j, step.w);
      PositionDrops(cfg, s, w, step, j);
    } else {
      PositionStays(cfg, s, w, step, j);
    }
  }

  lemma PositionStays(cfg: Config, s: State, w: Worker, step: Step, j: JobId)
    requires cfg.maxTasks > 0 && Guard(cfg, s, w, step) && ByWorker(step) && !Fault(step)
    requires !Advances(step) || ((step.Complete? || step.Settle?) && w.task.job != j)
    ensures
      var w' := NextWorker(cfg, s, w, step);
      Position(cfg.maxTasks, j, w') == Position(cfg.maxTasks, j, w) && w'.task == w.task
  {
  }

  lemma PositionsMove(cfg: Config, s: State, step: Step, j: JobId)
    requires cfg.maxTasks > 0 && SiteInv(cfg, s) && JobCapped(cfg, s, j)
    requires Enabled(cfg, s, step) && !Fault(step)
    requires !((step.Complete? || step.Settle?) && s.workers[step.w].task.job == j)
    ensures Distance(cfg, NextWorkers(cfg, s, step), j) <= Distance(cfg, s.workers, j)
    ensures AdvancesJob(cfg, s, step, j) ==> Distance(cfg, NextWorkers(cfg, s, step), j) < Distance(cfg, s.workers, j)
  {
    if ByWorker(step) {
      var w' := NextWorker(cfg, s, s.workers[step.w], step);
      assert NextWorkers(cfg, s, step) == s.workers[step.w := w'];
      TotalUpdate(Positions(cfg.maxTasks, j), s.workers, step.w, w');
      MoverPosition(cfg, s, step, j);
    }
  }

  lemma DistanceBelowCeiling(cfg: Config, s: State, j: JobId)
    requires cfg.maxTasks > 0
    ensures Distance(cfg, s.workers, j) <= Ceiling(cfg, s)
  {
    TotalBound(Positions(cfg.maxTasks, j), s.workers, Top(cfg));
  }

  lemma UnspentMoves(cfg: Config, s: State, step: Step, j: JobId)
    requires LeaseInv(cfg, s) && AttemptsInv(cfg, s.tables) && Enabled(cfg, s, step) && !Fault(step)
    requires j in s.tables.jobs && j in NextTables(cfg, s, step).jobs
    ensures Unspent(cfg, Apply(cfg, s, step), j) <= Unspent(cfg, s, j)
    ensures (step.Complete? || step.Settle?) && s.workers[step.w].task.job == j ==>
              Unspent(cfg, Apply(cfg, s, step), j) < Unspent(cfg, s, j)
    ensures Ceiling(cfg, Apply(cfg, s, step)) == Ceiling(cfg, s)
  {
    SpentMoves(cfg, s, step, j);
    BoundStays(cfg, s, step, j);
  }

  // No fault-free step lets the measure grow, and every advance of the job lowers it.
  lemma MeasureDrops(cfg: Config, s: State, step: Step, j: JobId)
    requires cfg.maxTasks > 0 && Invariants(cfg, s) && Enabled(cfg, s, step) && !Fault(step)
    requires j in s.tables.jobs && j in NextTables(cfg, s, step).jobs
    ensures Measure(cfg, Apply(cfg, s, step), j) <= Measure(cfg, s, j)
    ensures AdvancesJob(cfg, s, step, j) ==> Measure(cfg, Apply(cfg, s, step), j) < Measure(cfg, s, j)
  {
    var s' := Apply(cfg, s, step);
    var x, x' := Unspent(cfg, s, j), Unspent(cfg, s', j);
    var p, p' := Distance(cfg, s.workers, j), Distance(cfg, s'.workers, j);
    UnspentMoves(cfg, s, step, j);
    DistanceBelowCeiling(cfg, s', j);
    if (step.Complete? || step.Settle?) && s.workers[step.w].task.job == j {
      Descends(x, x', p, p', Ceiling(cfg, s));
    } else {
      assert JobCapped(cfg, s, j);
      PositionsMove(cfg, s, step, j);
      Declines(x, x', p, p', Ceiling(cfg, s));
    }
  }

  // ----- Whole runs -----

  lemma InvariantsHold(cfg: Config, states: seq<State>, steps: seq<Step>)
    requires 0 <= cfg.interval <= cfg.lease && cfg.maxTasks > 0
    requires Run(cfg, states, steps)
    ensures Invariants(cfg, states[|steps|])
  {
    LeaseExclusivity(cfg, states, steps);
    SiteInvHolds(cfg, states, steps);
    AttemptsExact(cfg, states, steps);
    TaskCapHolds(cfg, states, steps);
  }

  // How often job j advances from state `from` to the end.
  ghost function Advanced(cfg: Config, states: seq<State>, steps: seq<Step>, j: JobId, from: nat): nat
    requires |states| == |steps| + 1
    decreases |steps|
  {
    if |steps| <= from then 0
    else
      var n := |steps| - 1;
      Advanced(cfg, states[..|steps|], steps[..n], j, from)
      + (if AdvancesJob(cfg, states[n], steps[n], j) then 1 else 0)
  }

  // Attempts times positions: an explicit bound on the worker steps a job can take.
  function StepBound(cfg: Config, s: State, j: JobId): int {
    CapBound(cfg, s, j) * (Retries(cfg) + 1) * (Ceiling(cfg, s) + 1) + Ceiling(cfg, s)
  }

  lemma MeasureBelowBound(cfg: Config, s: State, j: JobId)
    requires cfg.maxTasks > 0
    ensures Measure(cfg, s, j) <= StepBound(cfg, s, j)
  {
    DistanceBelowCeiling(cfg, s, j);
    Multiply(Unspent(cfg, s, j), CapBound(cfg, s, j) * (Retries(cfg) + 1), Ceiling(cfg, s) + 1);
  }

  lemma LastStepDrops(cfg: Config, states: seq<State>, steps: seq<Step>, j: JobId)
    requires 0 <= cfg.interval <= cfg.lease && cfg.maxTasks > 0
    requires Run(cfg, states, steps) && Faultless(steps) && steps != []
    requires j in states[|steps| - 1].tables.jobs && j in states[|steps|].tables.jobs
    ensures
      var n := |steps| - 1;
      Measure(cfg, states[n + 1], j) + (if AdvancesJob(cfg, states[n], steps[n], j) then 1 else 0)
      <= Measure(cfg, states[n], j)
  {
    var n := |steps| - 1;
    Prefix(cfg, states, steps);
    InvariantsHold(cfg, states[..|steps|], steps[..n]);
    MeasureDrops(cfg, states[n], steps[n], j);
  }

  lemma {:induction false} MeasureCountsSteps(
      cfg: Config, states: seq<State>, steps: seq<Step>, j: JobId, from: nat)
    requires 0 <= cfg.interval <= cfg.lease && cfg.maxTasks > 0
    requires Run(cfg, states, steps) && Faultless(steps) && from <= |steps|
    requires forall k :: from <= k <= |steps| ==> j in states[k].tables.jobs
    ensures Advanced(cfg, states, steps, j, from) + Measure(cfg, states[|steps|], j) <= Measure(cfg, states[from], j)
    decreases |steps|
  {
    if from < |steps| {
      var n := |steps| - 1;
      Prefix(cfg, states, steps);
      assert j in states[n].tables.jobs && j in states[n + 1].tables.jobs;
      MeasureCountsSteps(cfg, states[..|steps|], steps[..n], j, from);
      LastStepDrops(cfg, states, steps, j);
    }
  }

  // TERMINATION. In a run without faults, with max_tasks set, the workers take at most StepBound steps
  // for a job from any point on, as long as the job exists: retries, children and all.
  lemma BoundedWork(cfg: Config, states: seq<State>, steps: seq<Step>, j: JobId, from: nat)
    requires 0 <= cfg.interval <= cfg.lease && cfg.maxTasks > 0
    requires Run(cfg, states, steps) && Faultless(steps) && from <= |steps|
    requires forall k :: from <= k <= |steps| ==> j in states[k].tables.jobs
    ensures Advanced(cfg, states, steps, j, from) <= StepBound(cfg, states[from], j)
  {
    MeasureCountsSteps(cfg, states, steps, j, from);
    InvariantsHold(cfg, states, steps);
    MeasureIsNatural(cfg, states[|steps|], j);
    MeasureBelowBound(cfg, states[from], j);
  }

  // ----- Nobody is stuck -----

  // The step a worker inside its loop takes next when nothing goes wrong; a job deleted under a worker
  // makes GetJob, or the next insert, fail.
  function NextStep(cfg: Config, t: Tables, w: Worker, i: nat): Step {
    match w.pc
    case Idle => AbandonFinish(i)
    case Claimed => if w.task.job in t.jobs then ReadJob(i) else Fail(i)
    case JobRead => if MaxDurationExceeded(cfg, w.job, w.readAt) then CancelJob(i, true) else StartJob(i, true)
    case Fetching =>
      if w.job.kind == Map then Stop(i)
      else if w.task.job in t.jobs then StoreDocument(i, w.task.requested) else Fail(i)
    case Stored => Stop(i)
    case Planned =>
      if w.task.job !in t.jobs then Fail(i) else if w.job.kind == Map then CommitMap(i) else InsertRow(i)
    case Succeeded => Complete(i, true)
    case Erred => Settle(i, true)
    case Finalised => CountPending(i)
    case Counted => ReadFailed(i)
    case Flagged => WriteStatus(i)
  }

  lemma NextStepGuarded(cfg: Config, s: State, w: Worker, i: nat)
    requires Busy(w) && WorkerSound(cfg, s.tables, s.clock, w) && PlanShape(w)
    ensures
      var step := NextStep(cfg, s.tables, w, i);
      && Guard(cfg, s, w, step) && Advances(step) && !Fault(step) && step.w == i
      && (step.Fail? ==> w.task.job !in s.tables.jobs)
  {
  }

  // An idle worker can claim the first claimable row.
  lemma IdleClaims(cfg: Config, s: State, id: TaskId) returns (step: Step)
    requires s.workers != [] && s.workers[0].pc == Idle
    requires id in s.tables.tasks && Claimable(s.tables.tasks[id], s.clock - cfg.lease)
    ensures Enabled(cfg, s, step) && Advances(step) && !Fault(step) && step.Claim?
  {
    var ids := set k | k in s.tables.tasks && Claimable(s.tables.tasks[k], s.clock - cfg.lease);
    assert id in ids;
    var least := LeastOf(ids);
    assert forall k :: k in s.tables.tasks && Claimable(s.tables.tasks[k], s.clock - cfg.lease) ==> k in ids;
    assert Picks(s.tables, least, s.clock - cfg.lease, {});
    step := Claim(0, least, s.clock, {});
  }

  // With every worker idle, pending rows are queued and the first of them can be claimed.
  lemma IdleCanClaim(cfg: Config, s: State, id: TaskId) returns (step: Step)
    requires ProcessingHeld(s) && s.workers != []
    requires forall i :: 0 <= i < |s.workers| ==> s.workers[i].pc == Idle
    requires id in s.tables.tasks && Pending(s.tables.tasks[id])
    ensures Enabled(cfg, s, step) && Advances(step) && !Fault(step) && step.Claim?
  {
    assert !Held(s.workers, id);
    step := IdleClaims(cfg, s, id);
  }

  // Something is left to do: a worker is inside its loop, or a row is pending.
  ghost predicate Restless(s: State) {
    || (exists i :: 0 <= i < |s.workers| && Busy(s.workers[i]))
    || (exists id :: id in s.tables.tasks && Pending(s.tables.tasks[id]))
  }

  lemma SomeoneCanAdvance(cfg: Config, s: State) returns (step: Step)
    requires LeaseInv(cfg, s) && SiteInv(cfg, s) && ProcessingHeld(s) && s.workers != [] && Restless(s)
    ensures Enabled(cfg, s, step) && Advances(step) && !Fault(step)
    ensures step.Fail? ==> s.workers[step.w].task.job !in s.tables.jobs
  {
    if i :| 0 <= i < |s.workers| && Busy(s.workers[i]) {
      assert WorkerSound(cfg, s.tables, s.clock, s.workers[i]) && WorkerAllowed(cfg, s.tables, s.workers[i]);
      NextStepGuarded(cfg, s, s.workers[i], i);
      step := NextStep(cfg, s.tables, s.workers[i], i);
    } else {
      var id :| id in s.tables.tasks && Pending(s.tables.tasks[id]);
      step := IdleCanClaim(cfg, s, id);
    }
  }

  // NO STANDSTILL. In a fault-free run, while a row is pending or a worker busy, some worker can take its
  // next step, and need not fail unless its job is gone.
  lemma NoStandstill(cfg: Config, states: seq<State>, steps: seq<Step>) returns (step: Step)
    requires 0 <= cfg.interval <= cfg.lease
    requires Run(cfg, states, steps) && Faultless(steps) && states[|steps|].workers != []
    requires Restless(states[|steps|])
    ensures Enabled(cfg, states[|steps|], step) && Advances(step) && !Fault(step)
    ensures step.Fail? ==> states[|steps|].workers[step.w].task.job !in states[|steps|].tables.jobs
  {
    LeaseExclusivity(cfg, states, steps);
    SiteInvHolds(cfg, states, steps);
    AllProcessingHeld(cfg, states, steps);
    step := SomeoneCanAdvance(cfg, states[|steps|]);
  }
}
