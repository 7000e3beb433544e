// The max_tasks cap. TaskCount and InsertTasks are separate statements, so concurrent planners can
// overshoot it; this is by how much at most.
module TaskCap {
  import opened Wrappers
  import opened Sums
  import opened Urls
  import opened Tables
  import opened Frontier
  import opened Protocol
  import opened Rows
  import opened Lease
  import opened Site

  // Tasks worker w has planned for job j and not yet inserted.
  function Unfinished(w: Worker, j: JobId): nat {
    if w.pc == Planned && w.task.job == j then |w.rest| else 0
  }

  function Plans(j: JobId): Worker -> nat {
    (w: Worker) => Unfinished(w, j)
  }

  function Outstanding(workers: seq<Worker>, j: JobId): nat {
    Total(Plans(j), workers)
  }

  // ----- Counting rows -----

  lemma InsertedRows(t: Tables, j: JobId, n: NewTask, k: JobId)
    requires t.nextTask !in t.tasks
    ensures RowsOf(InsertTask(t, j, n), k) ==
            if k == j && !Conflict(t, j, n.final) then RowsOf(t, k) + {t.nextTask} else RowsOf(t, k)
  {
  }

  lemma InsertTaskCount(t: Tables, j: JobId, n: NewTask, k: JobId)
    requires t.nextTask !in t.tasks
    ensures TaskCount(t, k) <= TaskCount(InsertTask(t, j, n), k) <= TaskCount(t, k) + (if k == j then 1 else 0)
  {
    InsertedRows(t, j, n, k);
  }

  lemma {:induction false} InsertTasksCount(t: Tables, j: JobId, ns: seq<NewTask>, k: JobId)
    requires forall id :: id in t.tasks ==> id < t.nextTask
    ensures TaskCount(t, k) <= TaskCount(InsertTasks(t, j, ns), k)
    ensures TaskCount(InsertTasks(t, j, ns), k) <= TaskCount(t, k) + (if k == j then |ns| else 0)
    decreases |ns|
  {
    if ns == [] {
    } else {
      InsertTaskCount(t, j, ns[0], k);
      InsertTasksCount(InsertTask(t, j, ns[0]), j, ns[1..], k);
    }
  }

  // Without an insert a job keeps its rows as long as it exists.
  lemma CountStays(t: Tables, t': Tables, touched: set<TaskId>, adds: set<JobId>, now: int, j: JobId)
    requires RowsFollow(t, t', touched, adds, now) && j in t'.jobs && j !in adds
    ensures TaskCount(t', j) == TaskCount(t, j)
  {
    assert RowsOf(t', j) == RowsOf(t, j);
  }

  lemma OneHolder(cfg: Config, s: State, i: nat)
    requires LeaseInv(cfg, s) && i < |s.workers| && Holding(s.workers[i])
    requires s.workers[i].task.job in s.tables.jobs
    ensures TaskCount(s.tables, s.workers[i].task.job) >= 1
  {
    assert WorkerSound(cfg, s.tables, s.clock, s.workers[i]);
    SubsetSize({s.workers[i].id}, RowsOf(s.tables, s.workers[i].task.job));
  }

  // ----- Several planners -----

  // The workers in q are planners of job j.
  ghost predicate Planners(workers: seq<Worker>, j: JobId, q: set<nat>) {
    forall k :: k in q ==> k < |workers| && workers[k].pc == Planned && workers[k].task.job == j
  }

  function PlannedBelow(workers: seq<Worker>, j: JobId, q: set<nat>, n: nat): nat
    requires n <= |workers|
  {
    if n == 0 then 0
    else PlannedBelow(workers, j, q, n - 1) + (if n - 1 in q then Unfinished(workers[n - 1], j) else 0)
  }

  // What the workers in q have planned and not yet inserted.
  function PlannedBy(workers: seq<Worker>, j: JobId, q: set<nat>): nat {
    PlannedBelow(workers, j, q, |workers|)
  }

  lemma {:induction false} PlannedBelowBut(
      workers: seq<Worker>, workers': seq<Worker>, j: JobId, q: set<nat>, i: nat, n: nat)
    requires |workers'| == |workers| && n <= |workers|
    requires forall k :: 0 <= k < |workers| && k in q && k != i ==>
               Unfinished(workers'[k], j) == Unfinished(workers[k], j)
    ensures PlannedBelow(workers', j, q, n) ==
            PlannedBelow(workers, j, q - {i}, n) + (if i < n && i in q then Unfinished(workers'[i], j) else 0)
  {
    if n == 0 {
    } else {
      PlannedBelowBut(workers, workers', j, q, i, n - 1);
    }
  }

  // The share of worker i, when the others' plans are as in `workers`.
  lemma PlannedByBut(workers: seq<Worker>, workers': seq<Worker>, j: JobId, q: set<nat>, i: nat)
    requires |workers'| == |workers|
    requires forall k :: 0 <= k < |workers| && k in q && k != i ==>
               Unfinished(workers'[k], j) == Unfinished(workers[k], j)
    ensures PlannedBy(workers', j, q) ==
            PlannedBy(workers, j, q - {i}) + (if i < |workers| && i in q then Unfinished(workers'[i], j) else 0)
  {
    PlannedBelowBut(workers, workers', j, q, i, |workers|);
  }

  // All plans but worker i's.
  lemma {:induction false} OutstandingBelow(workers: seq<Worker>, j: JobId, q: set<nat>, i: nat, n: nat)
    requires i < |workers| && n <= |workers| && Unfinished(workers[i], j) == 0
    requires forall k: nat :: k < |workers| && k != i && Unfinished(workers[k], j) > 0 ==> k in q
    ensures Total(Plans(j), workers[..n]) == PlannedBelow(workers, j, q, n)
  {
    if n == 0 {
    } else {
      OutstandingBelow(workers, j, q, i, n - 1);
      assert workers[..n][..n - 1] == workers[..n - 1];
    }
  }

  function RowIds(workers: seq<Worker>, q: set<nat>): set<TaskId>
    requires forall k :: k in q ==> k < |workers|
  {
    set k | k in q :: workers[k].id
  }

  lemma {:induction false} RowIdsDiffer(workers: seq<Worker>, q: set<nat>)
    requires forall k :: k in q ==> k < |workers|
    requires forall a, b :: a in q && b in q && a != b ==> workers[a].id != workers[b].id
    ensures |RowIds(workers, q)| == |q|
    decreases |q|
  {
    if q == {} {
      assert RowIds(workers, q) == {};
    } else {
      var k :| k in q;
      RowIdsDiffer(workers, q - {k});
      assert RowIds(workers, q) == RowIds(workers, q - {k}) + {workers[k].id};
    }
  }

  // Workers busy with a job hold a row each.
  lemma HoldersCount(cfg: Config, s: State, j: JobId, q: set<nat>)
    requires LeaseInv(cfg, s) && j in s.tables.jobs
    requires forall k :: k in q ==> k < |s.workers| && Holding(s.workers[k]) && s.workers[k].task.job == j
    ensures |q| <= TaskCount(s.tables, j)
  {
    RowIdsDiffer(s.workers, q);
    forall id | id in RowIds(s.workers, q)
      ensures id in RowsOf(s.tables, j)
    {
      var k :| k in q && s.workers[k].id == id;
      assert WorkerSound(cfg, s.tables, s.clock, s.workers[k]);
    }
    SubsetSize(RowIds(s.workers, q), RowsOf(s.tables, j));
  }

  // ----- The invariant -----

  // How far q planners beside another one can overshoot: the k-th to plan beside others sees k rows.
  function Overlap(maxTasks: int, q: nat): nat {
    if q == 0 then 0 else Overlap(maxTasks, q - 1) + Max(maxTasks - q - 1, 0)
  }

  lemma {:induction false} OverlapGrows(maxTasks: int, q: nat, n: nat)
    requires q <= n
    ensures Overlap(maxTasks, q) <= Overlap(maxTasks, n)
    decreases n
  {
    if q == n {
    } else {
      OverlapGrows(maxTasks, q, n - 1);
    }
  }

  function Seeded(s: State, j: JobId): nat {
    if j in s.seeded then s.seeded[j] else 0
  }

  function CapBound(cfg: Config, s: State, j: JobId): int {
    Max(Seeded(s, j), cfg.maxTasks) + Overlap(cfg.maxTasks, Max(|s.workers| - 1, 0))
  }

  // The plans of q workers at `count` rows: one more fits as long as nobody else has a row.
  predicate PlansFit(cfg: Config, count: nat, q: nat, planned: nat) {
    planned <= Overlap(cfg.maxTasks, q) + (if count == q then 1 else 0)
  }

  ghost predicate AllPlansFit(cfg: Config, count: nat, workers: seq<Worker>, j: JobId) {
    forall q: set<nat> :: Planners(workers, j, q) ==> PlansFit(cfg, count, |q|, PlannedBy(workers, j, q))
  }

  ghost predicate JobCapped(cfg: Config, s: State, j: JobId) {
    && AllPlansFit(cfg, TaskCount(s.tables, j), s.workers, j)
    && TaskCount(s.tables, j) + Outstanding(s.workers, j) <= CapBound(cfg, s, j)
  }

  ghost predicate Capped(cfg: Config, s: State) {
    forall j :: j in s.tables.jobs ==> JobCapped(cfg, s, j)
  }

  // No plan is longer than the cap.
  lemma OnePlanFits(cfg: Config, s: State, j: JobId, i: nat)
    requires cfg.maxTasks > 0 && AllPlansFit(cfg, TaskCount(s.tables, j), s.workers, j) && i < |s.workers|
    ensures Unfinished(s.workers[i], j) <= cfg.maxTasks
  {
    if Unfinished(s.workers[i], j) > 0 {
      assert Planners(s.workers, j, {i});
      assert Overlap(cfg.maxTasks, 0) == 0 && Overlap(cfg.maxTasks, 1) == Max(cfg.maxTasks - 2, 0);
      PlannedByBut(s.workers, s.workers, j, {i}, i);
    }
  }

  // A worker's plan only shrinks, but for the Plan step.
  lemma PlansShrink(cfg: Config, s: State, w: Worker, step: Step, j: JobId)
    requires Guard(cfg, s, w, step) && !step.Plan?
    ensures Unfinished(NextWorker(cfg, s, w, step), j) <= Unfinished(w, j)
    ensures step.InsertRow? && w.task.job == j ==>
              Unfinished(w, j) > 0 && Unfinished(NextWorker(cfg, s, w, step), j) == Unfinished(w, j) - 1
    ensures step.CommitMap? && w.task.job == j ==> Unfinished(NextWorker(cfg, s, w, step), j) == 0
  {
  }

  // The plan is made against the count it reads.
  lemma PlanIsBounded(cfg: Config, s: State, w: Worker, step: Step)
    requires Guard(cfg, s, w, step) && step.Plan? && cfg.maxTasks > 0
    ensures
      var w' := NextWorker(cfg, s, w, step);
      && w'.task == w.task && w'.pc in {Planned, Succeeded}
      && (w'.pc == Planned && w'.rest != [] ==> TaskCount(s.tables, w.task.job) + |w'.rest| <= cfg.maxTasks)
  {
  }

  // ----- One step -----

  // How a step changes job j's row count: only an insert into j does.
  lemma CountMoves(cfg: Config, s: State, step: Step, j: JobId)
    requires LeaseInv(cfg, s) && Enabled(cfg, s, step)
    requires j in s.tables.jobs && j in NextTables(cfg, s, step).jobs
    ensures j !in Added(s, step) ==> TaskCount(NextTables(cfg, s, step), j) == TaskCount(s.tables, j)
    ensures step.InsertRow? && s.workers[step.w].task.job == j ==>
              TaskCount(NextTables(cfg, s, step), j) <= TaskCount(s.tables, j) + 1
    ensures step.CommitMap? && s.workers[step.w].task.job == j ==>
              TaskCount(NextTables(cfg, s, step), j) <= TaskCount(s.tables, j) + |s.workers[step.w].rest|
  {
    if j !in Added(s, step) {
      StepFollows(cfg, s, step);
      CountStays(s.tables, NextTables(cfg, s, step), Touched(s, step), Added(s, step), s.clock, j);
    } else if step.InsertRow? {
      var w := s.workers[step.w];
      assert NextTables(cfg, s, step) == InsertTasks(s.tables, w.task.job, Head(w.rest));
      InsertTasksCount(s.tables, w.task.job, Head(w.rest), j);
    } else if step.CommitMap? {
      var w := s.workers[step.w];
      var mapped := InsertMappedBatch(s.tables, MappedRows(w));
      MappedFollows(s.tables, w, s.clock);
      assert NextTables(cfg, s, step) == InsertTasks(mapped, w.task.job, w.rest);
      assert RowsOf(mapped, j) == RowsOf(s.tables, j);
      InsertTasksCount(mapped, w.task.job, w.rest, j);
    }
  }

  // Rows plus plans do not grow, but for the Plan step.
  lemma SumShrinks(cfg: Config, s: State, step: Step, j: JobId)
    requires LeaseInv(cfg, s) && Enabled(cfg, s, step) && !step.Plan?
    requires j in s.tables.jobs && j in NextTables(cfg, s, step).jobs
    ensures TaskCount(NextTables(cfg, s, step), j) + Outstanding(NextWorkers(cfg, s, step), j)
         <= TaskCount(s.tables, j) + Outstanding(s.workers, j)
  {
    CountMoves(cfg, s, step, j);
    if ByWorker(step) {
      MoverPlanShrinks(cfg, s, step, j);
    }
  }

  lemma MoverPlanShrinks(cfg: Config, s: State, step: Step, j: JobId)
    requires Enabled(cfg, s, step) && ByWorker(step) && !step.Plan?
    ensures
      var w, w' := s.workers[step.w], NextWorker(cfg, s, s.workers[step.w], step);
      && Unfinished(w', j) <= Unfinished(w, j)
      && (step.InsertRow? && w.task.job == j ==> Unfinished(w', j) == Unfinished(w, j) - 1)
      && (step.CommitMap? && w.task.job == j ==> Unfinished(w', j) == 0 && Unfinished(w, j) == |w.rest|)
      && Outstanding(NextWorkers(cfg, s, step), j)
         == Outstanding(s.workers, j) - Unfinished(w, j) + Unfinished(w', j)
  {
    PlansShrink(cfg, s, s.workers[step.w], step, j);
    TotalUpdate(Plans(j), s.workers, step.w, NextWorker(cfg, s, s.workers[step.w], step));
  }

  // The planners of job j but worker i.
  function PlannersBut(workers: seq<Worker>, j: JobId, i: nat): set<nat> {
    set k: nat | k < |workers| && k != i && Unfinished(workers[k], j) > 0
  }

  lemma OthersPlanned(workers: seq<Worker>, j: JobId, i: nat)
    requires i < |workers|
    ensures Outstanding(workers, j) - Unfinished(workers[i], j) == PlannedBy(workers, j, PlannersBut(workers, j, i))
  {
    var q := PlannersBut(workers, j, i);
    var idle := workers[i].(pc := Idle);
    var others := workers[i := idle];
    TotalUpdate(Plans(j), workers, i, idle);
    OutstandingBelow(others, j, q, i, |others|);
    assert others[..|others|] == others;
    PlannedByBut(workers, others, j, q, i);
    assert q - {i} == q;
  }

  // When worker i plans, the others' plans are within the bound.
  lemma OthersWithinOverlap(cfg: Config, s: State, i: nat, j: JobId)
    requires LeaseInv(cfg, s) && JobCapped(cfg, s, j) && j in s.tables.jobs
    requires i < |s.workers| && Holding(s.workers[i]) && s.workers[i].task.job == j
    ensures Outstanding(s.workers, j) - Unfinished(s.workers[i], j) <= Overlap(cfg.maxTasks, |s.workers| - 1)
  {
    var q := PlannersBut(s.workers, j, i);
    OthersPlanned(s.workers, j, i);
    PlannersWithinOverlap(cfg, s, j, q, i);
    IndicesBut(|s.workers|, i, q);
    OverlapGrows(cfg.maxTasks, |q|, |s.workers| - 1);
  }

  lemma IndicesBut(n: nat, i: nat, q: set<nat>)
    requires i < n && forall k :: k in q ==> k < n && k != i
    ensures |q| <= n - 1
  {
    BelowExact(n);
    SubsetSize(q, Below(n) - {i});
  }

  // Planners beside another worker with a row of the job.
  lemma PlannersWithinOverlap(cfg: Config, s: State, j: JobId, q: set<nat>, i: nat)
    requires LeaseInv(cfg, s) && AllPlansFit(cfg, TaskCount(s.tables, j), s.workers, j) && j in s.tables.jobs
    requires i < |s.workers| && Holding(s.workers[i]) && s.workers[i].task.job == j
    requires Planners(s.workers, j, q) && i !in q
    ensures |q| + 1 <= TaskCount(s.tables, j) && PlannedBy(s.workers, j, q) <= Overlap(cfg.maxTasks, |q|)
  {
    HoldersCount(cfg, s, j, q + {i});
    assert |q + {i}| == |q| + 1;
  }

  // The new plan is within what the count leaves.
  lemma PlanStepFits(cfg: Config, s: State, step: Step)
    requires cfg.maxTasks > 0 && LeaseInv(cfg, s) && Enabled(cfg, s, step) && step.Plan?
    requires s.workers[step.w].task.job in s.tables.jobs
    ensures
      var w := s.workers[step.w];
      var unfinished := Unfinished(NextWorker(cfg, s, w, step), w.task.job);
      1 <= TaskCount(s.tables, w.task.job)
      && unfinished <= Max(cfg.maxTasks - TaskCount(s.tables, w.task.job), 0)
  {
    PlanIsBounded(cfg, s, s.workers[step.w], step);
    OneHolder(cfg, s, step.w);
  }

  lemma PlanStepSum(cfg: Config, s: State, step: Step, j: JobId)
    requires cfg.maxTasks > 0 && LeaseInv(cfg, s) && JobCapped(cfg, s, j)
    requires Enabled(cfg, s, step) && step.Plan? && j in s.tables.jobs
    ensures TaskCount(s.tables, j) + Outstanding(NextWorkers(cfg, s, step), j) <= CapBound(cfg, s, j)
  {
    var w := s.workers[step.w];
    var w' := NextWorker(cfg, s, w, step);
    assert NextWorkers(cfg, s, step) == s.workers[step.w := w'];
    TotalUpdate(Plans(j), s.workers, step.w, w');
    if w.task.job == j {
      PlanStepFits(cfg, s, step);
      OthersWithinOverlap(cfg, s, step.w, j);
    } else {
      PlanIsBounded(cfg, s, w, step);
    }
  }

  // Only an insert into j, by a worker with a row of j, lets its count grow.
  lemma CountGrowth(cfg: Config, s: State, step: Step, j: JobId)
    requires LeaseInv(cfg, s) && Enabled(cfg, s, step)
    requires j in s.tables.jobs && j in NextTables(cfg, s, step).jobs
    ensures TaskCount(NextTables(cfg, s, step), j) != TaskCount(s.tables, j) ==>
              && (step.InsertRow? || step.CommitMap?)
              && Holding(s.workers[step.w]) && s.workers[step.w].task.job == j
  {
    if j in Added(s, step) {
      AddersHold(cfg, s, step, j);
    } else {
      CountMoves(cfg, s, step, j);
    }
  }

  lemma AddersHold(cfg: Config, s: State, step: Step, j: JobId)
    requires LeaseInv(cfg, s) && Enabled(cfg, s, step) && j in s.tables.jobs && j in Added(s, step)
    ensures step.InsertRow? || step.CommitMap?
    ensures Holding(s.workers[step.w]) && s.workers[step.w].task.job == j
  {
  }

  // The plans of q when worker i, who is none of them, has moved ...
  lemma OthersKeepPlans(workers: seq<Worker>, i: nat, w': Worker, j: JobId, q: set<nat>)
    requires i < |workers| && i !in q && Planners(workers[i := w'], j, q)
    ensures Planners(workers, j, q) && PlannedBy(workers[i := w'], j, q) == PlannedBy(workers, j, q)
  {
    assert forall k :: k in q ==> workers[i := w'][k] == workers[k];
    PlannedByBut(workers, workers[i := w'], j, q, i);
    assert q - {i} == q;
  }

  // ... and when worker i is one of them.
  lemma MoverAdds(workers: seq<Worker>, i: nat, w': Worker, j: JobId, q: set<nat>)
    requires i < |workers| && i in q && Planners(workers[i := w'], j, q)
    ensures w'.pc == Planned && w'.task.job == j && Planners(workers, j, q - {i}) && |q| == |q - {i}| + 1
    ensures PlannedBy(workers[i := w'], j, q) == PlannedBy(workers, j, q - {i}) + Unfinished(w', j)
  {
    assert workers[i := w'][i] == w';
    assert forall k :: k in q - {i} ==> workers[i := w'][k] == workers[k];
    PlannedByBut(workers, workers[i := w'], j, q, i);
  }

  // The plans still fit after the step: those of workers that do not move, ...
  lemma RestingPlansFit(cfg: Config, s: State, step: Step, j: JobId, q: set<nat>)
    requires LeaseInv(cfg, s) && AllPlansFit(cfg, TaskCount(s.tables, j), s.workers, j) && Enabled(cfg, s, step)
    requires j in s.tables.jobs && j in NextTables(cfg, s, step).jobs
    requires Planners(s.workers, j, q) && !(ByWorker(step) && step.w in q)
    ensures PlansFit(cfg, TaskCount(NextTables(cfg, s, step), j), |q|, PlannedBy(s.workers, j, q))
  {
    CountGrowth(cfg, s, step, j);
    if TaskCount(NextTables(cfg, s, step), j) != TaskCount(s.tables, j) {
      PlannersWithinOverlap(cfg, s, j, q, step.w);
    }
  }

  // ... those with a planner that moves on, ...
  lemma MovingPlansFit(cfg: Config, s: State, step: Step, j: JobId, q: set<nat>)
    requires LeaseInv(cfg, s) && AllPlansFit(cfg, TaskCount(s.tables, j), s.workers, j) && Enabled(cfg, s, step)
    requires j in s.tables.jobs && j in NextTables(cfg, s, step).jobs
    requires ByWorker(step) && step.w in q && !step.Plan?
    requires Planners(s.workers[step.w := NextWorker(cfg, s, s.workers[step.w], step)], j, q)
    ensures PlansFit(cfg, TaskCount(NextTables(cfg, s, step), j), |q|,
                     PlannedBy(s.workers[step.w := NextWorker(cfg, s, s.workers[step.w], step)], j, q))
  {
    var i, w := step.w, s.workers[step.w];
    var w' := NextWorker(cfg, s, w, step);
    MoverAdds(s.workers, i, w', j, q);
    StillPlanning(cfg, s, w, step);
    assert Planners(s.workers, j, q) && s.workers[i := w] == s.workers;
    MoverAdds(s.workers, i, w, j, q);
    PlansShrink(cfg, s, w, step, j);
    CountGrowth(cfg, s, step, j);
  }

  lemma StillPlanning(cfg: Config, s: State, w: Worker, step: Step)
    requires Guard(cfg, s, w, step) && ByWorker(step) && !step.Plan? && NextWorker(cfg, s, w, step).pc == Planned
    ensures w.pc == Planned && NextWorker(cfg, s, w, step).task == w.task && !step.CommitMap?
  {
  }

  // ... and those with a new one.
  lemma NewPlansFit(cfg: Config, s: State, step: Step, j: JobId, q: set<nat>)
    requires cfg.maxTasks > 0
    requires LeaseInv(cfg, s) && AllPlansFit(cfg, TaskCount(s.tables, j), s.workers, j) && Enabled(cfg, s, step)
    requires j in s.tables.jobs && step.Plan? && step.w in q
    requires Planners(s.workers[step.w := NextWorker(cfg, s, s.workers[step.w], step)], j, q)
    ensures PlansFit(cfg, TaskCount(s.tables, j), |q|,
                     PlannedBy(s.workers[step.w := NextWorker(cfg, s, s.workers[step.w], step)], j, q))
  {
    var w := s.workers[step.w];
    var w' := NextWorker(cfg, s, w, step);
    MoverAdds(s.workers, step.w, w', j, q);
    PlannerHolds(cfg, s, w, step);
    PlannersWithinOverlap(cfg, s, j, q - {step.w}, step.w);
    PlanStepFits(cfg, s, step);
    OneMorePlanner(
      cfg, TaskCount(s.tables, j), |q - {step.w}|, PlannedBy(s.workers, j, q - {step.w}), Unfinished(w', j));
  }

  lemma PlannerHolds(cfg: Config, s: State, w: Worker, step: Step)
    requires Guard(cfg, s, w, step) && step.Plan?
    ensures Holding(w) && NextWorker(cfg, s, w, step).task == w.task
  {
  }

  lemma OneMorePlanner(cfg: Config, count: nat, q: nat, planned: nat, unfinished: nat)
    requires q + 1 <= count && planned <= Overlap(cfg.maxTasks, q) && unfinished <= Max(cfg.maxTasks - count, 0)
    ensures PlansFit(cfg, count, q + 1, planned + unfinished)
  {
  }

  lemma PlansStillFit(cfg: Config, s: State, step: Step, j: JobId)
    requires cfg.maxTasks > 0 && LeaseInv(cfg, s) && Enabled(cfg, s, step)
    requires AllPlansFit(cfg, TaskCount(s.tables, j), s.workers, j)
    requires j in s.tables.jobs && j in NextTables(cfg, s, step).jobs
    ensures AllPlansFit(cfg, TaskCount(NextTables(cfg, s, step), j), NextWorkers(cfg, s, step), j)
  {
    forall q: set<nat> | Planners(NextWorkers(cfg, s, step), j, q)
      ensures PlansFit(cfg, TaskCount(NextTables(cfg, s, step), j), |q|, PlannedBy(NextWorkers(cfg, s, step), j, q))
    {
      SomePlansFit(cfg, s, step, j, q);
    }
  }

  lemma SomePlansFit(cfg: Config, s: State, step: Step, j: JobId, q: set<nat>)
    requires cfg.maxTasks > 0 && LeaseInv(cfg, s) && Enabled(cfg, s, step)
    requires AllPlansFit(cfg, TaskCount(s.tables, j), s.workers, j)
    requires j in s.tables.jobs && j in NextTables(cfg, s, step).jobs && Planners(NextWorkers(cfg, s, step), j, q)
    ensures PlansFit(cfg, TaskCount(NextTables(cfg, s, step), j), |q|, PlannedBy(NextWorkers(cfg, s, step), j, q))
  {
    if !ByWorker(step) {
      RestingPlansFit(cfg, s, step, j, q);
    } else if step.w !in q {
      OthersKeepPlans(s.workers, step.w, NextWorker(cfg, s, s.workers[step.w], step), j, q);
      RestingPlansFit(cfg, s, step, j, q);
    } else if step.Plan? {
      CountGrowth(cfg, s, step, j);
      NewPlansFit(cfg, s, step, j, q);
    } else {
      MovingPlansFit(cfg, s, step, j, q);
    }
  }

  lemma SumStaysCapped(cfg: Config, s: State, step: Step, j: JobId)
    requires cfg.maxTasks > 0 && LeaseInv(cfg, s) && JobCapped(cfg, s, j) && Enabled(cfg, s, step)
    requires j in s.tables.jobs && j in NextTables(cfg, s, step).jobs
    ensures TaskCount(NextTables(cfg, s, step), j) + Outstanding(NextWorkers(cfg, s, step), j) <= CapBound(cfg, s, j)
  {
    if step.Plan? {
      PlanStepSum(cfg, s, step, j);
      CountMoves(cfg, s, step, j);
    } else {
      SumShrinks(cfg, s, step, j);
    }
  }

  lemma StepKeepsCap(cfg: Config, s: State, step: Step, j: JobId)
    requires cfg.maxTasks > 0 && LeaseInv(cfg, s) && JobCapped(cfg, s, j) && Enabled(cfg, s, step)
    requires j in s.tables.jobs && j in NextTables(cfg, s, step).jobs
    ensures JobCapped(cfg, Apply(cfg, s, step), j)
  {
    PlansStillFit(cfg, s, step, j);
    SumStaysCapped(cfg, s, step, j);
    assert Seeded(Apply(cfg, s, step), j) == Seeded(s, j) by {
      assert j < s.tables.nextJob;
    }
    assert |NextWorkers(cfg, s, step)| == |s.workers|;
  }

  // A new job has no plan yet.
  lemma CreateKeepsCap(cfg: Config, s: State, step: Step)
    requires cfg.maxTasks > 0 && LeaseInv(cfg, s) && Enabled(cfg, s, step) && step.CreateJob?
    ensures JobCapped(cfg, Apply(cfg, s, step), s.tables.nextJob)
  {
    var j, next := s.tables.nextJob, Apply(cfg, s, step);
    NothingPlanned(cfg, s, j);
    assert next.workers == s.workers;
    assert Seeded(next, j) == TaskCount(next.tables, j);
    CappedAtFirst(cfg, next, j);
  }

  lemma CappedAtFirst(cfg: Config, s: State, j: JobId)
    requires cfg.maxTasks > 0 && Seeded(s, j) == TaskCount(s.tables, j) && Outstanding(s.workers, j) == 0
    requires forall k :: 0 <= k < |s.workers| ==> s.workers[k].pc == Planned ==> s.workers[k].task.job != j
    ensures JobCapped(cfg, s, j)
  {
    forall q: set<nat> | Planners(s.workers, j, q)
      ensures PlansFit(cfg, TaskCount(s.tables, j), |q|, PlannedBy(s.workers, j, q))
    {
      assert q == {};
      NobodyPlanned(s.workers, j, |s.workers|);
    }
  }

  lemma {:induction false} NobodyPlanned(workers: seq<Worker>, j: JobId, n: nat)
    requires n <= |workers|
    ensures PlannedBelow(workers, j, {}, n) == 0
  {
    if n == 0 {
    } else {
      NobodyPlanned(workers, j, n - 1);
    }
  }

  lemma NothingPlanned(cfg: Config, s: State, j: JobId)
    requires LeaseInv(cfg, s) && j >= s.tables.nextJob
    ensures Outstanding(s.workers, j) == 0
    ensures forall k :: 0 <= k < |s.workers| ==> s.workers[k].pc == Planned ==> s.workers[k].task.job != j
  {
    forall k | 0 <= k < |s.workers|
      ensures s.workers[k].pc == Planned ==> s.workers[k].task.job != j
    {
      assert WorkerSound(cfg, s.tables, s.clock, s.workers[k]);
    }
    TotalBound(Plans(j), s.workers, 0);
  }

  // THE TASK CAP. In every run with a cap M > 0 and W workers, a job created with s rows never has more than
  // max(s, M) rows and, for each k from 2 to W, max(M - k, 0) more, plans not yet inserted included.
  lemma {:induction false} TaskCapHolds(cfg: Config, states: seq<State>, steps: seq<Step>)
    requires 0 <= cfg.interval <= cfg.lease && cfg.maxTasks > 0
    requires Run(cfg, states, steps)
    ensures Capped(cfg, states[|steps|])
    ensures forall j :: j in states[|steps|].tables.jobs ==>
              TaskCount(states[|steps|].tables, j) <= CapBound(cfg, states[|steps|], j)
    decreases |steps|
  {
    if steps == [] {
    } else {
      var n := |steps| - 1;
      Prefix(cfg, states, steps);
      TaskCapHolds(cfg, states[..|steps|], steps[..n]);
      LeaseExclusivity(cfg, states[..|steps|], steps[..n]);
      forall j | j in states[|steps|].tables.jobs
        ensures JobCapped(cfg, states[|steps|], j)
      {
        if j in states[n].tables.jobs {
          StepKeepsCap(cfg, states[n], steps[n], j);
        } else {
          NewJobs(cfg, states[n], steps[n], j);
          CreateKeepsCap(cfg, states[n], steps[n]);
        }
      }
    }
  }

  // With one worker, or a cap of at most two, the cap is kept exactly.
  lemma TaskCapExact(cfg: Config, states: seq<State>, steps: seq<Step>, j: JobId)
    requires 0 <= cfg.interval <= cfg.lease && cfg.maxTasks > 0
    requires Run(cfg, states, steps) && j in states[|steps|].tables.jobs
    requires |states[|steps|].workers| <= 1 || cfg.maxTasks <= 2
    ensures TaskCount(states[|steps|].tables, j) <= Max(Seeded(states[|steps|], j), cfg.maxTasks)
  {
    TaskCapHolds(cfg, states, steps);
    NoSlack(cfg, states[|steps|], j);
  }

  lemma NoSlack(cfg: Config, s: State, j: JobId)
    requires |s.workers| <= 1 || cfg.maxTasks <= 2
    ensures CapBound(cfg, s, j) == Max(Seeded(s, j), cfg.maxTasks)
  {
    NoOverlap(cfg.maxTasks, Max(|s.workers| - 1, 0));
  }

  lemma {:induction false} NoOverlap(maxTasks: int, q: nat)
    ensures Overlap(maxTasks, q) == 0 <==> q == 0 || maxTasks <= 2
  {
    if q == 0 {
    } else {
      NoOverlap(maxTasks, q - 1);
    }
  }

  // ----- Batches -----

  ghost predicate BatchKeepsRows(s: State, j: JobId)
    requires j in s.tables.jobs
  {
    s.tables.jobs[j].kind == BatchScrape ==> TaskCount(s.tables, j) == Seeded(s, j)
  }

  ghost predicate BatchesKeepRows(s: State) {
    forall j :: j in s.tables.jobs ==> BatchKeepsRows(s, j)
  }

  // Nobody inserts into a batch job.
  lemma NoBatchInserts(cfg: Config, s: State, step: Step, j: JobId)
    requires LeaseInv(cfg, s) && SiteInv(cfg, s) && Enabled(cfg, s, step)
    requires j in s.tables.jobs && s.tables.jobs[j].kind == BatchScrape
    ensures j !in Added(s, step)
  {
    if step.InsertRow? || step.CommitMap? {
      assert WorkerAllowed(cfg, s.tables, s.workers[step.w]);
    }
  }

  lemma StepKeepsBatch(cfg: Config, s: State, step: Step, j: JobId)
    requires LeaseInv(cfg, s) && SiteInv(cfg, s) && BatchesKeepRows(s) && Enabled(cfg, s, step)
    requires j in NextTables(cfg, s, step).jobs && NextTables(cfg, s, step).jobs[j].kind == BatchScrape
    ensures TaskCount(NextTables(cfg, s, step), j) == Seeded(Apply(cfg, s, step), j)
  {
    if j in s.tables.jobs {
      assert BatchKeepsRows(s, j);
      JobMoves(cfg, s, step, j);
      NoBatchInserts(cfg, s, step, j);
      CountMoves(cfg, s, step, j);
    } else {
      NewJobs(cfg, s, step, j);
    }
  }

  // A batch job keeps exactly the rows it was created with: it follows no links.
  lemma {:induction false} BatchesKeepTheirRows(cfg: Config, states: seq<State>, steps: seq<Step>)
    requires 0 <= cfg.interval <= cfg.lease
    requires Run(cfg, states, steps)
    ensures BatchesKeepRows(states[|steps|])
    decreases |steps|
  {
    if steps == [] {
    } else {
      var n := |steps| - 1;
      Prefix(cfg, states, steps);
      BatchesKeepTheirRows(cfg, states[..|steps|], steps[..n]);
      LeaseExclusivity(cfg, states[..|steps|], steps[..n]);
      SiteInvHolds(cfg, states[..|steps|], steps[..n]);
      assert states[n + 1] == Apply(cfg, states[n], steps[n]);
      forall j | j in NextTables(cfg, states[n], steps[n]).jobs
        ensures BatchKeepsRows(states[n + 1], j)
      {
        if states[n + 1].tables.jobs[j].kind == BatchScrape {
          StepKeepsBatch(cfg, states[n], steps[n], j);
        }
      }
    }
  }
}
