// With one worker and no faults the queue is breadth first, retries and partial inserts included.
module BreadthFirst {
  import opened Wrappers
  import opened Urls
  import opened Tables
  import opened Protocol
  import opened Rows
  import opened Lease
  import opened Site

  // ----- Processing rows have a holder -----

  ghost predicate Held(workers: seq<Worker>, id: TaskId) {
    exists i :: 0 <= i < |workers| && Holding(workers[i]) && workers[i].id == id
  }

  ghost predicate ProcessingHeld(s: State) {
    forall id :: id in s.tables.tasks && s.tables.tasks[id].status == Processing ==> Held(s.workers, id)
  }

  // Without faults a worker lets go of its row only by finalising it.
  lemma HolderContinues(cfg: Config, s: State, w: Worker, step: Step)
    requires Holding(w) && Guard(cfg, s, w, step) && ByWorker(step) && !Fault(step)
    ensures
      || (Holding(NextWorker(cfg, s, w, step)) && NextWorker(cfg, s, w, step).id == w.id)
      || ((step.Complete? || step.Settle?) && step.ok)
  {
  }

  lemma HoldContinues(cfg: Config, s: State, step: Step, id: TaskId)
    requires Enabled(cfg, s, step) && !Fault(step) && Held(s.workers, id)
    ensures Held(NextWorkers(cfg, s, step), id) || ((step.Complete? || step.Settle?) && id in Touched(s, step))
  {
    var i :| 0 <= i < |s.workers| && Holding(s.workers[i]) && s.workers[i].id == id;
    if ByWorker(step) && step.w == i {
      assert NextWorkers(cfg, s, step)[i] == NextWorker(cfg, s, s.workers[i], step);
      HolderContinues(cfg, s, s.workers[i], step);
    } else {
      assert NextWorkers(cfg, s, step)[i] == s.workers[i];
    }
  }

  lemma FinalisedNotProcessing(t: Tables, id: TaskId)
    requires id in t.tasks
    ensures CompleteTask(t, id).tasks[id].status == Done
    ensures RetryTask(t, id).tasks[id].status == Queued && FailTask(t, id).tasks[id].status == Failed
  {
  }

  lemma StepKeepsHeld(cfg: Config, s: State, step: Step, id: TaskId)
    requires Sound(s.tables) && ProcessingHeld(s) && Enabled(cfg, s, step) && !Fault(step)
    requires id in NextTables(cfg, s, step).tasks && NextTables(cfg, s, step).tasks[id].status == Processing
    ensures Held(NextWorkers(cfg, s, step), id)
  {
    if id in Touched(s, step) {
      TouchedStaysHeld(cfg, s, step, id);
    } else {
      UntouchedWasProcessing(cfg, s, step, id);
      HoldContinues(cfg, s, step, id);
    }
  }

  // Of the statements that touch a row only the claim leaves it processing.
  lemma TouchedStaysHeld(cfg: Config, s: State, step: Step, id: TaskId)
    requires Enabled(cfg, s, step) && !Fault(step) && id in Touched(s, step)
    requires id in NextTables(cfg, s, step).tasks && NextTables(cfg, s, step).tasks[id].status == Processing
    ensures Held(NextWorkers(cfg, s, step), id)
  {
    TouchedTables(cfg, s, step, id);
    if step.Claim? {
      assert NextWorkers(cfg, s, step)[step.w].id == id;
    } else if id in s.tables.tasks {
      FinalisedNotProcessing(s.tables, id);
    }
  }

  lemma UntouchedWasProcessing(cfg: Config, s: State, step: Step, id: TaskId)
    requires Sound(s.tables) && Enabled(cfg, s, step) && id !in Touched(s, step)
    requires id in NextTables(cfg, s, step).tasks && NextTables(cfg, s, step).tasks[id].status == Processing
    ensures id in s.tables.tasks && s.tables.tasks[id].status == Processing
  {
    StepFollows(cfg, s, step);
  }

  lemma {:induction false} AllProcessingHeld(cfg: Config, states: seq<State>, steps: seq<Step>)
    requires 0 <= cfg.interval <= cfg.lease
    requires Run(cfg, states, steps) && Faultless(steps)
    ensures ProcessingHeld(states[|steps|])
    decreases |steps|
  {
    if steps == [] {
    } else {
      var n := |steps| - 1;
      Prefix(cfg, states, steps);
      AllProcessingHeld(cfg, states[..|steps|], steps[..n]);
      LeaseExclusivity(cfg, states[..|steps|], steps[..n]);
      forall id | id in states[|steps|].tables.tasks && states[|steps|].tables.tasks[id].status == Processing
        ensures Held(states[|steps|].workers, id)
      {
        StepKeepsHeld(cfg, states[n], steps[n], id);
      }
    }
  }

  // ----- The order of a job's rows -----

  // Rows a < b of one job: b is no shallower; if a is pending, b is at most one level deeper and b is
  // pending too.
  predicate InOrder(a: Task, b: Task) {
    a.job == b.job ==>
      a.depth <= b.depth && (Pending(a) ==> Pending(b) && b.depth <= a.depth + 1)
  }

  ghost predicate Ordered(t: Tables) {
    forall a, b | a in t.tasks && b in t.tasks && a < b :: InOrder(t.tasks[a], t.tasks[b])
  }

  // No pending row of its job comes before row id.
  ghost predicate First(t: Tables, id: TaskId) {
    id in t.tasks ==>
      Pending(t.tasks[id])
      && forall a :: a in t.tasks && t.tasks[a].job == t.tasks[id].job && Pending(t.tasks[a]) ==> id <= a
  }

  ghost predicate OrderInv(s: State) {
    Ordered(s.tables) && forall i :: 0 <= i < |s.workers| && Holding(s.workers[i]) ==> First(s.tables, s.workers[i].id)
  }

  // Tables whose rows are those of t, as pending and as deep as there.
  ghost predicate SameOrder(t: Tables, t': Tables) {
    forall id :: id in t'.tasks ==>
      id in t.tasks && SameTask(t.tasks[id], t'.tasks[id]) && Pending(t'.tasks[id]) == Pending(t.tasks[id])
  }

  lemma SameOrderKeeps(t: Tables, t': Tables, id: TaskId)
    requires SameOrder(t, t') && Ordered(t)
    ensures Ordered(t') && (First(t, id) ==> First(t', id))
  {
  }

  // Steps that neither finalise nor insert.
  lemma MostKeepOrder(cfg: Config, s: State, step: Step)
    requires Sound(s.tables) && Enabled(cfg, s, step) && Added(s, step) == {}
    requires Touched(s, step) == {} || step.Claim?
    ensures SameOrder(s.tables, NextTables(cfg, s, step))
  {
    StepFollows(cfg, s, step);
    if step.Claim? {
      assert NextTables(cfg, s, step) == ClaimTask(s.tables, step.id, s.clock);
    }
  }

  // Finalising the first pending row.
  lemma FinaliseKeepsOrder(t: Tables, id: TaskId)
    requires Ordered(t) && First(t, id)
    ensures Ordered(CompleteTask(t, id)) && Ordered(RetryTask(t, id)) && Ordered(FailTask(t, id))
  {
  }

  // Enqueueing children of the first pending row, one level down.
  lemma ChildrenKeepOrder(t: Tables, t': Tables, j: JobId, ns: seq<NewTask>, id: TaskId)
    requires Ordered(t) && FreshIds(t) && Adds(t, t', j, ns)
    requires id in t.tasks && t.tasks[id].job == j && First(t, id)
    requires forall k :: 0 <= k < |ns| ==> ns[k].depth == t.tasks[id].depth + 1
    ensures Ordered(t') && First(t', id)
  {
  }

  // Seeding a new job.
  lemma SeedsKeepOrder(t: Tables, t': Tables, j: JobId, ns: seq<NewTask>, id: TaskId)
    requires Ordered(t) && FreshIds(t) && Adds(t, t', j, ns)
    requires forall a :: a in t.tasks ==> t.tasks[a].job != j
    requires forall k :: 0 <= k < |ns| ==> ns[k].depth == 0
    ensures Ordered(t') && (First(t, id) && id < t.nextTask ==> First(t', id))
  {
  }

  // ----- The single worker -----

  // What the theorem assumes of a run: one worker, no faults, and no other session's row locks.
  ghost predicate Alone(s: State, step: Step) {
    |s.workers| == 1 && !Fault(step) && (step.Claim? ==> step.locked == {})
  }

  lemma ClaimIsFirst(cfg: Config, s: State, step: Step)
    requires ProcessingHeld(s) && Enabled(cfg, s, step) && Alone(s, step) && step.Claim?
    ensures First(s.tables, step.id)
  {
  }

  // The planner's row is the first pending one, and its plan is one level down.
  lemma PlannerIsFirst(cfg: Config, s: State, step: Step)
    requires LeaseInv(cfg, s) && SiteInv(cfg, s) && OrderInv(s) && Enabled(cfg, s, step)
    requires step.InsertRow? || step.CommitMap?
    ensures
      var w := s.workers[step.w];
      && w.id in s.tables.tasks && s.tables.tasks[w.id].job == w.task.job && First(s.tables, w.id)
      && forall k :: 0 <= k < |w.rest| ==> w.rest[k].depth == s.tables.tasks[w.id].depth + 1
  {
    WorkedJobIsPending(cfg, s, step.w);
    assert WorkerAllowed(cfg, s.tables, s.workers[step.w]);
  }

  lemma InsertStepKeepsOrder(cfg: Config, s: State, step: Step)
    requires LeaseInv(cfg, s) && SiteInv(cfg, s) && OrderInv(s) && Enabled(cfg, s, step) && step.InsertRow?
    ensures Ordered(NextTables(cfg, s, step)) && First(NextTables(cfg, s, step), s.workers[step.w].id)
  {
    var w := s.workers[step.w];
    PlannerIsFirst(cfg, s, step);
    assert NextTables(cfg, s, step) == InsertTasks(s.tables, w.task.job, Head(w.rest));
    InsertTasksAdds(s.tables, w.task.job, Head(w.rest));
    ChildrenKeepOrder(s.tables, NextTables(cfg, s, step), w.task.job, Head(w.rest), w.id);
  }

  lemma CommitStepKeepsOrder(cfg: Config, s: State, step: Step)
    requires LeaseInv(cfg, s) && SiteInv(cfg, s) && OrderInv(s) && Enabled(cfg, s, step) && step.CommitMap?
    ensures Ordered(NextTables(cfg, s, step)) && First(NextTables(cfg, s, step), s.workers[step.w].id)
  {
    var w := s.workers[step.w];
    var base := InsertMappedBatch(s.tables, MappedRows(w));
    assert NextTables(cfg, s, step) == InsertTasks(base, w.task.job, w.rest);
    PlannerIsFirst(cfg, s, step);
    MappedFollows(s.tables, w, s.clock);
    BatchKeepsOrder(base, InsertTasks(base, w.task.job, w.rest), s.tables, w);
  }

  lemma BatchKeepsOrder(base: Tables, t': Tables, t: Tables, w: Worker)
    requires Ordered(t) && First(t, w.id) && w.id in t.tasks && t.tasks[w.id].job == w.task.job
    requires base.tasks == t.tasks && FreshIds(base) && t' == InsertTasks(base, w.task.job, w.rest)
    requires forall k :: 0 <= k < |w.rest| ==> w.rest[k].depth == t.tasks[w.id].depth + 1
    ensures Ordered(t') && First(t', w.id)
  {
    InsertTasksAdds(base, w.task.job, w.rest);
    ChildrenKeepOrder(base, t', w.task.job, w.rest, w.id);
  }

  lemma ChildStepKeepsOrder(cfg: Config, s: State, step: Step)
    requires LeaseInv(cfg, s) && SiteInv(cfg, s) && OrderInv(s) && Enabled(cfg, s, step)
    requires step.InsertRow? || step.CommitMap?
    ensures Ordered(NextTables(cfg, s, step)) && First(NextTables(cfg, s, step), s.workers[step.w].id)
  {
    if step.InsertRow? {
      InsertStepKeepsOrder(cfg, s, step);
    } else {
      CommitStepKeepsOrder(cfg, s, step);
    }
  }

  lemma SeedStepKeepsOrder(cfg: Config, s: State, step: Step, id: TaskId)
    requires LeaseInv(cfg, s) && OrderInv(s) && Enabled(cfg, s, step) && step.CreateJob?
    ensures Ordered(NextTables(cfg, s, step))
    ensures First(s.tables, id) && id < s.tables.nextTask ==> First(NextTables(cfg, s, step), id)
  {
    var created := InsertJob(s.tables, step.job);
    var ns := SeedTasks(step.seeds, cfg);
    assert NextTables(cfg, s, step) == InsertTasks(created, s.tables.nextJob, ns);
    InsertTasksAdds(created, s.tables.nextJob, ns);
    SeedsKeepOrder(created, NextTables(cfg, s, step), s.tables.nextJob, ns, id);
  }

  lemma FinalStepKeepsOrder(cfg: Config, s: State, step: Step)
    requires LeaseInv(cfg, s) && OrderInv(s) && Enabled(cfg, s, step)
    requires (step.Complete? || step.Settle?) && Touched(s, step) != {}
    ensures Ordered(NextTables(cfg, s, step))
  {
    var id := s.workers[step.w].id;
    TouchedTables(cfg, s, step, id);
    FinaliseKeepsOrder(s.tables, id);
  }

  lemma StepKeepsOrdered(cfg: Config, s: State, step: Step)
    requires LeaseInv(cfg, s) && SiteInv(cfg, s) && OrderInv(s) && Enabled(cfg, s, step)
    ensures Ordered(NextTables(cfg, s, step))
  {
    if step.InsertRow? || step.CommitMap? {
      ChildStepKeepsOrder(cfg, s, step);
    } else if step.CreateJob? {
      SeedStepKeepsOrder(cfg, s, step, 0);
    } else if (step.Complete? || step.Settle?) && Touched(s, step) != {} {
      FinalStepKeepsOrder(cfg, s, step);
    } else {
      MostKeepOrder(cfg, s, step);
      SameOrderKeeps(s.tables, NextTables(cfg, s, step), 0);
    }
  }

  lemma ClaimKeepsFirst(cfg: Config, s: State, step: Step)
    requires Sound(s.tables) && OrderInv(s) && ProcessingHeld(s)
    requires Enabled(cfg, s, step) && Alone(s, step) && step.Claim?
    ensures First(NextTables(cfg, s, step), step.id)
  {
    ClaimIsFirst(cfg, s, step);
    MostKeepOrder(cfg, s, step);
    SameOrderKeeps(s.tables, NextTables(cfg, s, step), step.id);
  }

  lemma HolderKeepsFirst(cfg: Config, s: State, step: Step)
    requires LeaseInv(cfg, s) && SiteInv(cfg, s) && OrderInv(s) && Enabled(cfg, s, step) && |s.workers| == 1
    requires Holding(s.workers[0]) && !step.Claim? && !step.Complete? && !step.Settle?
    ensures First(NextTables(cfg, s, step), s.workers[0].id)
  {
    var id := s.workers[0].id;
    assert First(s.tables, id) && WorkerSound(cfg, s.tables, s.clock, s.workers[0]);
    if step.InsertRow? || step.CommitMap? {
      ChildStepKeepsOrder(cfg, s, step);
    } else if step.CreateJob? {
      SeedStepKeepsOrder(cfg, s, step, id);
    } else {
      MostKeepOrder(cfg, s, step);
      SameOrderKeeps(s.tables, NextTables(cfg, s, step), id);
    }
  }

  // The worker's row, if it still holds one after the step, is the first pending one.
  lemma StepKeepsFirst(cfg: Config, s: State, step: Step)
    requires LeaseInv(cfg, s) && SiteInv(cfg, s) && OrderInv(s) && ProcessingHeld(s)
    requires Enabled(cfg, s, step) && Alone(s, step)
    requires Holding(NextWorkers(cfg, s, step)[0])
    ensures First(NextTables(cfg, s, step), NextWorkers(cfg, s, step)[0].id)
  {
    if step.Claim? {
      ClaimKeepsFirst(cfg, s, step);
      assert NextWorkers(cfg, s, step)[0].id == step.id;
    } else {
      StillHolding(cfg, s, step);
      HolderKeepsFirst(cfg, s, step);
    }
  }

  lemma StillHolding(cfg: Config, s: State, step: Step)
    requires Enabled(cfg, s, step) && |s.workers| == 1 && !step.Claim? && Holding(NextWorkers(cfg, s, step)[0])
    ensures Holding(s.workers[0]) && NextWorkers(cfg, s, step)[0].id == s.workers[0].id
    ensures !step.Complete? && !step.Settle?
  {
  }

  lemma {:induction false} OrderHolds(cfg: Config, states: seq<State>, steps: seq<Step>)
    requires 0 <= cfg.interval <= cfg.lease
    requires Run(cfg, states, steps) && |states[0].workers| == 1 && Faultless(steps)
    requires forall k :: 0 <= k < |steps| && steps[k].Claim? ==> steps[k].locked == {}
    ensures OrderInv(states[|steps|]) && |states[|steps|].workers| == 1
    decreases |steps|
  {
    if steps == [] {
    } else {
      var n := |steps| - 1;
      Prefix(cfg, states, steps);
      OrderHolds(cfg, states[..|steps|], steps[..n]);
      LeaseExclusivity(cfg, states[..|steps|], steps[..n]);
      SiteInvHolds(cfg, states[..|steps|], steps[..n]);
      AllProcessingHeld(cfg, states[..|steps|], steps[..n]);
      StepKeepsOrder(cfg, states[n], steps[n]);
    }
  }

  lemma StepKeepsOrder(cfg: Config, s: State, step: Step)
    requires LeaseInv(cfg, s) && SiteInv(cfg, s) && OrderInv(s) && ProcessingHeld(s)
    requires Enabled(cfg, s, step) && Alone(s, step)
    ensures OrderInv(Apply(cfg, s, step)) && |Apply(cfg, s, step).workers| == 1
  {
    StepKeepsOrdered(cfg, s, step);
    assert |NextWorkers(cfg, s, step)| == 1;
    if Holding(NextWorkers(cfg, s, step)[0]) {
      StepKeepsFirst(cfg, s, step);
    }
    OneWorkerOrder(Apply(cfg, s, step));
  }

  lemma OneWorkerOrder(s: State)
    requires |s.workers| == 1 && Ordered(s.tables)
    requires Holding(s.workers[0]) ==> First(s.tables, s.workers[0].id)
    ensures OrderInv(s)
  {
  }

  // BREADTH FIRST. With one worker and no faults, the rows of a job in id order have non-decreasing
  // depth, finished rows come before pending ones, and pending depths span at most two levels.
  lemma BreadthFirstHolds(cfg: Config, states: seq<State>, steps: seq<Step>)
    requires 0 <= cfg.interval <= cfg.lease
    requires Run(cfg, states, steps) && |states[0].workers| == 1 && Faultless(steps)
    requires forall k :: 0 <= k < |steps| && steps[k].Claim? ==> steps[k].locked == {}
    ensures
      var tasks := states[|steps|].tables.tasks;
      forall a, b | a in tasks && b in tasks && a < b && tasks[a].job == tasks[b].job ::
        && tasks[a].depth <= tasks[b].depth
        && (Pending(tasks[a]) ==> Pending(tasks[b]) && tasks[b].depth <= tasks[a].depth + 1)
  {
    OrderHolds(cfg, states, steps);
    var tasks := states[|steps|].tables.tasks;
    forall a, b | a in tasks && b in tasks && a < b && tasks[a].job == tasks[b].job
      ensures tasks[a].depth <= tasks[b].depth
      ensures Pending(tasks[a]) ==> Pending(tasks[b]) && tasks[b].depth <= tasks[a].depth + 1
    {
      assert InOrder(tasks[a], tasks[b]);
    }
  }
}
