// Finishing a job: FinishJob's three statements, taken by any number of workers at any time.
module Finish {
  import opened Wrappers
  import opened Tables
  import opened Protocol
  import opened Lease
  import opened Rows

  ghost predicate HasRows(t: Tables, j: JobId) {
    exists id :: id in t.tasks && t.tasks[id].job == j
  }

  lemma QuiescentFollows(t: Tables, t': Tables, touched: set<TaskId>, adds: set<JobId>, now: int, j: JobId)
    requires RowsFollow(t, t', touched, adds, now) && j in t'.jobs && Quiescent(t, j) && j !in adds
    requires forall id :: id in touched && id in t.tasks ==> t.tasks[id].job != j
    ensures Quiescent(t', j) && HasFailed(t', j) == HasFailed(t, j) && HasRows(t', j) == HasRows(t, j)
  {
  }

  // Only a claim, or a worker inside handleTask, touches a row or adds to a job that exists.
  lemma WhoTouches(cfg: Config, s: State, step: Step)
    requires Enabled(cfg, s, step)
    ensures Touched(s, step) == {} || step.Claim?
            || (ByWorker(step) && Holding(s.workers[step.w]) && Touched(s, step) == {s.workers[step.w].id})
    ensures Added(s, step) == {} || Added(s, step) == {s.tables.nextJob}
            || (ByWorker(step) && Holding(s.workers[step.w]) && Added(s, step) == {s.workers[step.w].task.job})
  {
  }

  lemma ClaimedWasPending(cfg: Config, s: State, step: Step)
    requires Enabled(cfg, s, step) && step.Claim?
    ensures Touched(s, step) == {step.id} && Added(s, step) == {}
    ensures step.id in s.tables.tasks && Pending(s.tables.tasks[step.id])
  {
  }

  // No step touches a row of a quiescent job or adds one to it.
  lemma QuiescentUntouched(cfg: Config, s: State, step: Step, j: JobId)
    requires LeaseInv(cfg, s) && Enabled(cfg, s, step)
    requires j in s.tables.jobs && Quiescent(s.tables, j)
    ensures forall id :: id in Touched(s, step) && id in s.tables.tasks ==> s.tables.tasks[id].job != j
    ensures j !in Added(s, step)
  {
    if step.Claim? {
      ClaimedWasPending(cfg, s, step);
      return;
    }
    WhoTouches(cfg, s, step);
    if ByWorker(step) && Holding(s.workers[step.w]) {
      HolderElsewhere(cfg, s, step.w, j);
    }
  }

  lemma HolderElsewhere(cfg: Config, s: State, i: nat, j: JobId)
    requires LeaseInv(cfg, s) && i < |s.workers| && Holding(s.workers[i])
    requires j in s.tables.jobs && Quiescent(s.tables, j)
    ensures s.workers[i].task.job != j
    ensures s.workers[i].id in s.tables.tasks ==> s.tables.tasks[s.workers[i].id].job != j
  {
  }

  // QUIESCENCE IS STABLE. Whatever the step, a job with nothing queued or processing keeps it so, and
  // keeps its answer to HasFailedTasks.
  lemma QuiescenceStable(cfg: Config, s: State, step: Step, j: JobId)
    requires LeaseInv(cfg, s) && Enabled(cfg, s, step)
    requires j in s.tables.jobs && j in NextTables(cfg, s, step).jobs
    requires Quiescent(s.tables, j)
    ensures Quiescent(NextTables(cfg, s, step), j)
    ensures HasFailed(NextTables(cfg, s, step), j) == HasFailed(s.tables, j)
    ensures HasRows(NextTables(cfg, s, step), j) == HasRows(s.tables, j)
  {
    StepFollows(cfg, s, step);
    QuiescentUntouched(cfg, s, step, j);
    QuiescentFollows(s.tables, NextTables(cfg, s, step), Touched(s, step), Added(s, step), s.clock, j);
  }

  ghost predicate FinishSound(t: Tables, w: Worker) {
    w.task.job in t.jobs && (w.pc == Counted || w.pc == Flagged) ==>
      Quiescent(t, w.task.job) && (w.pc == Flagged ==> w.failed == HasFailed(t, w.task.job))
  }

  ghost predicate StatusSound(t: Tables, j: JobId) {
    j in t.jobs && Finished(t.jobs[j].status) ==>
      Quiescent(t, j) && t.jobs[j].status == FinalStatus(HasFailed(t, j))
  }

  // What a worker has read on its way through FinishJob is still true, and a finished status is right.
  ghost predicate FinishInv(s: State) {
    && (forall i :: 0 <= i < |s.workers| ==> FinishSound(s.tables, s.workers[i]))
    && (forall j :: j in s.tables.jobs ==> StatusSound(s.tables, j))
  }

  // The three ways to be between FinishJob's reads and its write.
  lemma FinishMoves(cfg: Config, s: State, step: Step)
    requires Enabled(cfg, s, step) && ByWorker(step)
    ensures
      var w, w' := s.workers[step.w], NextWorker(cfg, s, s.workers[step.w], step);
      || (w'.pc != Counted && w'.pc != Flagged)
      || (w'.pc == w.pc && w'.task == w.task && w'.failed == w.failed)
      || (step.CountPending? && w'.pc == Counted && w'.task == w.task && Quiescent(s.tables, w.task.job))
      || (step.ReadFailed? && w.pc == Counted && w'.pc == Flagged && w'.task == w.task
          && w'.failed == HasFailed(s.tables, w.task.job))
  {
  }

  // What a worker in FinishJob has read stays true, whoever steps.
  lemma FinishSoundKept(cfg: Config, s: State, step: Step, w: Worker)
    requires LeaseInv(cfg, s) && Enabled(cfg, s, step) && FinishSound(s.tables, w)
    requires Busy(w) ==> w.task.job < s.tables.nextJob
    ensures FinishSound(NextTables(cfg, s, step), w)
  {
    var t := NextTables(cfg, s, step);
    if w.task.job in t.jobs && (w.pc == Counted || w.pc == Flagged) {
      JobMoves(cfg, s, step, w.task.job);
      QuiescenceStable(cfg, s, step, w.task.job);
    }
  }

  lemma MoverFinishSound(cfg: Config, s: State, step: Step)
    requires LeaseInv(cfg, s) && FinishInv(s) && Enabled(cfg, s, step) && ByWorker(step)
    ensures FinishSound(NextTables(cfg, s, step), NextWorker(cfg, s, s.workers[step.w], step))
  {
    var w, w' := s.workers[step.w], NextWorker(cfg, s, s.workers[step.w], step);
    assert FinishSound(s.tables, w) && WorkerSound(cfg, s.tables, s.clock, w);
    FinishMoves(cfg, s, step);
    if w'.pc == Counted || w'.pc == Flagged {
      FinishSoundKept(cfg, s, step, w');
    }
  }

  // No step writes over a finished status: StartJob and the max_duration cancel come from workers
  // inside handleTask, whose job has a pending row, however old their view of it; the sweep looks
  // before it cancels; and FinishJob writes the same status again.
  lemma StatusKept(cfg: Config, s: State, step: Step, j: JobId)
    requires LeaseInv(cfg, s) && FinishInv(s) && Enabled(cfg, s, step)
    requires j in s.tables.jobs && j in NextTables(cfg, s, step).jobs && Finished(s.tables.jobs[j].status)
    ensures NextTables(cfg, s, step).jobs[j].status == s.tables.jobs[j].status
  {
    assert StatusSound(s.tables, j);
    JobMoves(cfg, s, step, j);
    if ByWorker(step) && s.workers[step.w].task.job == j {
      assert FinishSound(s.tables, s.workers[step.w]);
      if Holding(s.workers[step.w]) {
        WorkedJobIsPending(cfg, s, step.w);
      }
    }
  }

  lemma StatusSoundKept(cfg: Config, s: State, step: Step, j: JobId)
    requires LeaseInv(cfg, s) && FinishInv(s) && Enabled(cfg, s, step)
    requires j in NextTables(cfg, s, step).jobs
    ensures StatusSound(NextTables(cfg, s, step), j)
  {
    JobMoves(cfg, s, step, j);
    if j in s.tables.jobs && Finished(NextTables(cfg, s, step).jobs[j].status) {
      assert StatusSound(s.tables, j);
      if Finished(s.tables.jobs[j].status) {
        StatusKept(cfg, s, step, j);
      } else {
        assert FinishSound(s.tables, s.workers[step.w]);
      }
      QuiescenceStable(cfg, s, step, j);
    }
  }

  lemma OtherFinishSound(cfg: Config, s: State, step: Step, w: Worker)
    requires LeaseInv(cfg, s) && FinishInv(s) && Enabled(cfg, s, step) && w in s.workers
    ensures FinishSound(NextTables(cfg, s, step), w)
  {
    var i :| 0 <= i < |s.workers| && s.workers[i] == w;
    assert FinishSound(s.tables, s.workers[i]);
    assert WorkerSound(cfg, s.tables, s.clock, s.workers[i]);
    FinishSoundKept(cfg, s, step, w);
  }

  lemma WorkersFinishSound(cfg: Config, s: State, step: Step)
    requires LeaseInv(cfg, s) && FinishInv(s) && Enabled(cfg, s, step)
    ensures forall w :: w in NextWorkers(cfg, s, step) ==> FinishSound(NextTables(cfg, s, step), w)
  {
    forall w | w in NextWorkers(cfg, s, step)
      ensures FinishSound(NextTables(cfg, s, step), w)
    {
      if w in s.workers {
        OtherFinishSound(cfg, s, step, w);
      } else {
        assert w == NextWorker(cfg, s, s.workers[step.w], step);
        MoverFinishSound(cfg, s, step);
      }
    }
  }

  lemma StepKeepsFinish(cfg: Config, s: State, step: Step)
    requires LeaseInv(cfg, s) && FinishInv(s) && Enabled(cfg, s, step)
    ensures FinishInv(Apply(cfg, s, step))
  {
    WorkersFinishSound(cfg, s, step);
    forall j | j in NextTables(cfg, s, step).jobs
      ensures StatusSound(NextTables(cfg, s, step), j)
    {
      StatusSoundKept(cfg, s, step, j);
    }
  }

  // A FINISHED STATUS IS RIGHT. In every state of every run a completed job has nothing pending and
  // no failed task, and a job completed with errors has nothing pending and a failed task.
  lemma {:induction false} FinishedIsRight(cfg: Config, states: seq<State>, steps: seq<Step>)
    requires 0 <= cfg.interval <= cfg.lease
    requires Run(cfg, states, steps)
    ensures LeaseInv(cfg, states[|steps|]) && FinishInv(states[|steps|])
    decreases |steps|
  {
    LeaseExclusivity(cfg, states, steps);
    if steps == [] {
    } else {
      var n := |steps| - 1;
      Prefix(cfg, states, steps);
      FinishedIsRight(cfg, states[..|steps|], steps[..n]);
      StepKeepsFinish(cfg, states[n], steps[n]);
    }
  }

  // LIKE ONE STATEMENT. In every run the status FinishJob writes is the one that all three of its statements
  // would come to at the moment of the write, whatever happened since it counted.
  lemma FinishIsAtomic(cfg: Config, states: seq<State>, steps: seq<Step>, k: nat)
    requires 0 <= cfg.interval <= cfg.lease
    requires Run(cfg, states, steps) && k < |steps| && steps[k].WriteStatus?
    ensures
      var t, j := states[k].tables, states[k].workers[steps[k].w].task.job;
      && (j in t.jobs ==> Quiescent(t, j))
      && states[k + 1].tables == SetJobStatus(t, j, FinalStatus(HasFailed(t, j)))
  {
    CutAt(cfg, states, steps, k);
    FinishedIsRight(cfg, states[..k + 1], steps[..k]);
    assert FinishSound(states[k].tables, states[k].workers[steps[k].w]);
    assert NextTables(cfg, states[k], steps[k])
        == SetJobStatus(states[k].tables, states[k].workers[steps[k].w].task.job,
                        FinalStatus(states[k].workers[steps[k].w].failed));
  }

  lemma CutAt(cfg: Config, states: seq<State>, steps: seq<Step>, k: nat)
    requires Run(cfg, states, steps) && k <= |steps|
    ensures Run(cfg, states[..k + 1], steps[..k]) && states[..k + 1][k] == states[k]
  {
  }

  // ONCE QUIET, ALWAYS QUIET. From any point of a run on, a quiescent job stays quiescent with the same
  // failed flag, and a finished status stays as it is, until the job is deleted for good.
  lemma {:induction false} QuietForever(cfg: Config, states: seq<State>, steps: seq<Step>, k: nat, j: JobId)
    requires 0 <= cfg.interval <= cfg.lease
    requires Run(cfg, states, steps) && k <= |steps|
    requires j in states[k].tables.jobs && Quiescent(states[k].tables, j)
    ensures
      var t, t' := states[k].tables, states[|steps|].tables;
      j in t'.jobs ==>
        && Quiescent(t', j) && HasFailed(t', j) == HasFailed(t, j)
        && (Finished(t.jobs[j].status) ==> t'.jobs[j].status == t.jobs[j].status)
    ensures j < states[|steps|].tables.nextJob
    decreases |steps|
  {
    FinishedIsRight(cfg, states, steps);
    if k < |steps| {
      var n := |steps| - 1;
      Prefix(cfg, states, steps);
      QuietForever(cfg, states[..|steps|], steps[..n], k, j);
      FinishedIsRight(cfg, states[..|steps|], steps[..n]);
      StepFollows(cfg, states[n], steps[n]);
      if j in states[n].tables.jobs && j in states[|steps|].tables.jobs {
        QuiescenceStable(cfg, states[n], steps[n], j);
        if Finished(states[n].tables.jobs[j].status) {
          StatusKept(cfg, states[n], steps[n], j);
        }
      }
    }
  }

  // ----- No job is left hanging -----

  // Some worker is between finalising a task of job j and the end of its FinishJob call.
  ghost predicate BeingFinished(workers: seq<Worker>, j: JobId) {
    exists i :: 0 <= i < |workers| && Finishing(workers[i]) && workers[i].task.job == j
  }

  ghost predicate Settled(t: Tables, workers: seq<Worker>, j: JobId) {
    j in t.jobs && HasRows(t, j) && Quiescent(t, j) ==> Finished(t.jobs[j].status) || BeingFinished(workers, j)
  }

  ghost predicate NoneHanging(s: State) {
    forall j :: j in s.tables.jobs ==> Settled(s.tables, s.workers, j)
  }

  // Without faults a worker leaves FinishJob only by the write or because work is pending.
  lemma FinisherContinues(cfg: Config, s: State, w: Worker, step: Step)
    requires Finishing(w) && Guard(cfg, s, w, step) && !Fault(step)
    ensures
      || (Finishing(NextWorker(cfg, s, w, step)) && NextWorker(cfg, s, w, step).task == w.task)
      || step.WriteStatus? || (step.CountPending? && !Quiescent(s.tables, w.task.job))
      || !ByWorker(step)
  {
  }

  lemma FinishContinues(cfg: Config, s: State, step: Step, j: JobId)
    requires Enabled(cfg, s, step) && !Fault(step) && BeingFinished(s.workers, j)
    ensures
      || BeingFinished(NextWorkers(cfg, s, step), j)
      || (step.WriteStatus? && s.workers[step.w].task.job == j)
      || (step.CountPending? && !Quiescent(s.tables, j))
  {
    var i :| 0 <= i < |s.workers| && Finishing(s.workers[i]) && s.workers[i].task.job == j;
    if !ByWorker(step) || step.w != i {
      assert NextWorkers(cfg, s, step)[i] == s.workers[i];
    } else {
      assert NextWorkers(cfg, s, step)[i] == NextWorker(cfg, s, s.workers[i], step);
      FinisherContinues(cfg, s, s.workers[i], step);
    }
  }

  // A job falls quiet only by a worker finalising its last pending row, which then finishes it.
  lemma LastRowFinishes(cfg: Config, s: State, step: Step, j: JobId)
    requires LeaseInv(cfg, s) && Enabled(cfg, s, step) && !Fault(step)
    requires j in s.tables.jobs && j in NextTables(cfg, s, step).jobs
    requires !Quiescent(s.tables, j) && Quiescent(NextTables(cfg, s, step), j)
    ensures BeingFinished(NextWorkers(cfg, s, step), j)
  {
    var id := LastRowTouched(cfg, s, step, j);
    FinaliserFinishes(cfg, s, step, j, id);
  }

  lemma LastRowTouched(cfg: Config, s: State, step: Step, j: JobId) returns (id: TaskId)
    requires Sound(s.tables) && Enabled(cfg, s, step) && j in NextTables(cfg, s, step).jobs
    requires !Quiescent(s.tables, j) && Quiescent(NextTables(cfg, s, step), j)
    ensures id in s.tables.tasks && s.tables.tasks[id].job == j && id in Touched(s, step)
  {
    id :| id in s.tables.tasks && s.tables.tasks[id].job == j && Pending(s.tables.tasks[id]);
    StepFollows(cfg, s, step);
    assert id in NextTables(cfg, s, step).tasks && NextTables(cfg, s, step).tasks[id].job == j;
  }

  lemma ClaimedPends(t: Tables, id: TaskId, now: int)
    requires id in t.tasks
    ensures !Quiescent(ClaimTask(t, id, now), t.tasks[id].job)
  {
    assert Pending(ClaimTask(t, id, now).tasks[id]);
  }

  lemma FinaliserFinishes(cfg: Config, s: State, step: Step, j: JobId, id: TaskId)
    requires LeaseInv(cfg, s) && Enabled(cfg, s, step) && id in Touched(s, step)
    requires id in s.tables.tasks && s.tables.tasks[id].job == j
    requires Quiescent(NextTables(cfg, s, step), j)
    ensures BeingFinished(NextWorkers(cfg, s, step), j)
  {
    if step.Claim? {
      assert NextTables(cfg, s, step) == ClaimTask(s.tables, id, s.clock);
      ClaimedPends(s.tables, id, s.clock);
    } else {
      MoverFinalises(cfg, s, step);
    }
  }

  // The worker that has finalised a row goes on to finish the row's job.
  lemma MoverFinalises(cfg: Config, s: State, step: Step)
    requires LeaseInv(cfg, s) && Enabled(cfg, s, step) && (step.Complete? || step.Settle?)
    ensures BeingFinished(NextWorkers(cfg, s, step), s.workers[step.w].task.job)
    ensures s.workers[step.w].id in s.tables.tasks ==>
              s.tables.tasks[s.workers[step.w].id].job == s.workers[step.w].task.job
  {
    var w := s.workers[step.w];
    assert WorkerSound(cfg, s.tables, s.clock, w);
    assert NextWorkers(cfg, s, step)[step.w] == w.(pc := Finalised);
  }

  // A new job's rows are queued.
  lemma NewRowsPend(cfg: Config, s: State, step: Step, j: JobId)
    requires Sound(s.tables) && StepOk(cfg, s, step)
    requires j !in s.tables.jobs && HasRows(NextTables(cfg, s, step), j)
    ensures !Quiescent(NextTables(cfg, s, step), j)
  {
  }

  lemma StepLeavesNoneHanging(cfg: Config, s: State, step: Step, j: JobId)
    requires LeaseInv(cfg, s) && FinishInv(s) && NoneHanging(s) && Enabled(cfg, s, step) && !Fault(step)
    requires j in NextTables(cfg, s, step).jobs
    ensures Settled(NextTables(cfg, s, step), NextWorkers(cfg, s, step), j)
  {
    var t := NextTables(cfg, s, step);
    if HasRows(t, j) && Quiescent(t, j) {
      JobMoves(cfg, s, step, j);
      StepFollows(cfg, s, step);
      if j !in s.tables.jobs {
        NewRowsPend(cfg, s, step, j);
      } else if !Quiescent(s.tables, j) {
        LastRowFinishes(cfg, s, step, j);
      } else {
        QuiescenceStable(cfg, s, step, j);
        assert Settled(s.tables, s.workers, j);
        if Finished(s.tables.jobs[j].status) {
          StatusKept(cfg, s, step, j);
        } else {
          FinishContinues(cfg, s, step, j);
          if step.WriteStatus? && s.workers[step.w].task.job == j {
            assert t.jobs[j].status == FinalStatus(s.workers[step.w].failed);
          }
        }
      }
    }
  }

  // NO FINISHED JOB IS LEFT HANGING. Without crashes or failed statements, once a job with rows has
  // nothing pending and no worker is still finishing it, it is completed exactly when no task failed
  // and completed with errors exactly when one did.
  lemma {:induction false} NoneLeftHanging(cfg: Config, states: seq<State>, steps: seq<Step>)
    requires 0 <= cfg.interval <= cfg.lease
    requires Run(cfg, states, steps) && Faultless(steps)
    ensures NoneHanging(states[|steps|])
    ensures
      var s := states[|steps|];
      forall j :: j in s.tables.jobs && HasRows(s.tables, j) && Quiescent(s.tables, j)
                  && !BeingFinished(s.workers, j) ==>
        s.tables.jobs[j].status == if HasFailed(s.tables, j) then JobCompletedWithErrors else JobCompleted
    decreases |steps|
  {
    var s' := states[|steps|];
    FinishedIsRight(cfg, states, steps);
    if steps == [] {
    } else {
      var n := |steps| - 1;
      Prefix(cfg, states, steps);
      NoneLeftHanging(cfg, states[..|steps|], steps[..n]);
      FinishedIsRight(cfg, states[..|steps|], steps[..n]);
      forall j | j in s'.tables.jobs
        ensures Settled(s'.tables, s'.workers, j)
      {
        StepLeavesNoneHanging(cfg, states[n], steps[n], j);
      }
    }
    forall j | j in s'.tables.jobs && HasRows(s'.tables, j) && Quiescent(s'.tables, j) && !BeingFinished(s'.workers, j)
      ensures s'.tables.jobs[j].status == if HasFailed(s'.tables, j) then JobCompletedWithErrors else JobCompleted
    {
      assert Settled(s'.tables, s'.workers, j) && StatusSound(s'.tables, j);
    }
  }
}
