// Attempt counts: retries are bounded and accounted for exactly, under any interleaving.
module Attempts {
  import opened Wrappers
  import opened Tables
  import opened Protocol
  import opened Rows
  import opened Lease

  // worker.max_retries, where a negative setting means no retry.
  function Retries(cfg: Config): (r: nat)
    ensures forall attempts: nat :: ShouldRetry(attempts, cfg.maxRetries) <==> attempts < r
    ensures r == if cfg.maxRetries < 0 then 0 else cfg.maxRetries
  {
    Max(cfg.maxRetries, 0)
  }

  predicate AttemptsSound(cfg: Config, row: Task) {
    && row.status != Skipped
    && (if row.status == Failed then row.attempts == Retries(cfg) + 1 else row.attempts <= Retries(cfg))
  }

  ghost predicate AttemptsInv(cfg: Config, t: Tables) {
    forall id :: id in t.tasks ==> AttemptsSound(cfg, t.tasks[id])
  }

  // The four statements that change a row's state keep its account.
  lemma RowAttempts(cfg: Config, t: Tables, id: TaskId, now: int)
    requires id in t.tasks && AttemptsSound(cfg, t.tasks[id]) && Pending(t.tasks[id])
    ensures
      && AttemptsSound(cfg, ClaimTask(t, id, now).tasks[id])
      && AttemptsSound(cfg, CompleteTask(t, id).tasks[id])
      && (t.tasks[id].attempts < Retries(cfg) ==> AttemptsSound(cfg, RetryTask(t, id).tasks[id]))
      && (t.tasks[id].attempts >= Retries(cfg) ==> AttemptsSound(cfg, FailTask(t, id).tasks[id]))
  {
  }

  // The row a step touches is pending, and its attempts are those of the snapshot the worker decides on.
  lemma TouchedIsPending(cfg: Config, s: State, step: Step, id: TaskId)
    requires LeaseInv(cfg, s) && Enabled(cfg, s, step) && id in Touched(s, step) && id in s.tables.tasks
    ensures Pending(s.tables.tasks[id])
    ensures !step.Claim? ==> ByWorker(step) && s.workers[step.w].task.attempts == s.tables.tasks[id].attempts
  {
    if !step.Claim? {
      TouchedTables(cfg, s, step, id);
      assert WorkerSound(cfg, s.tables, s.clock, s.workers[step.w]);
    }
  }

  lemma TouchedAttempts(cfg: Config, s: State, step: Step, id: TaskId)
    requires LeaseInv(cfg, s) && AttemptsInv(cfg, s.tables) && Enabled(cfg, s, step)
    requires id in Touched(s, step) && id in s.tables.tasks && id in NextTables(cfg, s, step).tasks
    ensures AttemptsSound(cfg, NextTables(cfg, s, step).tasks[id])
  {
    TouchedTables(cfg, s, step, id);
    TouchedIsPending(cfg, s, step, id);
    RowAttempts(cfg, s.tables, id, s.clock);
  }

  lemma StepKeepsAttempts(cfg: Config, s: State, step: Step)
    requires LeaseInv(cfg, s) && AttemptsInv(cfg, s.tables) && Enabled(cfg, s, step)
    ensures AttemptsInv(cfg, NextTables(cfg, s, step))
  {
    var t := NextTables(cfg, s, step);
    StepFollows(cfg, s, step);
    forall id | id in t.tasks
      ensures AttemptsSound(cfg, t.tasks[id])
    {
      if id in s.tables.tasks {
        assert AttemptsSound(cfg, s.tables.tasks[id]);
        if id in Touched(s, step) {
          TouchedAttempts(cfg, s, step, id);
        }
      }
    }
  }

  // EXACT ATTEMPT ACCOUNTING. In every run, queued, processing and done rows have at most max_retries
  // attempts, failed rows exactly one more, and no row is skipped.
  lemma {:induction false} AttemptsExact(cfg: Config, states: seq<State>, steps: seq<Step>)
    requires 0 <= cfg.interval <= cfg.lease
    requires Run(cfg, states, steps)
    ensures AttemptsInv(cfg, states[|steps|].tables)
    ensures
      var t, most := states[|steps|].tables, if cfg.maxRetries < 0 then 0 else cfg.maxRetries;
      forall id :: id in t.tasks ==>
        && t.tasks[id].status != Skipped
        && (t.tasks[id].status == Failed ==> t.tasks[id].attempts == most + 1)
        && (t.tasks[id].status != Failed ==> t.tasks[id].attempts <= most)
    decreases |steps|
  {
    if steps == [] {
    } else {
      var n := |steps| - 1;
      Prefix(cfg, states, steps);
      AttemptsExact(cfg, states[..|steps|], steps[..n]);
      LeaseExclusivity(cfg, states[..|steps|], steps[..n]);
      StepKeepsAttempts(cfg, states[n], steps[n]);
    }
    assert forall id :: id in states[|steps|].tables.tasks ==> AttemptsSound(cfg, states[|steps|].tables.tasks[id]);
  }

  // ----- JobStats -----

  datatype JobStats = JobStats(
    queued: nat, processing: nat, done: nat, failed: nat, skipped: nat, total: nat, attempts: nat)

  // The aggregate over the job's rows with id below n.
  function StatsBelow(t: Tables, j: JobId, n: nat): JobStats {
    if n == 0 then JobStats(0, 0, 0, 0, 0, 0, 0)
    else
      var rest := StatsBelow(t, j, n - 1);
      if n - 1 in t.tasks && t.tasks[n - 1].job == j then
        var row := t.tasks[n - 1];
        JobStats(
          rest.queued + Bit(row.status == Queued), rest.processing + Bit(row.status == Processing),
          rest.done + Bit(row.status == Done), rest.failed + Bit(row.status == Failed),
          rest.skipped + Bit(row.status == Skipped), rest.total + 1, rest.attempts + row.attempts)
      else rest
  }

  function Stats(t: Tables, j: JobId): JobStats {
    StatsBelow(t, j, t.nextTask)
  }

  lemma OneMore(n: int, r: int)
    ensures (n + 1) * r == n * r + r
  {
  }

  lemma {:induction false} StatsBelowAddUp(cfg: Config, t: Tables, j: JobId, n: nat)
    requires AttemptsInv(cfg, t)
    ensures
      var stats := StatsBelow(t, j, n);
      && stats.queued + stats.processing + stats.done + stats.failed + stats.skipped == stats.total
      && stats.skipped == 0
      && stats.failed * (Retries(cfg) + 1) <= stats.attempts
      && stats.attempts <= stats.total * Retries(cfg) + stats.failed
    decreases n
  {
    if n == 0 {
    } else {
      StatsBelowAddUp(cfg, t, j, n - 1);
      var rest := StatsBelow(t, j, n - 1);
      var stats := StatsBelow(t, j, n);
      if n - 1 in t.tasks && t.tasks[n - 1].job == j {
        var row := t.tasks[n - 1];
        assert AttemptsSound(cfg, row);
        OneMore(rest.total, Retries(cfg));
        OneMore(rest.failed, Retries(cfg) + 1);
      }
    }
  }

  lemma {:induction false} StatsBelowTotal(t: Tables, j: JobId, n: nat)
    ensures StatsBelow(t, j, n).total == |set id | id in t.tasks && t.tasks[id].job == j && id < n|
    decreases n
  {
    if n == 0 {
      assert (set id | id in t.tasks && t.tasks[id].job == j && id < n) == {};
    } else {
      StatsBelowTotal(t, j, n - 1);
      var below := set id | id in t.tasks && t.tasks[id].job == j && id < n - 1;
      var upTo := set id | id in t.tasks && t.tasks[id].job == j && id < n;
      if n - 1 in t.tasks && t.tasks[n - 1].job == j {
        assert upTo == below + {n - 1};
      } else {
        assert upTo == below;
      }
    }
  }

  lemma {:induction false} StatsBelowStatus(t: Tables, j: JobId, n: nat)
    ensures StatsBelow(t, j, n).queued + StatsBelow(t, j, n).processing > 0 <==>
            exists id :: id in t.tasks && id < n && t.tasks[id].job == j && Pending(t.tasks[id])
    ensures StatsBelow(t, j, n).failed > 0 <==>
            exists id :: id in t.tasks && id < n && t.tasks[id].job == j && t.tasks[id].status == Failed
    decreases n
  {
    if n == 0 {
    } else {
      StatsBelowStatus(t, j, n - 1);
    }
  }

  // JobStats agrees with the three questions the workers ask (TaskCount, PendingTaskCounts and
  // HasFailedTasks); its counts add up, and the attempts lie between what the failed rows used up and
  // max_retries + 1 a row.
  lemma StatsAddUp(cfg: Config, t: Tables, j: JobId)
    requires AttemptsInv(cfg, t) && FreshIds(t)
    ensures
      var stats := Stats(t, j);
      && stats.total == TaskCount(t, j)
      && (stats.queued + stats.processing > 0 <==> !Quiescent(t, j))
      && (stats.failed > 0 <==> HasFailed(t, j))
      && stats.queued + stats.processing + stats.done + stats.failed == stats.total && stats.skipped == 0
      && stats.failed * (Retries(cfg) + 1) <= stats.attempts <= stats.total * (Retries(cfg) + 1)
  {
    StatsBelowAddUp(cfg, t, j, t.nextTask);
    StatsBelowTotal(t, j, t.nextTask);
    StatsBelowStatus(t, j, t.nextTask);
    assert RowsOf(t, j) == set id | id in t.tasks && t.tasks[id].job == j && id < t.nextTask;
    var stats := Stats(t, j);
    assert stats.total * (Retries(cfg) + 1) == stats.total * Retries(cfg) + stats.total;
  }
}
