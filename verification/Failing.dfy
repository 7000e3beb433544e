// What max_retries comes to: a row whose task fails every time is failed after one attempt more, and its
// job is then completed with errors.
module Failing {
  import opened Wrappers
  import opened Urls
  import opened Tables
  import opened Protocol
  import opened Attempts
  import opened Reachability

  // Job 0 has row 0 only, `attempts` of whose attempts have failed; worker 0 is free.
  ghost predicate Round(cfg: Config, size: nat, s: State, attempts: nat, status: TaskStatus, pc: Pc) {
    && Reachable(cfg, size, s) && |s.workers| == size && size >= 1 && s.workers[0].pc == pc
    && s.tables.tasks.Keys == {0} && s.tables.tasks[0].job == 0 && 0 in s.tables.jobs
    && s.tables.tasks[0].status == status && s.tables.tasks[0].attempts == attempts
    && (pc != Idle ==> s.workers[0].id == 0 && s.workers[0].task.job == 0)
    && (Holding(s.workers[0]) ==> s.workers[0].task.attempts == attempts)
  }

  lemma ClaimRound(cfg: Config, size: nat, s: State, attempts: nat) returns (next: State)
    requires Round(cfg, size, s, attempts, Queued, Idle)
    ensures Round(cfg, size, next, attempts, Processing, Claimed)
  {
    var step := Claim(0, 0, s.clock, {});
    assert Picks(s.tables, 0, s.clock - cfg.lease, {}) by {
      assert 0 in s.tables.tasks;
    }
    next := Apply(cfg, s, step);
    ReachableStep(cfg, size, s, step, next);
    assert NextTables(cfg, s, step) == ClaimTask(s.tables, 0, s.clock);
  }

  lemma FailRound(cfg: Config, size: nat, s: State, attempts: nat) returns (next: State)
    requires Round(cfg, size, s, attempts, Processing, Claimed)
    ensures Round(cfg, size, next, attempts, Processing, Erred)
  {
    var step := Fail(0);
    next := Apply(cfg, s, step);
    ReachableStep(cfg, size, s, step, next);
    assert NextTables(cfg, s, step) == s.tables;
  }

  lemma SettleRound(cfg: Config, size: nat, s: State, attempts: nat) returns (next: State)
    requires Round(cfg, size, s, attempts, Processing, Erred)
    ensures Round(cfg, size, next, attempts + 1, if attempts < Retries(cfg) then Queued else Failed, Finalised)
  {
    var step := Settle(0, true);
    next := Apply(cfg, s, step);
    ReachableStep(cfg, size, s, step, next);
    assert ShouldRetry(attempts, cfg.maxRetries) <==> attempts < Retries(cfg);
    assert NextTables(cfg, s, step) ==
           if attempts < Retries(cfg) then RetryTask(s.tables, 0) else FailTask(s.tables, 0);
  }

  // FinishJob, which finds the row queued again.
  lemma CountRound(cfg: Config, size: nat, s: State, attempts: nat) returns (next: State)
    requires Round(cfg, size, s, attempts, Queued, Finalised)
    ensures Round(cfg, size, next, attempts, Queued, Idle)
  {
    var step := CountPending(0);
    assert 0 in s.tables.tasks && Pending(s.tables.tasks[0]);
    next := Apply(cfg, s, step);
    ReachableStep(cfg, size, s, step, next);
    assert NextTables(cfg, s, step) == s.tables;
  }

  // One attempt.
  lemma Attempt(cfg: Config, size: nat, s: State, attempts: nat) returns (next: State)
    requires Round(cfg, size, s, attempts, Queued, Idle)
    ensures Round(cfg, size, next, attempts + 1, if attempts < Retries(cfg) then Queued else Failed, Finalised)
  {
    var claimed := ClaimRound(cfg, size, s, attempts);
    var erred := FailRound(cfg, size, claimed, attempts);
    next := SettleRound(cfg, size, erred, attempts);
  }

  // The attempts that are left, up to the one that fails the row.
  lemma {:induction false} FailsAfter(cfg: Config, size: nat, s: State, attempts: nat) returns (last: State)
    requires Round(cfg, size, s, attempts, Queued, Idle) && attempts <= Retries(cfg)
    ensures Round(cfg, size, last, Retries(cfg) + 1, Failed, Finalised)
    decreases Retries(cfg) - attempts
  {
    last := Attempt(cfg, size, s, attempts);
    if attempts < Retries(cfg) {
      var again := CountRound(cfg, size, last, attempts + 1);
      last := FailsAfter(cfg, size, again, attempts + 1);
    }
  }

  // FinishJob, which finds nothing pending ...
  lemma CountedRound(cfg: Config, size: nat, s: State, attempts: nat) returns (next: State)
    requires Round(cfg, size, s, attempts, Failed, Finalised)
    ensures Round(cfg, size, next, attempts, Failed, Counted)
  {
    var step := CountPending(0);
    assert Quiescent(s.tables, 0);
    next := Apply(cfg, s, step);
    ReachableStep(cfg, size, s, step, next);
    assert NextTables(cfg, s, step) == s.tables;
  }

  // ... and a failed row.
  lemma FlaggedRound(cfg: Config, size: nat, s: State, attempts: nat) returns (next: State)
    requires Round(cfg, size, s, attempts, Failed, Counted)
    ensures Round(cfg, size, next, attempts, Failed, Flagged) && next.workers[0].failed
  {
    var step := ReadFailed(0);
    assert 0 in s.tables.tasks && HasFailed(s.tables, 0);
    next := Apply(cfg, s, step);
    ReachableStep(cfg, size, s, step, next);
    assert NextTables(cfg, s, step) == s.tables;
  }

  lemma FinishRound(cfg: Config, size: nat, s: State, attempts: nat) returns (last: State)
    requires Round(cfg, size, s, attempts, Failed, Finalised)
    ensures Round(cfg, size, last, attempts, Failed, Idle)
    ensures last.tables.jobs[0].status == JobCompletedWithErrors
  {
    var counted := CountedRound(cfg, size, s, attempts);
    var flagged := FlaggedRound(cfg, size, counted, attempts);
    var step := WriteStatus(0);
    last := Apply(cfg, flagged, step);
    ReachableStep(cfg, size, flagged, step, last);
    assert NextTables(cfg, flagged, step) == SetJobStatus(flagged.tables, 0, JobCompletedWithErrors);
  }

  // FAILED AFTER ONE MORE. Whatever max_retries is, some fault-free run fails a row, which has then used
  // max_retries + 1 attempts (one when it is negative), and completes its job with errors.
  lemma FailedIsReached(cfg: Config, size: nat) returns (s: State)
    requires size >= 1
    ensures Reachable(cfg, size, s) && 0 in s.tables.tasks && 0 in s.tables.jobs
    ensures s.tables.tasks[0].status == Failed && s.tables.tasks[0].attempts == Retries(cfg) + 1
    ensures s.tables.jobs[0].status == JobCompletedWithErrors
  {
    var created := OneRowCreated(cfg, size);
    var failed := FailsAfter(cfg, size, created, 0);
    s := FinishRound(cfg, size, failed, Retries(cfg) + 1);
  }
}
