// The bound on heartbeats that lease exclusivity needs is the exact one: with two workers or more, a
// longer interval between heartbeats lets two of them work on one row.
module LeaseBound {
  import opened Wrappers
  import opened Urls
  import opened Tables
  import opened Frontier
  import opened Protocol
  import opened Rows
  import opened Lease
  import opened Reachability

  // No fault-free run of `size` workers puts two of them on one row.
  ghost predicate LeasesExclude(cfg: Config, size: nat) {
    forall s :: Reachable(cfg, size, s) ==> Exclusive(s.workers)
  }

  // Job 0 has one row, row 0, claimable under `threshold`.
  ghost predicate OneRow(s: State, threshold: int) {
    s.tables.tasks.Keys == {0} && Claimable(s.tables.tasks[0], threshold)
  }

  // Worker i claims the row.
  lemma ClaimIt(cfg: Config, size: nat, s: State, i: nat) returns (next: State)
    requires Reachable(cfg, size, s) && i < |s.workers| && s.workers[i].pc == Idle && OneRow(s, s.clock - cfg.lease)
    ensures Reachable(cfg, size, next) && next.clock == s.clock && |next.workers| == |s.workers|
    ensures next.workers == s.workers[i := next.workers[i]]
    ensures next.workers[i].pc == Claimed && next.workers[i].id == 0 && next.workers[i].beat == s.clock
    ensures next.tables.tasks.Keys == {0}
    ensures next.tables.tasks[0].status == Processing && next.tables.tasks[0].heartbeatAt == Some(s.clock)
  {
    var step := Claim(i, 0, s.clock, {});
    assert 0 in s.tables.tasks;
    assert Picks(s.tables, 0, s.clock - cfg.lease, {});
    next := Apply(cfg, s, step);
    ReachableStep(cfg, size, s, step, next);
    assert NextTables(cfg, s, step) == ClaimTask(s.tables, 0, s.clock);
  }

  // The clock runs on until the next heartbeat is due.
  lemma Wait(cfg: Config, size: nat, s: State, time: int) returns (next: State)
    requires Reachable(cfg, size, s) && s.clock <= time && OnTime(cfg, s, time)
    ensures Reachable(cfg, size, next) && next == s.(clock := time)
  {
    var step := Tick(time);
    next := Apply(cfg, s, step);
    ReachableStep(cfg, size, s, step, next);
  }

  lemma TwoOnOneRow(cfg: Config, size: nat) returns (s: State)
    requires size >= 2 && 0 <= cfg.interval && cfg.lease < cfg.interval
    ensures Reachable(cfg, size, s) && !Exclusive(s.workers)
  {
    var created := OneRowCreated(cfg, size);
    assert OneRow(created, 0 - cfg.lease);
    var claimed := ClaimIt(cfg, size, created, 0);
    var late := Wait(cfg, size, claimed, cfg.interval);
    s := ClaimIt(cfg, size, late, 1);
    assert Holding(s.workers[0]) && Holding(s.workers[1]) && s.workers[0].id == s.workers[1].id;
  }

  // THE LEASE BOUND. Rows are never shared exactly when there is at most one worker or heartbeats come
  // within the lease.
  lemma LeasesExcludeWhen(cfg: Config, size: nat)
    requires 0 <= cfg.interval
    ensures LeasesExclude(cfg, size) <==> size <= 1 || cfg.interval <= cfg.lease
  {
    if size <= 1 || cfg.interval <= cfg.lease {
      forall s | Reachable(cfg, size, s)
        ensures Exclusive(s.workers)
      {
        var states: seq<State>, steps: seq<Step> :|
          Run(cfg, states, steps) && |states[0].workers| == size && states[|steps|] == s;
        if size <= 1 {
          SameWorkers(cfg, states, steps);
        } else {
          LeaseExclusivity(cfg, states, steps);
        }
      }
    } else {
      var s := TwoOnOneRow(cfg, size);
    }
  }
}
