// States that fault-free runs reach, and the pages and the job that the counterexamples start from.
module Reachability {
  import opened Wrappers
  import opened Text
  import opened Urls
  import opened Tables
  import opened Frontier
  import opened Protocol

  // Some fault-free run with `size` workers ends in s.
  ghost predicate Reachable(cfg: Config, size: nat, s: State) {
    exists states: seq<State>, steps: seq<Step> ::
      Run(cfg, states, steps) && Faultless(steps) && |states[0].workers| == size && states[|steps|] == s
  }

  lemma RunExtends(cfg: Config, states: seq<State>, steps: seq<Step>, step: Step, next: State)
    requires Run(cfg, states, steps)
    requires Enabled(cfg, states[|steps|], step) && next == Apply(cfg, states[|steps|], step)
    ensures Run(cfg, states + [next], steps + [step])
  {
    var longer, more := states + [next], steps + [step];
    forall k | 0 <= k < |more|
      ensures Enabled(cfg, longer[k], more[k]) && longer[k + 1] == Apply(cfg, longer[k], more[k])
    {
      if k < |steps| {
        assert longer[k] == states[k] && longer[k + 1] == states[k + 1] && more[k] == steps[k];
      } else {
        assert longer[k] == states[k] && longer[k + 1] == next && more[k] == step;
      }
    }
    assert longer[0] == states[0];
  }

  lemma ReachableStep(cfg: Config, size: nat, s: State, step: Step, next: State)
    requires Reachable(cfg, size, s) && Enabled(cfg, s, step) && !Fault(step) && next == Apply(cfg, s, step)
    ensures Reachable(cfg, size, next)
  {
    var states: seq<State>, steps: seq<Step> :|
      Run(cfg, states, steps) && Faultless(steps) && |states[0].workers| == size && states[|steps|] == s;
    RunExtends(cfg, states, steps, step, next);
    assert Faultless(steps + [step]);
    assert (states + [next])[|steps + [step]|] == next && (states + [next])[0] == states[0];
  }

  // ----- Where the counterexamples start -----

  // Page k of one site: they differ in the query.
  function Page(k: nat): Url {
    RawUrl("http", "a", None, "/", seq(k, i => 'x'), "")
  }

  lemma PageIsCanonical(k: nat)
    ensures Canonicalize(Page(k), false) == Page(k) && Page(k) != EMPTY_URL
  {
    CleanRoot();
    assert Lower("http") == "http" && Lower("a") == "a";
  }

  lemma PagesDiffer(a: nat, b: nat)
    requires a != b
    ensures Page(a) != Page(b)
  {
    assert |Page(a).query| != |Page(b).query|;
  }

  const CRAWL_JOB: Job := Job(JobQueued, Crawl, Page(0), 2, false, 0, None, None)

  function Blank(size: nat): State {
    var row := Task(0, EMPTY_URL, EMPTY_URL, 0, Queued, 0, None);
    var idle := Worker(Idle, 0, row, CRAWL_JOB, 0, [], [], false, 0, false);
    State(EMPTY, seq(size, i => idle), 0, map[], map[], map[])
  }

  lemma BlankReachable(cfg: Config, size: nat)
    ensures Reachable(cfg, size, Blank(size))
  {
    var states, steps := [Blank(size)], [];
    assert Run(cfg, states, steps) && Faultless(steps) && states[|steps|] == Blank(size);
  }

  lemma SeedsOneRow(cfg: Config)
    ensures
      var t := InsertTasks(InsertJob(EMPTY, CRAWL_JOB), 0, SeedTasks([Page(0)], cfg));
      && t.tasks.Keys == {0} && t.tasks[0].job == 0 && t.tasks[0].status == Queued && t.tasks[0].attempts == 0
      && 0 in t.jobs
  {
    var ns := SeedTasks([Page(0)], cfg);
    var start := InsertJob(EMPTY, CRAWL_JOB);
    assert ns[1..] == [];
    assert InsertTasks(start, 0, ns) == InsertTask(start, 0, ns[0]);
  }

  // Job 0 with one queued row, and nobody at work yet.
  lemma OneRowCreated(cfg: Config, size: nat) returns (s: State)
    ensures Reachable(cfg, size, s) && |s.workers| == size && s.clock == 0 && 0 in s.tables.jobs
    ensures s.tables.tasks.Keys == {0} && s.tables.tasks[0].job == 0
    ensures s.tables.tasks[0].status == Queued && s.tables.tasks[0].attempts == 0
    ensures forall i :: 0 <= i < size ==> s.workers[i].pc == Idle
  {
    var step := CreateJob(CRAWL_JOB, [Page(0)]);
    BlankReachable(cfg, size);
    s := Apply(cfg, Blank(size), step);
    ReachableStep(cfg, size, Blank(size), step, s);
    SeedsOneRow(cfg);
    assert s.tables == InsertTasks(InsertJob(EMPTY, CRAWL_JOB), 0, SeedTasks([Page(0)], cfg));
  }

  lemma {:induction false} SameWorkers(cfg: Config, states: seq<State>, steps: seq<Step>)
    requires Run(cfg, states, steps)
    ensures |states[|steps|].workers| == |states[0].workers|
    decreases |steps|
  {
    if steps == [] {
    } else {
      var n := |steps| - 1;
      Prefix(cfg, states, steps);
      SameWorkers(cfg, states[..|steps|], steps[..n]);
      assert states[n + 1].workers == NextWorkers(cfg, states[n], steps[n]);
    }
  }
}
