// The bound on the rows of a job is the least there is: for every cap and every number of workers a run
// in which planner after planner overshoots the cap reaches it.
module Overshoot {
  import opened Uniques
  import opened Wrappers
  import opened Sums
  import opened Text
  import opened Urls
  import opened Tables
  import opened Frontier
  import opened Protocol
  import opened Rows
  import opened TaskCap
  import opened Reachability

  // ----- Lists of pages -----

  function Pages(ks: seq<nat>): (pages: seq<Url>)
    ensures |pages| == |ks|
  {
    seq(|ks|, i requires 0 <= i < |ks| => Page(ks[i]))
  }

  function Links(ks: seq<nat>): (links: seq<Option<Url>>)
    ensures |links| == |ks|
  {
    seq(|ks|, i requires 0 <= i < |ks| => Some(Page(ks[i])))
  }

  ghost predicate AllDifferent(ks: seq<nat>) {
    forall i, k :: 0 <= i < k < |ks| ==> ks[i] != ks[k]
  }

  // A configuration that follows every http link, with the given cap.
  function Open(maxTasks: int): Config {
    Config(0, maxTasks, 0, 1, 1, CrawlConfig(false, ["http"], [], false))
  }

  lemma PageIsFollowed(cfg: CrawlConfig, base: Url, k: nat)
    requires cfg == Open(0).crawl
    ensures LinkKeys(base, Some(Page(k)), false, cfg) == [Page(k)]
  {
    PageIsCanonical(k);
    assert Lower("http") == Lower(cfg.allowedSchemes[0]);
    assert Ext("/") == "" && Lower("") == "";
  }

  lemma LastPage(ks: seq<nat>)
    requires ks != []
    ensures Links(ks)[..|ks| - 1] == Links(ks[..|ks| - 1]) && Links(ks)[|ks| - 1] == Some(Page(ks[|ks| - 1]))
    ensures Pages(ks) == Pages(ks[..|ks| - 1]) + [Page(ks[|ks| - 1])]
  {
  }

  lemma {:induction false} EveryLinkFollowed(cfg: CrawlConfig, base: Url, ks: seq<nat>)
    requires cfg == Open(0).crawl
    ensures FilteredLinks(base, Links(ks), false, cfg) == Pages(ks)
    decreases |ks|
  {
    if ks == [] {
    } else {
      LastPage(ks);
      EveryLinkFollowed(cfg, base, ks[..|ks| - 1]);
      PageIsFollowed(cfg, base, ks[|ks| - 1]);
    }
  }

  lemma PagesAreDistinct(ks: seq<nat>)
    requires AllDifferent(ks)
    ensures Distinct(Pages(ks)) && EMPTY_URL !in Pages(ks)
    ensures FirstOccurrences(Pages(ks), EMPTY_URL) == Pages(ks)
  {
    forall i, k | 0 <= i < k < |ks|
      ensures Pages(ks)[i] != Pages(ks)[k]
    {
      PagesDiffer(ks[i], ks[k]);
    }
    forall i | 0 <= i < |ks|
      ensures Pages(ks)[i] != EMPTY_URL
    {
      PageIsCanonical(ks[i]);
    }
    FirstOccurrencesIdempotent(Pages(ks), EMPTY_URL);
  }

  // What a worker plans from a page with links ks, when they all fit.
  lemma LinksOfPages(maxTasks: int, w: Worker, ks: seq<nat>)
    requires AllDifferent(ks) && !w.job.sameDomain
    ensures PlanLinks(Open(maxTasks), w, Links(ks), []) == Pages(ks)
  {
    var crawl := Open(maxTasks).crawl;
    var none: seq<Option<Url>> := [];
    EveryLinkFollowed(crawl, w.task.requested, ks);
    PagesAreDistinct(ks);
    assert FilteredLinks(w.task.requested, none, false, crawl) == [];
    assert Pages(ks) + [] == Pages(ks);
    assert (if w.task.depth == 0 then none else []) == none;
  }

  lemma TasksOfPages(maxTasks: int, t: Tables, w: Worker, ks: seq<nat>)
    requires AllDifferent(ks) && TaskCount(t, w.task.job) + |ks| <= maxTasks
    ensures PlanTasks(Open(maxTasks), t, w, Pages(ks), {}) == AsTasks(Pages(ks), w.task.depth + 1)
  {
    PagesAreDistinct(ks);
    assert Fitting(maxTasks, TaskCount(t, w.task.job), |ks|) == |ks|;
    assert Pages(ks)[..|ks|] == Pages(ks);
  }

  // ----- The states of the run -----

  // Job 0 has exactly the rows 0, 1, ... for the pages in ks; the first `claimed` of them are held.
  ghost predicate Holds(t: Tables, ks: seq<nat>, claimed: nat) {
    && 0 in t.jobs && t.jobs[0] == CRAWL_JOB.(status := t.jobs[0].status)
    && t.nextTask == |ks|
    && (forall id: TaskId :: id in t.tasks <==> id < |ks|)
    && (forall id :: id in t.tasks ==> RowHolds(t.tasks[id], id, ks[id], id < claimed))
  }

  predicate RowHolds(row: Task, id: TaskId, k: nat, held: bool) {
    && row.job == 0 && row.final == Page(k)
    && if held then row.status == Processing && row.heartbeatAt == Some(0) else row.status == Queued
  }

  ghost predicate Stage(maxTasks: int, size: nat, s: State, ks: seq<nat>, claimed: nat) {
    && Reachable(Open(maxTasks), size, s) && |s.workers| == size && s.clock == 0 && Seeded(s, 0) == 1
    && Holds(s.tables, ks, claimed)
  }

  // Links of its rows are followed.
  ghost predicate Shallow(t: Tables) {
    forall id :: id in t.tasks ==> t.tasks[id].depth < 2
  }

  lemma HoldsCount(t: Tables, ks: seq<nat>, claimed: nat)
    requires Holds(t, ks, claimed)
    ensures TaskCount(t, 0) == |ks|
  {
    BelowExact(|ks|);
    assert RowsOf(t, 0) == Below(|ks|);
  }

  // Worker w works on a row of job 0 from which links are followed.
  predicate Working(w: Worker, pc: Pc) {
    w.pc == pc && w.task.job == 0 && w.task.depth < 2 && w.job == CRAWL_JOB.(status := w.job.status)
  }

  // Worker i claims the next row.
  lemma ClaimNext(maxTasks: int, size: nat, s: State, ks: seq<nat>, claimed: nat, i: nat) returns (next: State)
    requires Stage(maxTasks, size, s, ks, claimed) && claimed < |ks| && Shallow(s.tables)
    requires i < size && s.workers[i].pc == Idle
    ensures Stage(maxTasks, size, next, ks, claimed + 1) && Shallow(next.tables)
    ensures next.workers == s.workers[i := next.workers[i]]
    ensures next.workers[i].pc == Claimed && next.workers[i].task.job == 0
    ensures next.workers[i].task.depth == s.tables.tasks[claimed].depth < 2
  {
    var cfg := Open(maxTasks);
    var step := Claim(i, claimed, 0, {});
    assert RowHolds(s.tables.tasks[claimed], claimed, ks[claimed], false);
    forall k | k in s.tables.tasks && Claimable(s.tables.tasks[k], -1)
      ensures claimed <= k
    {
      assert RowHolds(s.tables.tasks[k], k, ks[k], k < claimed);
    }
    assert Picks(s.tables, claimed, -1, {});
    assert Enabled(cfg, s, step);
    next := Apply(cfg, s, step);
    ReachableStep(cfg, size, s, step, next);
    assert NextTables(cfg, s, step) == ClaimTask(s.tables, claimed, 0);
  }

  // From s to next only worker i moves, on its row, and no row changes.
  predicate Aside(s: State, next: State, i: nat) {
    && i < |s.workers| && |next.workers| == |s.workers| && next.workers == s.workers[i := next.workers[i]]
    && next.workers[i].task == s.workers[i].task && next.tables.tasks == s.tables.tasks
  }

  // ... reads the job, starts it and stores the page, which touches no task row.
  lemma StorePage(maxTasks: int, size: nat, s: State, ks: seq<nat>, claimed: nat, i: nat) returns (next: State)
    requires Stage(maxTasks, size, s, ks, claimed) && i < size
    requires s.workers[i].pc == Claimed && s.workers[i].task.job == 0 && s.workers[i].task.depth < 2
    ensures Stage(maxTasks, size, next, ks, claimed) && Aside(s, next, i) && Working(next.workers[i], Stored)
  {
    var read := ReadIt(maxTasks, size, s, ks, claimed, i);
    var started := StartIt(maxTasks, size, read, ks, claimed, i);
    next := StoreIt(maxTasks, size, started, ks, claimed, i);
  }

  lemma ReadIt(maxTasks: int, size: nat, s: State, ks: seq<nat>, claimed: nat, i: nat) returns (next: State)
    requires Stage(maxTasks, size, s, ks, claimed) && i < size
    requires s.workers[i].pc == Claimed && s.workers[i].task.job == 0 && s.workers[i].task.depth < 2
    ensures Stage(maxTasks, size, next, ks, claimed) && Aside(s, next, i) && Working(next.workers[i], JobRead)
  {
    var step := ReadJob(i);
    next := Apply(Open(maxTasks), s, step);
    ReachableStep(Open(maxTasks), size, s, step, next);
    assert NextTables(Open(maxTasks), s, step) == s.tables;
  }

  lemma StartIt(maxTasks: int, size: nat, s: State, ks: seq<nat>, claimed: nat, i: nat) returns (next: State)
    requires Stage(maxTasks, size, s, ks, claimed) && i < size && Working(s.workers[i], JobRead)
    ensures Stage(maxTasks, size, next, ks, claimed) && Aside(s, next, i) && Working(next.workers[i], Fetching)
  {
    var step := StartJob(i, true);
    next := Apply(Open(maxTasks), s, step);
    ReachableStep(Open(maxTasks), size, s, step, next);
    assert NextTables(Open(maxTasks), s, step).tasks == s.tables.tasks;
  }

  lemma StoreIt(maxTasks: int, size: nat, s: State, ks: seq<nat>, claimed: nat, i: nat) returns (next: State)
    requires Stage(maxTasks, size, s, ks, claimed) && i < size && Working(s.workers[i], Fetching)
    ensures Stage(maxTasks, size, next, ks, claimed) && Aside(s, next, i) && Working(next.workers[i], Stored)
  {
    var step := StoreDocument(i, Page(0));
    next := Apply(Open(maxTasks), s, step);
    ReachableStep(Open(maxTasks), size, s, step, next);
    assert NextTables(Open(maxTasks), s, step).tasks == s.tables.tasks;
  }

  // Worker w has the pages `more` still to insert.
  predicate HasPlanned(w: Worker, more: seq<nat>) {
    Working(w, Planned) && more != [] && w.rest == AsTasks(Pages(more), w.task.depth + 1)
  }

  // It plans the pages `more`, for which there is room.
  lemma PlanIt(maxTasks: int, size: nat, s: State, ks: seq<nat>, claimed: nat, i: nat, more: seq<nat>)
    returns (next: State)
    requires Stage(maxTasks, size, s, ks, claimed) && i < size && Working(s.workers[i], Stored)
    requires AllDifferent(more) && more != [] && |ks| + |more| <= maxTasks
    ensures Stage(maxTasks, size, next, ks, claimed) && Aside(s, next, i) && HasPlanned(next.workers[i], more)
  {
    var w := s.workers[i];
    var step := Plan(i, Links(more), [], {});
    HoldsCount(s.tables, ks, claimed);
    PlannedPages(maxTasks, s, w, step, more);
    next := Apply(Open(maxTasks), s, step);
    ReachableStep(Open(maxTasks), size, s, step, next);
    assert NextTables(Open(maxTasks), s, step) == s.tables;
  }

  lemma PlannedPages(maxTasks: int, s: State, w: Worker, step: Step, more: seq<nat>)
    requires step.Plan? && step.page == Links(more) && step.sitemap == [] && step.seen == {} && Working(w, Stored)
    requires AllDifferent(more) && more != [] && TaskCount(s.tables, 0) + |more| <= maxTasks
    ensures
      var w' := NextWorker(Open(maxTasks), s, w, step);
      HasPlanned(w', more) && w'.task == w.task
  {
    LinksOfPages(maxTasks, w, more);
    assert NextWorker(Open(maxTasks), s, w, step) == PlanWorker(Open(maxTasks), s.tables, w, Pages(more), {});
    PlannedTasksOf(maxTasks, s.tables, w, more);
  }

  lemma PlannedTasksOf(maxTasks: int, t: Tables, w: Worker, more: seq<nat>)
    requires Working(w, Stored) && AllDifferent(more) && more != [] && TaskCount(t, 0) + |more| <= maxTasks
    ensures
      var w' := PlanWorker(Open(maxTasks), t, w, Pages(more), {});
      HasPlanned(w', more) && w'.task == w.task
  {
    TasksOfPages(maxTasks, t, w, more);
    assert |AsLinks(AsTasks(Pages(more), w.task.depth + 1))| == |more|;
  }

  // It inserts one row.
  lemma InsertPage(t: Tables, ks: seq<nat>, claimed: nat, n: NewTask, k: nat)
    requires Holds(t, ks, claimed) && claimed <= |ks| && n.final == Page(k) && k !in ks
    ensures Holds(InsertTasks(t, 0, [n]), ks + [k], claimed)
    ensures Shallow(t) && n.depth < 2 ==> Shallow(InsertTasks(t, 0, [n]))
  {
    forall id | id in t.tasks
      ensures t.tasks[id].final != Page(k) && id < |ks|
    {
      assert RowHolds(t.tasks[id], id, ks[id], id < claimed);
      PagesDiffer(ks[id], k);
    }
    var next := InsertTask(t, 0, n);
    assert InsertTasks(t, 0, [n]) == next by {
      assert [n][1..] == [];
    }
    forall id | id in next.tasks
      ensures RowHolds(next.tasks[id], id, (ks + [k])[id], id < claimed)
    {
      if id < |ks| {
        assert RowHolds(t.tasks[id], id, ks[id], id < claimed);
      }
    }
  }

  lemma InsertIt(maxTasks: int, size: nat, s: State, ks: seq<nat>, claimed: nat, i: nat, more: seq<nat>)
    returns (next: State)
    requires Stage(maxTasks, size, s, ks, claimed) && claimed <= |ks| && i < size
    requires HasPlanned(s.workers[i], more) && more[0] !in ks
    ensures Stage(maxTasks, size, next, ks + [more[0]], claimed)
    ensures next.workers == s.workers[i := next.workers[i]] && next.workers[i].task == s.workers[i].task
    ensures |more| > 1 ==> HasPlanned(next.workers[i], more[1..])
    ensures Shallow(s.tables) && s.workers[i].task.depth == 0 ==> Shallow(next.tables)
  {
    var w := s.workers[i];
    var step := InsertRow(i);
    PlanParts(more, w.task.depth + 1);
    next := Apply(Open(maxTasks), s, step);
    ReachableStep(Open(maxTasks), size, s, step, next);
    assert Head(w.rest) == [w.rest[0]];
    assert NextTables(Open(maxTasks), s, step) == InsertTasks(s.tables, 0, [w.rest[0]]);
    InsertPage(s.tables, ks, claimed, w.rest[0], more[0]);
  }

  lemma PlanParts(more: seq<nat>, depth: int)
    requires more != []
    ensures AsTasks(Pages(more), depth)[0] == NewTask(Page(more[0]), Page(more[0]), depth)
    ensures AsTasks(Pages(more), depth)[1..] == AsTasks(Pages(more[1..]), depth)
  {
  }

  ghost predicate Apart(xs: seq<nat>, ys: seq<nat>) {
    forall x :: x in xs ==> x !in ys
  }

  // What is left after the first page is apart from what is there then.
  lemma RestApart(ks: seq<nat>, more: seq<nat>)
    requires AllDifferent(more) && Apart(more, ks) && more != []
    ensures more[0] !in ks && AllDifferent(more[1..]) && Apart(more[1..], ks + [more[0]])
    ensures (ks + [more[0]]) + more[1..] == ks + more
  {
    forall x | x in more[1..]
      ensures x !in ks + [more[0]]
    {
      var i :| 0 <= i < |more[1..]| && more[1..][i] == x;
      assert more[i + 1] == x;
    }
  }

  // It inserts all it has planned.
  lemma {:induction false} InsertAll(
      maxTasks: int, size: nat, s: State, ks: seq<nat>, claimed: nat, i: nat, more: seq<nat>)
    returns (next: State)
    requires Stage(maxTasks, size, s, ks, claimed) && claimed <= |ks| && i < size
    requires HasPlanned(s.workers[i], more) && AllDifferent(more) && Apart(more, ks)
    ensures Stage(maxTasks, size, next, ks + more, claimed) && next.workers == s.workers[i := next.workers[i]]
    decreases |more|
  {
    RestApart(ks, more);
    next := InsertIt(maxTasks, size, s, ks, claimed, i, more);
    if |more| == 1 {
      assert ks + [more[0]] == ks + more;
    } else {
      next := InsertAll(maxTasks, size, next, ks + [more[0]], claimed, i, more[1..]);
      assert next.workers == s.workers[i := next.workers[i]];
    }
  }

  // ----- The run -----

  lemma SeedInserted(maxTasks: int)
    ensures SeedTasks([Page(0)], Open(maxTasks)) == [NewTask(Page(0), Page(0), 0)]
    ensures
      var t := InsertTasks(InsertJob(EMPTY, CRAWL_JOB), 0, [NewTask(Page(0), Page(0), 0)]);
      Holds(t, [0], 0) && Shallow(t) && t.tasks[0].depth == 0
  {
    var start, n := InsertJob(EMPTY, CRAWL_JOB), NewTask(Page(0), Page(0), 0);
    PageIsCanonical(0);
    InsertPage(start, [], 0, n, 0);
    assert [] + [0] == [0] && [n][1..] == [];
    assert InsertTasks(start, 0, [n]) == InsertTask(start, 0, n);
  }

  // A job with the one seed Page(0), and nobody at work yet.
  lemma Created(maxTasks: int, size: nat) returns (s: State)
    ensures Stage(maxTasks, size, s, [0], 0) && Shallow(s.tables) && s.tables.tasks[0].depth == 0
    ensures forall i :: 0 <= i < size ==> s.workers[i].pc == Idle
  {
    var cfg := Open(maxTasks);
    var step := CreateJob(CRAWL_JOB, [Page(0)]);
    BlankReachable(cfg, size);
    SeedInserted(maxTasks);
    s := Apply(cfg, Blank(size), step);
    assert s.tables == InsertTasks(InsertJob(EMPTY, CRAWL_JOB), 0, [NewTask(Page(0), Page(0), 0)]);
    ReachableStep(cfg, size, Blank(size), step, s);
    HoldsCount(s.tables, [0], 0);
  }

  // The next idle worker claims the next row and plans the pages `more`.
  lemma PlanNext(maxTasks: int, size: nat, s: State, ks: seq<nat>, i: nat, more: seq<nat>) returns (next: State)
    requires Stage(maxTasks, size, s, ks, i) && i < |ks| && Shallow(s.tables)
    requires i < size && s.workers[i].pc == Idle
    requires AllDifferent(more) && more != [] && |ks| + |more| <= maxTasks
    ensures Stage(maxTasks, size, next, ks, i + 1) && Shallow(next.tables)
    ensures next.workers == s.workers[i := next.workers[i]] && HasPlanned(next.workers[i], more)
    ensures next.workers[i].task.depth == s.tables.tasks[i].depth
  {
    var claimed := ClaimNext(maxTasks, size, s, ks, i, i);
    var stored := StorePage(maxTasks, size, claimed, ks, i + 1, i);
    next := PlanIt(maxTasks, size, stored, ks, i + 1, i, more);
  }

  // Worker k still has the pages plans[k] to insert; pages from `unused` on are nowhere yet.
  ghost predicate Separate(ks: seq<nat>, plans: seq<seq<nat>>, unused: nat) {
    && (forall k :: k in ks ==> k < unused)
    && (forall a :: 0 <= a < |plans| ==> AllDifferent(plans[a]) && Apart(plans[a], ks))
    && (forall a :: 0 <= a < |plans| ==> forall k :: k in plans[a] ==> k < unused)
    && (forall a, b :: 0 <= a < b < |plans| ==> Apart(plans[a], plans[b]))
  }

  ghost predicate Planning(maxTasks: int, size: nat, s: State, ks: seq<nat>, claimed: nat, plans: seq<seq<nat>>) {
    && Stage(maxTasks, size, s, ks, claimed) && claimed <= |ks| && |plans| <= size
    && forall a :: 0 <= a < |plans| ==> HasPlanned(s.workers[a], plans[a])
  }

  // p workers have a plan each: the first has inserted p - 1 of its pages, for the others to claim.
  ghost predicate Phase(
      maxTasks: int, size: nat, s: State, ks: seq<nat>, plans: seq<seq<nat>>, unused: nat, p: nat)
  {
    && 1 <= p < maxTasks && |ks| == p && |plans| == p && |plans[0]| == maxTasks - p
    && (forall a :: 1 <= a < p ==> |plans[a]| == maxTasks - a - 1)
    && Planning(maxTasks, size, s, ks, p, plans) && Separate(ks, plans, unused)
    && Shallow(s.tables) && s.workers[0].task.depth == 0
    && forall i :: p <= i < size ==> s.workers[i].pc == Idle
  }

  ghost function From(unused: nat, n: nat): (pages: seq<nat>)
    ensures |pages| == n && AllDifferent(pages) && forall k :: k in pages ==> unused <= k < unused + n
  {
    seq(n, i requires 0 <= i < n => unused + i)
  }

  // Worker 0 inserts a page ...
  lemma Freed(ks: seq<nat>, plans: seq<seq<nat>>, unused: nat)
    requires Separate(ks, plans, unused) && plans != [] && plans[0] != []
    ensures Separate(ks + [plans[0][0]], plans[0 := plans[0][1..]], unused)
  {
    var x, left := plans[0][0], plans[0 := plans[0][1..]];
    RestApart(ks, plans[0]);
    assert x in plans[0] && forall y :: y in left[0] ==> y in plans[0];
    forall a | 0 <= a < |left|
      ensures AllDifferent(left[a]) && Apart(left[a], ks + [x])
    {
      if a > 0 {
        assert Apart(plans[0], plans[a]);
      }
    }
    forall a, b | 0 <= a < b < |left|
      ensures Apart(left[a], left[b])
    {
      assert Apart(plans[a], plans[b]);
    }
  }

  // ... and worker p plans pages that nobody has planned.
  lemma Added(ks: seq<nat>, plans: seq<seq<nat>>, unused: nat, n: nat)
    requires Separate(ks, plans, unused)
    ensures Separate(ks, plans + [From(unused, n)], unused + n)
  {
    var more := plans + [From(unused, n)];
    forall a, b | 0 <= a < b < |more|
      ensures Apart(more[a], more[b])
    {
      if b < |plans| {
        assert Apart(plans[a], plans[b]);
      }
    }
  }

  lemma FirstPhase(maxTasks: int, size: nat) returns (s: State, plans: seq<seq<nat>>)
    requires size >= 1 && maxTasks >= 2
    ensures Phase(maxTasks, size, s, [0], plans, maxTasks, 1)
  {
    var more := From(1, maxTasks - 1);
    s := FirstPlanner(maxTasks, size, more);
    plans := [more];
    Added([0], [], 1, maxTasks - 1);
    assert [] + [more] == [more];
  }

  lemma FirstPlanner(maxTasks: int, size: nat, more: seq<nat>) returns (s: State)
    requires size >= 1 && AllDifferent(more) && more != [] && |more| + 1 <= maxTasks
    ensures Planning(maxTasks, size, s, [0], 1, [more]) && Shallow(s.tables) && s.workers[0].task.depth == 0
    ensures forall i :: 1 <= i < size ==> s.workers[i].pc == Idle
  {
    var created := Created(maxTasks, size);
    s := PlanNext(maxTasks, size, created, [0], 0, more);
  }

  // Worker 0's share of the next phase ...
  lemma InsertFirst(
      maxTasks: int, size: nat, s: State, ks: seq<nat>, plans: seq<seq<nat>>, unused: nat, p: nat)
    returns (next: State)
    requires Phase(maxTasks, size, s, ks, plans, unused, p) && |plans[0]| > 1
    ensures
      var ks', plans' := ks + [plans[0][0]], plans[0 := plans[0][1..]];
      Planning(maxTasks, size, next, ks', p, plans') && Separate(ks', plans', unused)
    ensures next.workers == s.workers[0 := next.workers[0]] && next.workers[0].task.depth == 0 && Shallow(next.tables)
  {
    assert Apart(plans[0], ks) && plans[0][0] in plans[0];
    next := InsertIt(maxTasks, size, s, ks, p, 0, plans[0]);
    Freed(ks, plans, unused);
  }

  // ... and worker p's.
  lemma PlanLast(
      maxTasks: int, size: nat, s: State, ks: seq<nat>, plans: seq<seq<nat>>, unused: nat, p: nat)
    returns (next: State)
    requires Planning(maxTasks, size, s, ks, p, plans) && Shallow(s.tables)
    requires 1 <= p < size && |plans| == p && |ks| == p + 1 < maxTasks && s.workers[p].pc == Idle
    ensures Planning(maxTasks, size, next, ks, p + 1, plans + [From(unused, maxTasks - p - 1)])
    ensures next.workers == s.workers[p := next.workers[p]] && Shallow(next.tables)
  {
    var more := From(unused, maxTasks - p - 1);
    next := PlanNext(maxTasks, size, s, ks, p, more);
    forall a | 0 <= a < p + 1
      ensures HasPlanned(next.workers[a], (plans + [more])[a])
    {
      if a < p {
        assert next.workers[a] == s.workers[a];
      }
    }
  }

  lemma NextPhase(
      maxTasks: int, size: nat, s: State, ks: seq<nat>, plans: seq<seq<nat>>, unused: nat, p: nat)
    returns (next: State, ks': seq<nat>, plans': seq<seq<nat>>)
    requires Phase(maxTasks, size, s, ks, plans, unused, p) && p < size && p + 1 < maxTasks
    ensures Phase(maxTasks, size, next, ks', plans', unused + (maxTasks - p - 1), p + 1)
  {
    ks', plans' := ks + [plans[0][0]], plans[0 := plans[0][1..]];
    var inserted := InsertFirst(maxTasks, size, s, ks, plans, unused, p);
    next := PlanLast(maxTasks, size, inserted, ks', plans', unused, p);
    Added(ks', plans', unused, maxTasks - p - 1);
    plans' := plans' + [From(unused, maxTasks - p - 1)];
  }

  lemma {:induction false} PhaseReached(maxTasks: int, size: nat, p: nat)
    returns (s: State, ks: seq<nat>, plans: seq<seq<nat>>, unused: nat)
    requires 1 <= p <= size && p < maxTasks
    ensures Phase(maxTasks, size, s, ks, plans, unused, p)
    decreases p
  {
    if p == 1 {
      ks, unused := [0], maxTasks;
      s, plans := FirstPhase(maxTasks, size);
    } else {
      s, ks, plans, unused := PhaseReached(maxTasks, size, p - 1);
      s, ks, plans := NextPhase(maxTasks, size, s, ks, plans, unused, p - 1);
      unused := unused + (maxTasks - p);
    }
  }

  function SizeOf(plans: seq<seq<nat>>): nat {
    if plans == [] then 0 else SizeOf(plans[..|plans| - 1]) + |plans[|plans| - 1]|
  }

  // Everybody inserts what is planned, the last planner first.
  lemma {:induction false} AllInserted(
      maxTasks: int, size: nat, s: State, ks: seq<nat>, claimed: nat, plans: seq<seq<nat>>, unused: nat)
    returns (last: State, ks': seq<nat>)
    requires Planning(maxTasks, size, s, ks, claimed, plans) && Separate(ks, plans, unused)
    ensures Stage(maxTasks, size, last, ks', claimed) && |ks'| == |ks| + SizeOf(plans)
    decreases |plans|
  {
    if plans == [] {
      last, ks' := s, ks;
    } else {
      var n := |plans| - 1;
      var fewer := LastInserted(maxTasks, size, s, ks, claimed, plans, unused);
      last, ks' := AllInserted(maxTasks, size, fewer, ks + plans[n], claimed, plans[..n], unused);
    }
  }

  lemma LastInserted(
      maxTasks: int, size: nat, s: State, ks: seq<nat>, claimed: nat, plans: seq<seq<nat>>, unused: nat)
    returns (next: State)
    requires Planning(maxTasks, size, s, ks, claimed, plans) && Separate(ks, plans, unused) && plans != []
    ensures
      var n := |plans| - 1;
      && Planning(maxTasks, size, next, ks + plans[n], claimed, plans[..n])
      && Separate(ks + plans[n], plans[..n], unused)
  {
    var n := |plans| - 1;
    next := InsertAll(maxTasks, size, s, ks, claimed, n, plans[n]);
    Merged(ks, plans, unused);
    forall a | 0 <= a < n
      ensures HasPlanned(next.workers[a], plans[..n][a])
    {
      assert next.workers[a] == s.workers[a];
    }
  }

  lemma Merged(ks: seq<nat>, plans: seq<seq<nat>>, unused: nat)
    requires Separate(ks, plans, unused) && plans != []
    ensures Separate(ks + plans[|plans| - 1], plans[..|plans| - 1], unused)
  {
    var n := |plans| - 1;
    forall a | 0 <= a < n
      ensures Apart(plans[a], ks + plans[n])
    {
      assert Apart(plans[a], plans[n]);
    }
  }

  lemma {:induction false} PhaseSize(maxTasks: int, plans: seq<seq<nat>>, first: nat)
    requires plans != [] && |plans[0]| == first
    requires forall a :: 1 <= a < |plans| ==> |plans[a]| == maxTasks - a - 1
    ensures SizeOf(plans) == first + Overlap(maxTasks, |plans| - 1)
    decreases |plans|
  {
    if |plans| == 1 {
      assert plans[..0] == [];
    } else {
      PhaseSize(maxTasks, plans[..|plans| - 1], first);
    }
  }

  // More planners than that find no room.
  lemma {:induction false} OverlapEnds(maxTasks: int, p: nat, q: nat)
    requires maxTasks - 2 <= p <= q
    ensures Overlap(maxTasks, q) == Overlap(maxTasks, p)
    decreases q
  {
    if q == p {
    } else {
      OverlapEnds(maxTasks, p, q - 1);
    }
  }

  // A job created with one row has come to `count` rows.
  ghost predicate HasCome(maxTasks: int, size: nat, s: State, count: int) {
    && Reachable(Open(maxTasks), size, s) && 0 in s.tables.jobs && Seeded(s, 0) == 1
    && TaskCount(s.tables, 0) == count
  }

  lemma StageHasCome(maxTasks: int, size: nat, s: State, ks: seq<nat>, claimed: nat)
    requires Stage(maxTasks, size, s, ks, claimed)
    ensures HasCome(maxTasks, size, s, |ks|)
  {
    HoldsCount(s.tables, ks, claimed);
  }

  // With p planners at once.
  lemma Overlapped(maxTasks: int, size: nat, p: nat) returns (last: State)
    requires 1 <= p <= size && p < maxTasks
    ensures HasCome(maxTasks, size, last, maxTasks + Overlap(maxTasks, p - 1))
  {
    var s, ks, plans, unused := PhaseReached(maxTasks, size, p);
    var all;
    last, all := PhaseInserted(maxTasks, size, s, ks, plans, unused, p);
    StageHasCome(maxTasks, size, last, all, p);
  }

  lemma PhaseInserted(
      maxTasks: int, size: nat, s: State, ks: seq<nat>, plans: seq<seq<nat>>, unused: nat, p: nat)
    returns (last: State, all: seq<nat>)
    requires Phase(maxTasks, size, s, ks, plans, unused, p)
    ensures Stage(maxTasks, size, last, all, p) && |all| == maxTasks + Overlap(maxTasks, p - 1)
  {
    PhaseSize(maxTasks, plans, maxTasks - p);
    last, all := AllInserted(maxTasks, size, s, ks, p, plans, unused);
  }

  lemma OnlySeed(maxTasks: int, size: nat) returns (s: State)
    requires maxTasks == 1 && size >= 1
    ensures HasCome(maxTasks, size, s, maxTasks + Overlap(maxTasks, size - 1))
  {
    s := Created(maxTasks, size);
    StageHasCome(maxTasks, size, s, [0], 0);
    NoOverlap(maxTasks, size - 1);
  }

  // More planners than pages.
  lemma Crowded(maxTasks: int, size: nat) returns (s: State)
    requires 2 <= maxTasks <= size
    ensures HasCome(maxTasks, size, s, maxTasks + Overlap(maxTasks, size - 1))
  {
    s := Overlapped(maxTasks, size, maxTasks - 1);
    OverlapEnds(maxTasks, maxTasks - 2, size - 1);
  }

  // THE BOUND IS REACHED. For every cap M > 0 and every number of workers, some fault-free run takes a job
  // created with one row to as many rows as the bound allows.
  lemma CapReached(maxTasks: int, size: nat) returns (s: State)
    requires size >= 1 && maxTasks >= 1
    ensures HasCome(maxTasks, size, s, maxTasks + Overlap(maxTasks, size - 1))
  {
    if maxTasks == 1 {
      s := OnlySeed(maxTasks, size);
    } else if size < maxTasks {
      s := Overlapped(maxTasks, size, size);
    } else {
      s := Crowded(maxTasks, size);
    }
  }

  // No fault-free run of `size` workers takes a job beyond `bound` rows, if it was created with one row.
  ghost predicate Bounds(maxTasks: int, size: nat, bound: int) {
    forall cfg: Config, s: State, j: JobId ::
      cfg.maxTasks == maxTasks && 0 <= cfg.interval <= cfg.lease && Reachable(cfg, size, s) && j in s.tables.jobs
      && Seeded(s, j) == 1 ==>
        TaskCount(s.tables, j) <= bound
  }

  lemma ReachableWithin(cfg: Config, size: nat, s: State, j: JobId)
    requires 0 <= cfg.interval <= cfg.lease && cfg.maxTasks > 0 && Reachable(cfg, size, s) && j in s.tables.jobs
    ensures TaskCount(s.tables, j) <= Max(Seeded(s, j), cfg.maxTasks) + Overlap(cfg.maxTasks, Max(size - 1, 0))
  {
    var states: seq<State>, steps: seq<Step> :|
      Run(cfg, states, steps) && |states[0].workers| == size && states[|steps|] == s;
    RunWithin(cfg, states, steps, j);
  }

  lemma RunWithin(cfg: Config, states: seq<State>, steps: seq<Step>, j: JobId)
    requires 0 <= cfg.interval <= cfg.lease && cfg.maxTasks > 0
    requires Run(cfg, states, steps) && j in states[|steps|].tables.jobs
    ensures TaskCount(states[|steps|].tables, j)
         <= Max(Seeded(states[|steps|], j), cfg.maxTasks) + Overlap(cfg.maxTasks, Max(|states[0].workers| - 1, 0))
  {
    SameWorkers(cfg, states, steps);
    TaskCapHolds(cfg, states, steps);
  }

  // THE BOUND IS EXACT. A number bounds the rows of every job created with one row, as crawls and maps are,
  // exactly when it is at least M and, for each k from 2 to W, max(M - k, 0) more.
  lemma CapExact(maxTasks: int, size: nat, bound: int)
    requires maxTasks >= 1 && size >= 1
    ensures Bounds(maxTasks, size, bound) <==> bound >= maxTasks + Overlap(maxTasks, size - 1)
  {
    var most := CapReached(maxTasks, size);
    assert Open(maxTasks).maxTasks == maxTasks;
    forall cfg: Config, s: State, j: JobId |
      cfg.maxTasks == maxTasks && 0 <= cfg.interval <= cfg.lease && Reachable(cfg, size, s) && j in s.tables.jobs
      && Seeded(s, j) == 1
      ensures TaskCount(s.tables, j) <= maxTasks + Overlap(maxTasks, size - 1)
    {
      ReachableWithin(cfg, size, s, j);
    }
  }

  // No fault-free run of `size` workers takes a job beyond the cap and the rows it was created with.
  ghost predicate CapKept(maxTasks: int, size: nat) {
    forall cfg: Config, s: State, j: JobId ::
      cfg.maxTasks == maxTasks && 0 <= cfg.interval <= cfg.lease && Reachable(cfg, size, s) && j in s.tables.jobs ==>
        TaskCount(s.tables, j) <= Max(Seeded(s, j), maxTasks)
  }

  // The cap is kept exactly when there is at most one worker or the cap is at most two.
  lemma CapKeptWhen(maxTasks: int, size: nat)
    requires maxTasks > 0
    ensures CapKept(maxTasks, size) <==> size <= 1 || maxTasks <= 2
  {
    NoOverlap(maxTasks, Max(size - 1, 0));
    if size <= 1 || maxTasks <= 2 {
      forall cfg: Config, s: State, j: JobId |
        cfg.maxTasks == maxTasks && 0 <= cfg.interval <= cfg.lease && Reachable(cfg, size, s) && j in s.tables.jobs
        ensures TaskCount(s.tables, j) <= Max(Seeded(s, j), maxTasks)
      {
        ReachableWithin(cfg, size, s, j);
      }
    } else {
      var s := CapReached(maxTasks, size);
      assert Open(maxTasks).maxTasks == maxTasks;
    }
  }
}
