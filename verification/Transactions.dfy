// The two transactions that span several statements: createJobWithSeeds (internal/server/jobs.go)
// and enqueueMapLinks (internal/worker/worker.go).
module Transactions {
  import opened Wrappers
  import opened Urls
  import opened Tables
  import opened Frontier
  import opened Protocol
  import opened Database

  // Seeds have passed request validation, so they parse.
  datatype Seed = Seed(requested: Url, depth: int, abortIfDuplicate: bool)

  datatype Created = Committed(id: JobId) | SeedAlreadyProcessed | DatabaseError

  // The statements that fail: beginning, inserting the job, the dedupe lookups of some seeds, a row
  // of a batch insert of tasks or of mapped links, the commit.
  datatype Outage = Outage(
    begin: bool, job: bool, lookups: set<nat>, row: Option<nat>, link: Option<nat>, commit: bool)

  // The same rows; the sequences behind the ids may have moved on.
  ghost predicate SameRows(a: Tables, b: Tables) {
    && a.jobs == b.jobs && a.tasks == b.tasks && a.documents == b.documents && a.mapped == b.mapped
    && a.seen == b.seen
  }

  function Key(seed: Seed, cfg: CrawlConfig): Url {
    Canonicalize(seed.requested, cfg.stripQuery)
  }

  // ----- Choosing the tasks of a new job -----

  datatype Choice = Chosen(tasks: seq<NewTask>) | Duplicate | LookupFailed

  // What the loop over the seeds comes to.
  function Choose(seeds: seq<Seed>, cfg: CrawlConfig, seen: set<Url>, lookups: set<nat>): Choice {
    if seeds == [] then Chosen([])
    else
      var n := |seeds| - 1;
      var before := Choose(seeds[..n], cfg, seen, lookups);
      var key := Key(seeds[n], cfg);
      if !before.Chosen? then before
      else if cfg.dedupeCache && n in lookups then LookupFailed
      else if cfg.dedupeCache && key in seen then if seeds[n].abortIfDuplicate then Duplicate else before
      else Chosen(before.tasks + [NewTask(seeds[n].requested, key, seeds[n].depth)])
  }

  // Once the loop has stopped it stays stopped.
  lemma {:induction false} ChooseStops(
      seeds: seq<Seed>, cfg: CrawlConfig, seen: set<Url>, lookups: set<nat>, i: nat)
    requires i <= |seeds| && !Choose(seeds[..i], cfg, seen, lookups).Chosen?
    ensures Choose(seeds, cfg, seen, lookups) == Choose(seeds[..i], cfg, seen, lookups)
    decreases |seeds|
  {
    if i < |seeds| {
      var n := |seeds| - 1;
      assert seeds[..n][..i] == seeds[..i];
      ChooseStops(seeds[..n], cfg, seen, lookups, i);
    } else {
      assert seeds[..i] == seeds;
    }
  }

  // Seed i is not the repeat of an earlier crawl.
  predicate Wanted(seeds: seq<Seed>, cfg: CrawlConfig, seen: set<Url>, i: nat) {
    i < |seeds| && !(cfg.dedupeCache && Key(seeds[i], cfg) in seen)
  }

  // The seeds that get a task: all but those that an earlier crawl has marked.
  function WantedSeeds(seeds: seq<Seed>, cfg: CrawlConfig, seen: set<Url>): set<nat> {
    set i: nat | i < |seeds| && Wanted(seeds, cfg, seen, i)
  }

  // Seed i has been marked by an earlier crawl, which aborts the request.
  predicate Aborts(seeds: seq<Seed>, cfg: CrawlConfig, seen: set<Url>, i: nat) {
    i < |seeds| && cfg.dedupeCache && Key(seeds[i], cfg) in seen && seeds[i].abortIfDuplicate
  }

  // The lookup of seed i fails.
  predicate Breaks(cfg: CrawlConfig, lookups: set<nat>, i: nat) {
    cfg.dedupeCache && i in lookups
  }

  // The loop passes seed i.
  ghost predicate Passed(seeds: seq<Seed>, cfg: CrawlConfig, seen: set<Url>, lookups: set<nat>, i: nat)
    requires i < |seeds|
  {
    cfg.dedupeCache ==> i !in lookups && (Key(seeds[i], cfg) in seen ==> !seeds[i].abortIfDuplicate)
  }

  ghost predicate AllPassed(seeds: seq<Seed>, cfg: CrawlConfig, seen: set<Url>, lookups: set<nat>) {
    forall i: nat :: i < |seeds| ==> Passed(seeds, cfg, seen, lookups, i)
  }

  lemma OneMorePassed(seeds: seq<Seed>, cfg: CrawlConfig, seen: set<Url>, lookups: set<nat>)
    requires seeds != []
    ensures AllPassed(seeds, cfg, seen, lookups) <==>
            && AllPassed(seeds[..|seeds| - 1], cfg, seen, lookups)
            && Passed(seeds, cfg, seen, lookups, |seeds| - 1)
  {
    var n := |seeds| - 1;
    forall i: nat | i < n
      ensures Passed(seeds[..n], cfg, seen, lookups, i) <==> Passed(seeds, cfg, seen, lookups, i)
    {
      assert seeds[..n][i] == seeds[i];
    }
  }

  lemma {:induction false} ChosenPasses(seeds: seq<Seed>, cfg: CrawlConfig, seen: set<Url>, lookups: set<nat>)
    ensures Choose(seeds, cfg, seen, lookups).Chosen? <==> AllPassed(seeds, cfg, seen, lookups)
    decreases |seeds|
  {
    if seeds == [] {
    } else {
      ChosenPasses(seeds[..|seeds| - 1], cfg, seen, lookups);
      OneMorePassed(seeds, cfg, seen, lookups);
    }
  }

  // When the loop runs through: no wanted lookup failed and no aborting seed was seen.
  lemma ChosenWhen(seeds: seq<Seed>, cfg: CrawlConfig, seen: set<Url>, lookups: set<nat>)
    ensures Choose(seeds, cfg, seen, lookups).Chosen? <==>
            forall i :: 0 <= i < |seeds| && cfg.dedupeCache ==>
              i !in lookups && (Key(seeds[i], cfg) in seen ==> !seeds[i].abortIfDuplicate)
  {
    ChosenPasses(seeds, cfg, seen, lookups);
    if AllPassed(seeds, cfg, seen, lookups) {
      assert forall i: nat :: i < |seeds| ==> Passed(seeds, cfg, seen, lookups, i);
    }
  }

  lemma {:induction false} ChosenCount(seeds: seq<Seed>, cfg: CrawlConfig, seen: set<Url>, lookups: set<nat>)
    requires Choose(seeds, cfg, seen, lookups).Chosen?
    ensures |Choose(seeds, cfg, seen, lookups).tasks| == |WantedSeeds(seeds, cfg, seen)|
    decreases |seeds|
  {
    var all := WantedSeeds(seeds, cfg, seen);
    if seeds == [] {
      assert all == {};
    } else {
      var n := |seeds| - 1;
      ChosenCount(seeds[..n], cfg, seen, lookups);
      var fewer := WantedSeeds(seeds[..n], cfg, seen);
      forall i: nat
        ensures i in all <==> i in fewer || (i == n && Wanted(seeds, cfg, seen, n))
      {
        assert i < n ==> seeds[..n][i] == seeds[i];
      }
      assert all == if Wanted(seeds, cfg, seen, n) then fewer + {n} else fewer;
    }
  }

  // Seed i aborts the request, and no lookup up to there fails.
  ghost predicate Stops(seeds: seq<Seed>, cfg: CrawlConfig, seen: set<Url>, lookups: set<nat>, i: nat) {
    Aborts(seeds, cfg, seen, i) && forall k: nat :: k <= i ==> !Breaks(cfg, lookups, k)
  }

  lemma {:induction false} DuplicateStops(seeds: seq<Seed>, cfg: CrawlConfig, seen: set<Url>, lookups: set<nat>)
    returns (i: nat)
    requires Choose(seeds, cfg, seen, lookups).Duplicate?
    ensures Stops(seeds, cfg, seen, lookups, i)
    decreases |seeds|
  {
    var n := |seeds| - 1;
    if Choose(seeds[..n], cfg, seen, lookups).Duplicate? {
      i := DuplicateStops(seeds[..n], cfg, seen, lookups);
      assert seeds[..n][i] == seeds[i];
    } else {
      i := n;
      ChosenPasses(seeds[..n], cfg, seen, lookups);
      forall k: nat | k <= n
        ensures !Breaks(cfg, lookups, k)
      {
        assert k < n ==> Passed(seeds[..n], cfg, seen, lookups, k);
      }
    }
  }

  lemma {:induction false} FailureBreaks(seeds: seq<Seed>, cfg: CrawlConfig, seen: set<Url>, lookups: set<nat>)
    returns (i: nat)
    requires Choose(seeds, cfg, seen, lookups).LookupFailed?
    ensures i < |seeds| && Breaks(cfg, lookups, i)
    ensures forall k: nat :: k < i ==> !Aborts(seeds, cfg, seen, k)
    decreases |seeds|
  {
    var n := |seeds| - 1;
    if Choose(seeds[..n], cfg, seen, lookups).LookupFailed? {
      i := FailureBreaks(seeds[..n], cfg, seen, lookups);
    } else {
      i := n;
      ChosenPasses(seeds[..n], cfg, seen, lookups);
      forall k: nat | k < n
        ensures !Aborts(seeds[..n], cfg, seen, k)
      {
        assert Passed(seeds[..n], cfg, seen, lookups, k);
      }
    }
    forall k: nat | k < i
      ensures !Aborts(seeds, cfg, seen, k)
    {
      assert seeds[..n][k] == seeds[k];
      assert Aborts(seeds[..n], cfg, seen, k) <==> Aborts(seeds, cfg, seen, k);
    }
  }

  // Where a duplicate stops the loop: at the first seed that aborts, when no lookup up to there fails.
  lemma DuplicateWhen(seeds: seq<Seed>, cfg: CrawlConfig, seen: set<Url>, lookups: set<nat>)
    ensures Choose(seeds, cfg, seen, lookups).Duplicate? <==> exists i: nat :: Stops(seeds, cfg, seen, lookups, i)
  {
    var choice := Choose(seeds, cfg, seen, lookups);
    if choice.Duplicate? {
      var i := DuplicateStops(seeds, cfg, seen, lookups);
    } else if choice.LookupFailed? {
      var i := FailureBreaks(seeds, cfg, seen, lookups);
    } else {
      ChosenWhen(seeds, cfg, seen, lookups);
    }
  }

  lemma CreatedWhen(seeds: seq<Seed>, cfg: CrawlConfig, seen: set<Url>, lookups: set<nat>)
    ensures
      var choice := Choose(seeds, cfg, seen, lookups);
      && (choice.Chosen? <==>
            forall i: nat :: i < |seeds| ==> !Breaks(cfg, lookups, i) && !Aborts(seeds, cfg, seen, i))
      && (choice.Chosen? ==> |choice.tasks| == |WantedSeeds(seeds, cfg, seen)|)
      && (choice.Duplicate? <==> exists i: nat :: Stops(seeds, cfg, seen, lookups, i))
  {
    ChosenWhen(seeds, cfg, seen, lookups);
    DuplicateWhen(seeds, cfg, seen, lookups);
    if Choose(seeds, cfg, seen, lookups).Chosen? {
      ChosenCount(seeds, cfg, seen, lookups);
    }
    assert forall i: nat :: i < |seeds| ==>
      (Breaks(cfg, lookups, i) || Aborts(seeds, cfg, seen, i) <==>
       cfg.dedupeCache && (i in lookups || (Key(seeds[i], cfg) in seen && seeds[i].abortIfDuplicate)));
  }

  // The loop over the seeds.
  method ChooseTasks(store: Store, seeds: seq<Seed>, cfg: CrawlConfig, lookups: set<nat>) returns (choice: Choice)
    ensures choice == Choose(seeds, cfg, store.seen, lookups)
  {
    var tasks: seq<NewTask> := [];
    for i := 0 to |seeds|
      invariant Choose(seeds[..i], cfg, store.seen, lookups) == Chosen(tasks)
    {
      assert seeds[..i + 1][..i] == seeds[..i];
      var final := Key(seeds[i], cfg);
      if cfg.dedupeCache {
        if i in lookups {
          ChooseStops(seeds, cfg, store.seen, lookups, i + 1);
          return LookupFailed;
        }
        var seen := store.HasSeenCanonical(final);
        if seen {
          if seeds[i].abortIfDuplicate {
            ChooseStops(seeds, cfg, store.seen, lookups, i + 1);
            return Duplicate;
          }
          continue;
        }
      }
      tasks := tasks + [NewTask(seeds[i].requested, final, seeds[i].depth)];
    }
    assert seeds[..|seeds|] == seeds;
    choice := Chosen(tasks);
  }

  // All or nothing: either the job and its tasks are committed, or every row is as before.
  method CreateJobWithSeeds(store: Store, job: Job, seeds: seq<Seed>, cfg: CrawlConfig, outage: Outage)
    returns (r: Created)
    modifies store
    ensures
      var rows := |WantedSeeds(seeds, cfg, old(store.seen))|;
      r.Committed? <==>
      && !outage.begin && !outage.job && !outage.commit && outage.row.GetOr(rows) >= rows
      && forall i: nat :: i < |seeds| ==>
           !Breaks(cfg, outage.lookups, i) && !Aborts(seeds, cfg, old(store.seen), i)
    ensures
      r == SeedAlreadyProcessed <==>
      !outage.begin && !outage.job && exists i: nat :: Stops(seeds, cfg, old(store.seen), outage.lookups, i)
    ensures !r.Committed? ==> SameRows(old(store.View()), store.View())
    ensures r.Committed? ==>
              && r.id == old(store.nextJob) && Choose(seeds, cfg, old(store.seen), outage.lookups).Chosen?
              && store.View() == InsertTasks(InsertJob(old(store.View()), job), r.id,
                                             Choose(seeds, cfg, old(store.seen), outage.lookups).tasks)
  {
    if outage.begin {
      return DatabaseError;
    }
    var begun := store.View();
    if outage.job {
      store.Rollback(begun);
      return DatabaseError;
    }
    var id := store.InsertJob(job);
    CreatedWhen(seeds, cfg, store.seen, outage.lookups);
    var choice := ChooseTasks(store, seeds, cfg, outage.lookups);
    if !choice.Chosen? {
      store.Rollback(begun);
      return if choice == Duplicate then SeedAlreadyProcessed else DatabaseError;
    }
    if |choice.tasks| > 0 {
      var ok := store.InsertTasks(id, choice.tasks, outage.row);
      if !ok {
        store.Rollback(begun);
        return DatabaseError;
      }
    }
    if outage.commit {
      store.Rollback(begun);
      return DatabaseError;
    }
    r := Committed(id);
  }

  // ----- What is chosen -----

  function AsTask(seed: Seed, cfg: CrawlConfig): NewTask {
    NewTask(seed.requested, Key(seed, cfg), seed.depth)
  }

  // No earlier seed has the key of seed i.
  predicate FirstSeed(seeds: seq<Seed>, cfg: CrawlConfig, i: nat) {
    i < |seeds| && forall l :: 0 <= l < i ==> Key(seeds[l], cfg) != Key(seeds[i], cfg)
  }

  // Every wanted seed is among the chosen tasks.
  lemma {:induction false} WantedAreChosen(
      seeds: seq<Seed>, cfg: CrawlConfig, seen: set<Url>, lookups: set<nat>, i: nat)
    requires Choose(seeds, cfg, seen, lookups).Chosen? && Wanted(seeds, cfg, seen, i)
    ensures AsTask(seeds[i], cfg) in Choose(seeds, cfg, seen, lookups).tasks
    decreases |seeds|
  {
    var n := |seeds| - 1;
    if i < n {
      WantedAreChosen(seeds[..n], cfg, seen, lookups, i);
    }
  }

  // Of the chosen tasks with some key, the first is that of the first seed with it.
  lemma {:induction false} FirstChosen(seeds: seq<Seed>, cfg: CrawlConfig, seen: set<Url>, lookups: set<nat>, k: nat)
    returns (i: nat)
    requires Choose(seeds, cfg, seen, lookups).Chosen? && IsFirst(Choose(seeds, cfg, seen, lookups).tasks, k)
    ensures Wanted(seeds, cfg, seen, i) && FirstSeed(seeds, cfg, i)
    ensures Choose(seeds, cfg, seen, lookups).tasks[k] == AsTask(seeds[i], cfg)
    decreases |seeds|
  {
    var n := |seeds| - 1;
    var before, tasks := Choose(seeds[..n], cfg, seen, lookups).tasks, Choose(seeds, cfg, seen, lookups).tasks;
    LastChosen(seeds, cfg, seen, lookups);
    if k < |before| {
      FirstBefore(before, tasks, k);
      i := FirstChosen(seeds[..n], cfg, seen, lookups, k);
      FirstOfFewer(seeds, cfg, seen, i);
    } else {
      i := n;
      LastIsFirst(seeds, cfg, seen, lookups, k);
    }
  }

  // The last seed adds its task if it is wanted.
  lemma LastChosen(seeds: seq<Seed>, cfg: CrawlConfig, seen: set<Url>, lookups: set<nat>)
    requires seeds != [] && Choose(seeds, cfg, seen, lookups).Chosen?
    ensures
      var n := |seeds| - 1;
      && Choose(seeds[..n], cfg, seen, lookups).Chosen?
      && Choose(seeds, cfg, seen, lookups).tasks == Choose(seeds[..n], cfg, seen, lookups).tasks
           + if Wanted(seeds, cfg, seen, n) then [AsTask(seeds[n], cfg)] else []
  {
  }

  lemma FirstBefore(before: seq<NewTask>, tasks: seq<NewTask>, k: nat)
    requires before <= tasks && k < |before| && IsFirst(tasks, k)
    ensures IsFirst(before, k) && before[k] == tasks[k]
  {
  }

  lemma FirstOfFewer(seeds: seq<Seed>, cfg: CrawlConfig, seen: set<Url>, i: nat)
    requires seeds != [] && Wanted(seeds[..|seeds| - 1], cfg, seen, i) && FirstSeed(seeds[..|seeds| - 1], cfg, i)
    ensures Wanted(seeds, cfg, seen, i) && FirstSeed(seeds, cfg, i)
  {
    var fewer := seeds[..|seeds| - 1];
    assert forall l :: 0 <= l < |fewer| ==> fewer[l] == seeds[l];
  }

  lemma LastIsFirst(seeds: seq<Seed>, cfg: CrawlConfig, seen: set<Url>, lookups: set<nat>, k: nat)
    requires seeds != [] && Choose(seeds, cfg, seen, lookups).Chosen?
    requires Choose(seeds[..|seeds| - 1], cfg, seen, lookups).Chosen? && Wanted(seeds, cfg, seen, |seeds| - 1)
    requires k == |Choose(seeds[..|seeds| - 1], cfg, seen, lookups).tasks|
    requires Choose(seeds, cfg, seen, lookups).tasks
          == Choose(seeds[..|seeds| - 1], cfg, seen, lookups).tasks + [AsTask(seeds[|seeds| - 1], cfg)]
    requires IsFirst(Choose(seeds, cfg, seen, lookups).tasks, k)
    ensures FirstSeed(seeds, cfg, |seeds| - 1)
  {
    var n := |seeds| - 1;
    var before, tasks := Choose(seeds[..n], cfg, seen, lookups).tasks, Choose(seeds, cfg, seen, lookups).tasks;
    assert forall l :: 0 <= l < |before| ==> before[l] == tasks[l];
    NoneWithKey(seeds[..n], cfg, seen, lookups, Key(seeds[n], cfg));
    assert forall l :: 0 <= l < n ==> seeds[l] == seeds[..n][l];
  }

  // A wanted key that no chosen task has belongs to no seed.
  lemma NoneWithKey(seeds: seq<Seed>, cfg: CrawlConfig, seen: set<Url>, lookups: set<nat>, key: Url)
    requires Choose(seeds, cfg, seen, lookups).Chosen? && !(cfg.dedupeCache && key in seen)
    requires forall t :: t in Choose(seeds, cfg, seen, lookups).tasks ==> t.final != key
    ensures forall l :: 0 <= l < |seeds| ==> Key(seeds[l], cfg) != key
  {
    forall l | 0 <= l < |seeds|
      ensures Key(seeds[l], cfg) != key
    {
      if Key(seeds[l], cfg) == key {
        WantedAreChosen(seeds, cfg, seen, lookups, l);
      }
    }
  }

  // ONE TASK PER SEED. A committed job has, for each key of a seed that no earlier crawl has marked,
  // exactly one row: queued, for the first seed with that key; and no other rows. Nothing else changes.
  lemma CommittedRows(t: Tables, job: Job, seeds: seq<Seed>, cfg: CrawlConfig, lookups: set<nat>)
    requires UniqueFinal(t) && (forall id :: id in t.tasks ==> id < t.nextTask)
    requires forall id :: id in t.tasks ==> t.tasks[id].job < t.nextJob
    requires Choose(seeds, cfg, t.seen, lookups).Chosen?
    ensures
      var t' := InsertTasks(InsertJob(t, job), t.nextJob, Choose(seeds, cfg, t.seen, lookups).tasks);
      && UniqueFinal(t')
      && (forall i: nat :: Wanted(seeds, cfg, t.seen, i) ==> Conflict(t', t.nextJob, Key(seeds[i], cfg)))
      && (forall id :: id in t'.tasks && t'.tasks[id].job == t.nextJob ==>
            exists i: nat :: Wanted(seeds, cfg, t.seen, i) && FirstSeed(seeds, cfg, i)
              && t'.tasks[id] == FreshTask(t.nextJob, AsTask(seeds[i], cfg)))
      && (forall id :: id in t.tasks ==> id in t'.tasks && t'.tasks[id] == t.tasks[id])
      && t'.jobs == t.jobs[t.nextJob := job]
  {
    var start := InsertJob(t, job);
    var tasks := Choose(seeds, cfg, t.seen, lookups).tasks;
    var t' := InsertTasks(start, t.nextJob, tasks);
    InsertTasksUnique(start, t.nextJob, tasks);
    InsertTasksAdds(start, t.nextJob, tasks);
    InsertTasksCovers(start, t.nextJob, tasks);
    forall i: nat | Wanted(seeds, cfg, t.seen, i)
      ensures Conflict(t', t.nextJob, Key(seeds[i], cfg))
    {
      WantedAreChosen(seeds, cfg, t.seen, lookups, i);
    }
    forall id | id in t'.tasks && t'.tasks[id].job == t.nextJob
      ensures exists i: nat :: Wanted(seeds, cfg, t.seen, i) && FirstSeed(seeds, cfg, i)
                && t'.tasks[id] == FreshTask(t.nextJob, AsTask(seeds[i], cfg))
    {
      InsertTasksFirst(start, t.nextJob, tasks, id);
      var k: nat :| IsFirst(tasks, k) && t'.tasks[id] == FreshTask(t.nextJob, tasks[k]);
      var i := FirstChosen(seeds, cfg, t.seen, lookups, k);
    }
  }

  // ----- As a step of the protocol -----

  function Requested(tasks: seq<NewTask>): (urls: seq<Url>)
    ensures |urls| == |tasks|
  {
    seq(|tasks|, i requires 0 <= i < |tasks| => tasks[i].requested)
  }

  lemma {:induction false} ChosenAreSeeds(seeds: seq<Seed>, cfg: Config, seen: set<Url>, lookups: set<nat>)
    requires Choose(seeds, cfg.crawl, seen, lookups).Chosen? && forall i :: 0 <= i < |seeds| ==> seeds[i].depth == 0
    ensures var tasks := Choose(seeds, cfg.crawl, seen, lookups).tasks; tasks == SeedTasks(Requested(tasks), cfg)
    decreases |seeds|
  {
    if seeds == [] {
    } else {
      ChosenAreSeeds(seeds[..|seeds| - 1], cfg, seen, lookups);
      var before := Choose(seeds[..|seeds| - 1], cfg.crawl, seen, lookups).tasks;
      assert forall i :: 0 <= i < |before| ==> before[i] == SeedTasks(Requested(before), cfg)[i];
    }
  }

  // The API's requests, as the routes hand them to createJobWithSeeds after validation.
  predicate FromRoute(cfg: Config, s: State, job: Job, seeds: seq<Seed>) {
    && job.status == JobQueued && job.createdAt == s.clock
    && (forall i :: 0 <= i < |seeds| ==> seeds[i].depth == 0)
    && (if job.kind == BatchScrape then job.maxDepth == 0 && !job.sameDomain
        else job.maxDepth >= 0 && seeds == [Seed(job.start, 0, cfg.crawl.dedupeCache)])
  }

  // A job that is committed is what the protocol's CreateJob step creates.
  lemma CommitIsStep(cfg: Config, s: State, job: Job, seeds: seq<Seed>, lookups: set<nat>)
    requires FromRoute(cfg, s, job, seeds) && Choose(seeds, cfg.crawl, s.tables.seen, lookups).Chosen?
    ensures
      var tasks := Choose(seeds, cfg.crawl, s.tables.seen, lookups).tasks;
      var step := CreateJob(job, Requested(tasks));
      && Enabled(cfg, s, step)
      && NextTables(cfg, s, step) == InsertTasks(InsertJob(s.tables, job), s.tables.nextJob, tasks)
  {
    var tasks := Choose(seeds, cfg.crawl, s.tables.seen, lookups).tasks;
    ChosenAreSeeds(seeds, cfg, s.tables.seen, lookups);
    if job.kind != BatchScrape {
      assert seeds[..0] == [];
      assert tasks == [AsTask(seeds[0], cfg.crawl)];
      assert Requested(tasks) == [job.start];
    }
  }

  // ----- Map links -----

  // enqueueMapLinks: links and child tasks are committed together or not at all.
  method EnqueueMapLinks(
      store: Store, j: JobId, source: Url, links: seq<Url>, depth: int, tasks: seq<NewTask>, outage: Outage)
    returns (ok: bool)
    modifies store
    ensures !ok ==> exists tasks: nat, mapped: nat :: store.View() == SkipIds(old(store.View()), tasks, 0, mapped)
    ensures ok ==>
              store.View() ==
              if links == [] then old(store.View())
              else InsertTasks(InsertMappedBatch(old(store.View()), MappedFor(j, source, links, depth)), j, tasks)
    ensures ok <==> links == [] || (!outage.begin && outage.link.GetOr(|links|) >= |links|
                                    && outage.row.GetOr(|tasks|) >= |tasks| && !outage.commit)
  {
    if links == [] {
      return true;
    }
    var begun := store.View();
    if outage.begin {
      assert store.View() == SkipIds(begun, 0, 0, 0);
      return false;
    }
    var inserts: seq<MappedUrl> := [];
    for i := 0 to |links|
      invariant inserts == MappedFor(j, source, links[..i], depth)
    {
      inserts := inserts + [MappedUrl(j, source, links[i], depth)];
    }
    assert links[..|links|] == links;
    ok := store.InsertMappedBatch(inserts, outage.link);
    ghost var linked := if ok then inserts else inserts[..outage.link.value];
    InsertMappedBatchDraws(begun, linked);
    if !ok {
      store.Rollback(begun);
      assert store.View() == SkipIds(begun, 0, 0, |linked|);
      return;
    }
    ghost var before := store.View();
    ghost var queued := tasks;
    if |tasks| > 0 {
      ok := store.InsertTasks(j, tasks, outage.row);
      queued := if ok then tasks else tasks[..outage.row.value];
      InsertTasksDraws(before, j, queued);
      if !ok {
        store.Rollback(begun);
        assert store.View() == SkipIds(begun, |queued|, 0, |linked|);
        return;
      }
    }
    if outage.commit {
      store.Rollback(begun);
      assert store.View() == SkipIds(begun, |queued|, 0, |linked|);
      return false;
    }
    ok := true;
  }
}
