// The dedupe cache over whole runs: a lookup finds a URL exactly when a URL of the same canonical
// form was marked.
module Dedupe {
  import opened Urls
  import opened Tables
  import opened Frontier
  import opened Protocol
  import opened Rows
  import opened Lease

  lemma InsertsKeepSeen(cfg: Config, s: State, step: Step)
    requires Sound(s.tables) && Enabled(cfg, s, step)
    requires step.CreateJob? || step.InsertRow? || step.CommitMap?
    ensures NextTables(cfg, s, step).seen == s.tables.seen
  {
    if step.CreateJob? {
      InsertTasksAdds(InsertJob(s.tables, step.job), s.tables.nextJob, SeedTasks(step.seeds, cfg));
    } else if step.InsertRow? {
      var w := s.workers[step.w];
      assert NextTables(cfg, s, step) == InsertTasks(s.tables, w.task.job, Head(w.rest));
      InsertTasksAdds(s.tables, w.task.job, Head(w.rest));
    } else {
      var w := s.workers[step.w];
      var mapped := InsertMappedBatch(s.tables, MappedRows(w));
      assert NextTables(cfg, s, step) == InsertTasks(mapped, w.task.job, w.rest);
      InsertMappedBatchAdds(s.tables, MappedRows(w));
      InsertTasksAdds(mapped, w.task.job, w.rest);
    }
  }

  // Only MarkCanonical adds to the cache, and nothing takes away.
  lemma SeenMoves(cfg: Config, s: State, step: Step)
    requires Sound(s.tables) && Enabled(cfg, s, step)
    ensures NextTables(cfg, s, step).seen ==
            s.tables.seen + if step.MarkSeen? then {Canonicalize(step.url, cfg.crawl.stripQuery)} else {}
  {
    if step.CreateJob? || step.InsertRow? || step.CommitMap? {
      InsertsKeepSeen(cfg, s, step);
    } else {
      assert step.MarkSeen? || NextTables(cfg, s, step).seen == s.tables.seen;
    }
  }

  // Step k of the run marked a URL with v's canonical form.
  predicate Marks(cfg: Config, steps: seq<Step>, k: nat, v: Url) {
    k < |steps| && steps[k].MarkSeen?
    && Canonicalize(steps[k].url, cfg.crawl.stripQuery) == Canonicalize(v, cfg.crawl.stripQuery)
  }

  // LOOKUPS. In every run HasSeenCanonical, asked about the canonical form of v, answers yes exactly
  // when some URL with that canonical form has been marked, although finalised URLs are marked after
  // being canonicalised twice; and all that is in the cache is canonical.
  lemma {:induction false} LookupHits(cfg: Config, states: seq<State>, steps: seq<Step>, v: Url)
    requires 0 <= cfg.interval <= cfg.lease && Run(cfg, states, steps)
    ensures var seen := states[|steps|].tables.seen;
            && (Canonicalize(v, cfg.crawl.stripQuery) in seen <==> exists k: nat :: Marks(cfg, steps, k, v))
            && (forall u :: u in seen ==> Canonicalize(u, cfg.crawl.stripQuery) == u)
    decreases |steps|
  {
    if steps == [] {
    } else {
      var n := |steps| - 1;
      Prefix(cfg, states, steps);
      LookupHits(cfg, states[..|steps|], steps[..n], v);
      LeaseExclusivity(cfg, states[..|steps|], steps[..n]);
      assert states[..|steps|][n] == states[n];
      SeenMoves(cfg, states[n], steps[n]);
      if steps[n].MarkSeen? {
        CanonicalizeIdempotent(steps[n].url, cfg.crawl.stripQuery);
      }
      HitsMove(cfg, steps, steps[..n], v);
    }
  }

  lemma HitsMove(cfg: Config, steps: seq<Step>, before: seq<Step>, v: Url)
    requires steps != [] && before == steps[..|steps| - 1]
    ensures (exists k: nat :: Marks(cfg, steps, k, v)) <==>
            Marks(cfg, steps, |before|, v) || exists k: nat :: Marks(cfg, before, k, v)
  {
    if k: nat :| Marks(cfg, steps, k, v) && k < |before| {
      assert Marks(cfg, before, k, v);
    }
    if k: nat :| Marks(cfg, before, k, v) {
      assert Marks(cfg, steps, k, v);
    }
  }
}
