// What the list queries find in the course of a run: the listings of a job that stays only grow, under
// larger ids. So the export's promises for growing views hold of every run of the protocol.
module Listings {
  import opened Wrappers
  import opened Tables
  import opened Protocol
  import opened Rows
  import opened Export

  // From t to t' the records of the jobs that stay stay as they are, and new ones have new ids.
  ghost predicate Kept<T>(t: map<Serial, T>, t': map<Serial, T>, stays: T -> bool, next: Serial) {
    && (forall id :: id in t && stays(t[id]) ==> id in t' && t'[id] == t[id])
    && (forall id :: id in t' ==> (id in t && t'[id] == t[id]) || next <= id)
  }

  ghost predicate RecordsFollow(t: Tables, t': Tables) {
    && t.nextDocument <= t'.nextDocument && t.nextMapped <= t'.nextMapped
    && Kept(t.documents, t'.documents, (d: Document) => d.job in t'.jobs, t.nextDocument)
    && Kept(t.mapped, t'.mapped, (m: MappedUrl) => m.job in t'.jobs, t.nextMapped)
  }

  lemma CommitKeepsRecords(t: Tables, w: Worker)
    requires FreshIds(t)
    ensures RecordsFollow(t, InsertTasks(InsertMappedBatch(t, MappedRows(w)), w.task.job, w.rest))
  {
    InsertMappedBatchAdds(t, MappedRows(w));
    InsertTasksDraws(InsertMappedBatch(t, MappedRows(w)), w.task.job, w.rest);
  }

  lemma StoreKeepsRecords(t: Tables, d: Document)
    requires FreshIds(t)
    ensures RecordsFollow(t, InsertDocument(t, d))
  {
  }

  lemma DeleteKeepsRecords(t: Tables, now: int)
    ensures RecordsFollow(t, DeleteExpired(t, now))
  {
  }

  // All other statements leave the records alone.
  ghost predicate SameRecords(t: Tables, t': Tables) {
    && t'.documents == t.documents && t'.mapped == t.mapped
    && t.nextDocument <= t'.nextDocument && t.nextMapped <= t'.nextMapped
  }

  lemma InsertsKeepRecords(cfg: Config, s: State, step: Step)
    requires Enabled(cfg, s, step) && (step.CreateJob? || step.InsertRow?)
    ensures SameRecords(s.tables, NextTables(cfg, s, step))
  {
    if step.CreateJob? {
      assert NextTables(cfg, s, step)
          == InsertTasks(InsertJob(s.tables, step.job), s.tables.nextJob, SeedTasks(step.seeds, cfg));
      InsertTasksDraws(InsertJob(s.tables, step.job), s.tables.nextJob, SeedTasks(step.seeds, cfg));
    } else {
      var w := s.workers[step.w];
      assert NextTables(cfg, s, step) == InsertTasks(s.tables, w.task.job, Head(w.rest));
      InsertTasksDraws(s.tables, w.task.job, Head(w.rest));
    }
  }

  // Statements of a worker on task rows.
  lemma RowsKeepRecords(cfg: Config, t: Tables, w: Worker, clock: int, step: Step)
    requires step.Beat? || step.Claim? || step.Redirect? || step.Complete? || step.Settle?
    ensures SameRecords(t, WorkerTables(cfg, t, w, clock, step))
  {
  }

  lemma WorkersKeepRecords(cfg: Config, t: Tables, w: Worker, clock: int, step: Step)
    requires !step.CommitMap? && !step.StoreDocument? && !step.InsertRow?
    ensures SameRecords(t, WorkerTables(cfg, t, w, clock, step))
  {
    if step.Beat? || step.Claim? || step.Redirect? || step.Complete? || step.Settle? {
      RowsKeepRecords(cfg, t, w, clock, step);
    }
  }

  lemma OthersKeepRecords(cfg: Config, s: State, step: Step)
    requires Enabled(cfg, s, step) && !step.CommitMap? && !step.StoreDocument? && !step.SweepDelete?
    requires !step.CreateJob? && !step.InsertRow?
    ensures SameRecords(s.tables, NextTables(cfg, s, step))
  {
    if ByWorker(step) {
      WorkersKeepRecords(cfg, s.tables, s.workers[step.w], s.clock, step);
      assert NextTables(cfg, s, step) == WorkerTables(cfg, s.tables, s.workers[step.w], s.clock, step);
    }
  }

  lemma StepKeepsRecords(cfg: Config, s: State, step: Step)
    requires FreshIds(s.tables) && Enabled(cfg, s, step)
    ensures RecordsFollow(s.tables, NextTables(cfg, s, step))
  {
    if step.CommitMap? {
      var w := s.workers[step.w];
      assert NextTables(cfg, s, step) == InsertTasks(InsertMappedBatch(s.tables, MappedRows(w)), w.task.job, w.rest);
      CommitKeepsRecords(s.tables, w);
    } else if step.StoreDocument? {
      var w := s.workers[step.w];
      assert NextTables(cfg, s, step)
          == InsertDocument(s.tables, Document(w.task.job, w.task.requested, step.url));
      StoreKeepsRecords(s.tables, Document(w.task.job, w.task.requested, step.url));
    } else if step.SweepDelete? {
      assert NextTables(cfg, s, step) == DeleteExpired(s.tables, s.clock);
      DeleteKeepsRecords(s.tables, s.clock);
    } else if step.CreateJob? || step.InsertRow? {
      InsertsKeepRecords(cfg, s, step);
    } else {
      OthersKeepRecords(cfg, s, step);
    }
  }

  function DocumentList(t: Tables, j: JobId, desc: bool): seq<Row<Document>> {
    Listing(JobDocuments(t, j), t.nextDocument, desc)
  }

  function MappedList(t: Tables, j: JobId, desc: bool): seq<Row<MappedUrl>> {
    Listing(JobMapped(t, j), t.nextMapped, desc)
  }

  // A listing has the job's documents, or its mapped rows, and nothing else, in id order.
  lemma ListedExactly(t: Tables, j: JobId, desc: bool)
    requires FreshIds(t)
    ensures Sorted(DocumentList(t, j, desc), desc) && Sorted(MappedList(t, j, desc), desc)
    ensures forall r :: r in DocumentList(t, j, desc) <==>
              r.id in t.documents && t.documents[r.id].job == j && r.value == t.documents[r.id]
    ensures forall r :: r in MappedList(t, j, desc) <==>
              r.id in t.mapped && t.mapped[r.id].job == j && r.value == t.mapped[r.id]
  {
    ListingExact(JobDocuments(t, j), t.nextDocument, desc);
    ListingExact(JobMapped(t, j), t.nextMapped, desc);
  }

  ghost predicate ListsGrow(t: Tables, t': Tables, j: JobId) {
    DocumentList(t, j, false) <= DocumentList(t', j, false) && MappedList(t, j, false) <= MappedList(t', j, false)
  }

  lemma RecordsGrow(t: Tables, t': Tables, j: JobId)
    requires FreshIds(t) && RecordsFollow(t, t') && j in t'.jobs
    ensures ListsGrow(t, t', j)
  {
    InOrderGrows(JobDocuments(t, j), t.nextDocument, JobDocuments(t', j), t'.nextDocument);
    InOrderGrows(JobMapped(t, j), t.nextMapped, JobMapped(t', j), t'.nextMapped);
  }

  // Ids are fresh and references sound in every state of every run, leases or not.
  lemma {:induction false} SoundHolds(cfg: Config, states: seq<State>, steps: seq<Step>, k: nat)
    requires Run(cfg, states, steps) && k <= |steps|
    ensures Sound(states[k].tables)
    decreases k
  {
    if k == 0 {
    } else {
      SoundHolds(cfg, states, steps, k - 1);
      StepFollows(cfg, states[k - 1], steps[k - 1]);
      assert states[k].tables == NextTables(cfg, states[k - 1], steps[k - 1]);
    }
  }

  // A job that is there at k and at l has been there in between, and its listings have only grown.
  lemma {:induction false} ListingsGrow(
      cfg: Config, states: seq<State>, steps: seq<Step>, k: nat, l: nat, j: JobId)
    requires Run(cfg, states, steps) && k <= l <= |steps|
    requires j in states[k].tables.jobs
    ensures j < states[l].tables.nextJob
    ensures j in states[l].tables.jobs ==> ListsGrow(states[k].tables, states[l].tables, j)
    decreases l
  {
    if k == l {
      SoundHolds(cfg, states, steps, k);
    } else {
      var s := states[l - 1];
      ListingsGrow(cfg, states, steps, k, l - 1, j);
      SoundHolds(cfg, states, steps, l - 1);
      StepFollows(cfg, s, steps[l - 1]);
      StepKeepsRecords(cfg, s, steps[l - 1]);
      assert states[l].tables == NextTables(cfg, s, steps[l - 1]);
      if j in states[l].tables.jobs {
        RecordsGrow(s.tables, states[l].tables, j);
      }
    }
  }

  // The listings that queries at the given moments of a run find.
  function DocumentViews(states: seq<State>, at: seq<nat>, j: JobId, desc: bool): (views: seq<seq<Row<Document>>>)
    requires forall m :: 0 <= m < |at| ==> at[m] < |states|
    ensures |views| == |at| && forall m :: 0 <= m < |at| ==> views[m] == DocumentList(states[at[m]].tables, j, desc)
  {
    seq(|at|, m requires 0 <= m < |at| => DocumentList(states[at[m]].tables, j, desc))
  }

  function MappedViews(states: seq<State>, at: seq<nat>, j: JobId, desc: bool): (views: seq<seq<Row<MappedUrl>>>)
    requires forall m :: 0 <= m < |at| ==> at[m] < |states|
    ensures |views| == |at| && forall m :: 0 <= m < |at| ==> views[m] == MappedList(states[at[m]].tables, j, desc)
  {
    seq(|at|, m requires 0 <= m < |at| => MappedList(states[at[m]].tables, j, desc))
  }

  lemma ReversedEnds<T>(list: seq<Row<T>>, longer: seq<Row<T>>)
    requires list <= longer
    ensures EndsIn(Reversed(longer), Reversed(list))
  {
  }

  // The moments of the queries of one export, at which the job exists.
  ghost predicate Moments(states: seq<State>, at: seq<nat>, j: JobId) {
    && at != [] && (forall m :: 0 <= m < |at| ==> at[m] < |states| && j in states[at[m]].tables.jobs)
    && (forall m, n :: 0 <= m <= n < |at| ==> at[m] <= at[n])
  }

  // EXPORTS OF A RUN. Whatever happens between the queries of an export, as long as the job is not deleted
  // its ascending listings grow at their end and its descending ones in front.
  lemma ViewsGrow(cfg: Config, states: seq<State>, steps: seq<Step>, at: seq<nat>, j: JobId, desc: bool)
    requires Run(cfg, states, steps) && Moments(states, at, j)
    ensures AreViews(DocumentViews(states, at, j, desc), desc) && AreViews(MappedViews(states, at, j, desc), desc)
    ensures !desc ==> Grows(DocumentViews(states, at, j, desc)) && Grows(MappedViews(states, at, j, desc))
    ensures desc ==>
              GrowsInFront(DocumentViews(states, at, j, desc)) && GrowsInFront(MappedViews(states, at, j, desc))
  {
    forall m | 0 <= m < |at|
      ensures Sorted(DocumentList(states[at[m]].tables, j, desc), desc)
      ensures Sorted(MappedList(states[at[m]].tables, j, desc), desc)
    {
      SoundHolds(cfg, states, steps, at[m]);
      ListedExactly(states[at[m]].tables, j, desc);
    }
    forall m, n | 0 <= m <= n < |at|
      ensures ListsGrow(states[at[m]].tables, states[at[n]].tables, j)
    {
      ListingsGrow(cfg, states, steps, at[m], at[n], j);
    }
    if desc {
      forall m | 0 <= m < |at|
        ensures EndsIn(DocumentList(states[at[m]].tables, j, true), DocumentList(states[at[0]].tables, j, true))
        ensures EndsIn(MappedList(states[at[m]].tables, j, true), MappedList(states[at[0]].tables, j, true))
      {
        assert ListsGrow(states[at[0]].tables, states[at[m]].tables, j);
        ReversedEnds(DocumentList(states[at[0]].tables, j, false), DocumentList(states[at[m]].tables, j, false));
        ReversedEnds(MappedList(states[at[0]].tables, j, false), MappedList(states[at[m]].tables, j, false));
      }
    }
  }
}
