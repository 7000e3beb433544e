// What a task leaves behind: documents of its attempts, and for a map task its one transaction.
module Effects {
  import opened Wrappers
  import opened Urls
  import opened Tables
  import opened Protocol
  import opened Rows
  import opened Lease
  import opened Site
  import opened BreadthFirst

  predicate PastStore(w: Worker) {
    w.pc == Stored || w.pc == Planned || w.pc == Succeeded
  }

  // The attempt in progress has committed its map transaction: it found links, and nothing is left of it
  // that can fail.
  predicate Committed(w: Worker) {
    w.pc == Succeeded && w.job.kind == Map && w.links != []
  }

  // The attempt in progress on a row: at most one document beyond the failed attempts, exactly one once
  // past the store; the map transaction exactly when it has been committed in this attempt.
  predicate AttemptEffects(w: Worker, documents: nat, commits: nat) {
    && documents <= w.task.attempts + Bit(w.stored)
    && (w.pc == Claimed || w.pc == JobRead || w.pc == Fetching ==> !w.stored && w.links == [])
    && (w.pc == Planned && w.job.kind == Map ==> w.links != [])
    && commits == Bit(Committed(w))
    && (PastStore(w) && w.job.kind != Map ==> documents >= 1)
  }

  // A row with no attempt in progress.
  predicate RestingEffects(row: Task, kind: JobKind, documents: nat, commits: nat) {
    && (Pending(row) || row.status == Failed ==> documents <= row.attempts && commits == 0)
    && (row.status == Done ==> documents <= row.attempts + 1 && (kind != Map ==> documents >= 1 && commits == 0))
  }

  ghost predicate Rests(t: Tables, id: TaskId, documents: nat, commits: nat) {
    id in t.tasks && t.tasks[id].job in t.jobs ==>
      RestingEffects(t.tasks[id], t.jobs[t.tasks[id].job].kind, documents, commits)
  }

  ghost predicate RowEffects(s: State, id: TaskId) {
    && Tally(s.commits, id) <= 1
    && (Held(s.workers, id) || Rests(s.tables, id, Tally(s.documents, id), Tally(s.commits, id)))
  }

  ghost predicate WorkerEffects(s: State, w: Worker) {
    Holding(w) && w.id in s.tables.tasks ==>
      AttemptEffects(w, Tally(s.documents, w.id), Tally(s.commits, w.id))
  }

  ghost predicate EffectsInv(s: State) {
    && (forall id :: id in s.documents || id in s.commits ==> id < s.tables.nextTask)
    && (forall id :: id in s.tables.tasks ==> RowEffects(s, id))
    && (forall i :: 0 <= i < |s.workers| ==> WorkerEffects(s, s.workers[i]))
  }

  // Only the worker on a row adds to its tallies, and one at a time.
  lemma TalliesMove(cfg: Config, s: State, step: Step, id: TaskId)
    requires Enabled(cfg, s, step)
    ensures
      var s' := Apply(cfg, s, step);
      && Tally(s'.documents, id) == Tally(s.documents, id)
           + Bit(step.StoreDocument? && s.workers[step.w].id == id)
      && Tally(s'.commits, id) == Tally(s.commits, id) + Bit(step.CommitMap? && s.workers[step.w].id == id)
  {
  }

  // The worker that steps, while it holds its row.
  lemma AttemptMoves(cfg: Config, s: State, w: Worker, step: Step, documents: nat, commits: nat)
    requires Guard(cfg, s, w, step) && ByWorker(step) && !step.Claim?
    requires Holding(w) && AttemptEffects(w, documents, commits)
    ensures
      var w' := NextWorker(cfg, s, w, step);
      Holding(w') ==> AttemptEffects(w', documents + Bit(step.StoreDocument?), commits + Bit(step.CommitMap?))
  {
  }

  // A claim starts from a row at rest.
  lemma ClaimEffects(cfg: Config, s: State, step: Step)
    requires cfg.interval <= cfg.lease
    requires LeaseInv(cfg, s) && EffectsInv(s) && Enabled(cfg, s, step) && step.Claim?
    ensures WorkerEffects(Apply(cfg, s, step), NextWorker(cfg, s, s.workers[step.w], step))
  {
    var row := s.tables.tasks[step.id];
    assert !Held(s.workers, step.id) by {
      forall k | 0 <= k < |s.workers| && Holding(s.workers[k])
        ensures s.workers[k].id != step.id
      {
        TouchedIsFree(cfg, s, step, k);
      }
    }
    assert RowEffects(s, step.id);
    TalliesMove(cfg, s, step, step.id);
    assert NextWorker(cfg, s, s.workers[step.w], step).task
        == row.(status := Processing, heartbeatAt := Some(s.clock));
  }

  lemma MoverEffects(cfg: Config, s: State, step: Step)
    requires LeaseInv(cfg, s) && EffectsInv(s) && Enabled(cfg, s, step) && ByWorker(step) && !step.Claim?
    ensures WorkerEffects(Apply(cfg, s, step), NextWorker(cfg, s, s.workers[step.w], step))
  {
    var w := s.workers[step.w];
    var w' := NextWorker(cfg, s, w, step);
    MoverClaim(cfg, s, step);
    StepFollows(cfg, s, step);
    TalliesMove(cfg, s, step, w.id);
    if Holding(w') && w.id in NextTables(cfg, s, step).tasks {
      assert WorkerSound(cfg, s.tables, s.clock, w) && WorkerEffects(s, w);
      assert w.id in s.tables.tasks;
      AttemptMoves(cfg, s, w, step, Tally(s.documents, w.id), Tally(s.commits, w.id));
    }
  }

  // The tallies of a held row are moved by its holder only.
  lemma OtherTallies(cfg: Config, s: State, step: Step, k: nat)
    requires Exclusive(s.workers) && Enabled(cfg, s, step)
    requires k < |s.workers| && !(ByWorker(step) && step.w == k) && Holding(s.workers[k])
    ensures
      var s', id := Apply(cfg, s, step), s.workers[k].id;
      Tally(s'.documents, id) == Tally(s.documents, id) && Tally(s'.commits, id) == Tally(s.commits, id)
  {
  }

  // A step brings back no row of a former claim.
  lemma RowWasThere(cfg: Config, s: State, step: Step, id: TaskId)
    requires Sound(s.tables) && Enabled(cfg, s, step) && id < s.tables.nextTask
    requires id in NextTables(cfg, s, step).tasks
    ensures id in s.tables.tasks
  {
    StepFollows(cfg, s, step);
  }

  lemma OtherEffects(cfg: Config, s: State, step: Step, k: nat)
    requires LeaseInv(cfg, s) && EffectsInv(s) && Enabled(cfg, s, step)
    requires k < |s.workers| && !(ByWorker(step) && step.w == k)
    ensures WorkerEffects(Apply(cfg, s, step), s.workers[k])
  {
    var w := s.workers[k];
    assert WorkerSound(cfg, s.tables, s.clock, w) && WorkerEffects(s, w);
    if Holding(w) && w.id in Apply(cfg, s, step).tables.tasks {
      OtherTallies(cfg, s, step, k);
      RowWasThere(cfg, s, step, w.id);
    }
  }

  lemma WorkersKeepEffects(cfg: Config, s: State, step: Step, k: nat)
    requires cfg.interval <= cfg.lease
    requires LeaseInv(cfg, s) && EffectsInv(s) && Enabled(cfg, s, step) && k < |s.workers|
    ensures WorkerEffects(Apply(cfg, s, step), NextWorkers(cfg, s, step)[k])
  {
    if ByWorker(step) && step.w == k {
      assert NextWorkers(cfg, s, step)[k] == NextWorker(cfg, s, s.workers[k], step);
      if step.Claim? { ClaimEffects(cfg, s, step); } else { MoverEffects(cfg, s, step); }
    } else {
      assert NextWorkers(cfg, s, step)[k] == s.workers[k];
      OtherEffects(cfg, s, step, k);
    }
  }

  // The statement that finalises a row leaves it at rest.
  lemma FinalisedRests(t: Tables, w: Worker, documents: nat, commits: nat)
    requires w.id in t.tasks && Leased(t.tasks[w.id], w) && AttemptEffects(w, documents, commits)
    requires JobKnown(t, w)
    ensures w.pc == Succeeded ==> Rests(CompleteTask(t, w.id), w.id, documents, commits)
    ensures w.pc == Erred ==>
              Rests(RetryTask(t, w.id), w.id, documents, commits) && Rests(FailTask(t, w.id), w.id, documents, commits)
  {
  }

  lemma HolderKnown(cfg: Config, s: State, i: nat)
    requires LeaseInv(cfg, s) && SiteInv(cfg, s) && EffectsInv(s)
    requires i < |s.workers| && Holding(s.workers[i]) && s.workers[i].id in s.tables.tasks
    ensures
      var w := s.workers[i];
      && Leased(s.tables.tasks[w.id], w) && JobKnown(s.tables, w)
      && AttemptEffects(w, Tally(s.documents, w.id), Tally(s.commits, w.id))
  {
    assert WorkerSound(cfg, s.tables, s.clock, s.workers[i]);
    assert WorkerEffects(s, s.workers[i]);
    assert WorkerAllowed(cfg, s.tables, s.workers[i]);
  }

  lemma FinalisedEffects(cfg: Config, s: State, step: Step, id: TaskId)
    requires LeaseInv(cfg, s) && SiteInv(cfg, s) && EffectsInv(s) && Enabled(cfg, s, step)
    requires !step.Claim? && id in Touched(s, step) && id in s.tables.tasks
    ensures Rests(NextTables(cfg, s, step), id, Tally(s.documents, id), Tally(s.commits, id))
  {
    TouchedTables(cfg, s, step, id);
    HolderKnown(cfg, s, step.w);
    FinalisedRests(s.tables, s.workers[step.w], Tally(s.documents, id), Tally(s.commits, id));
  }

  // A row nobody works on stays at rest.
  lemma UntouchedRests(cfg: Config, s: State, step: Step, id: TaskId, documents: nat, commits: nat)
    requires LeaseInv(cfg, s) && Enabled(cfg, s, step) && id in s.tables.tasks && id !in Touched(s, step)
    requires Rests(s.tables, id, documents, commits)
    ensures Rests(NextTables(cfg, s, step), id, documents, commits)
  {
    var t := NextTables(cfg, s, step);
    StepFollows(cfg, s, step);
    if id in t.tasks && t.tasks[id].job in t.jobs {
      JobMoves(cfg, s, step, t.tasks[id].job);
    }
  }

  lemma ClaimHolds(cfg: Config, s: State, step: Step)
    requires Enabled(cfg, s, step) && step.Claim?
    ensures Held(NextWorkers(cfg, s, step), step.id)
  {
    assert NextWorkers(cfg, s, step)[step.w].id == step.id;
  }

  lemma OldRowKeeps(cfg: Config, s: State, step: Step, id: TaskId)
    requires LeaseInv(cfg, s) && SiteInv(cfg, s) && EffectsInv(s) && Enabled(cfg, s, step) && !Fault(step)
    requires id in s.tables.tasks && !Held(NextWorkers(cfg, s, step), id)
    ensures Rests(NextTables(cfg, s, step), id, Tally(s.documents, id), Tally(s.commits, id))
  {
    assert RowEffects(s, id);
    if step.Claim? {
      ClaimHolds(cfg, s, step);
    }
    if id in Touched(s, step) {
      FinalisedEffects(cfg, s, step, id);
    } else {
      UntouchedWasFree(cfg, s, step, id);
      UntouchedRests(cfg, s, step, id, Tally(s.documents, id), Tally(s.commits, id));
    }
  }

  lemma UntouchedWasFree(cfg: Config, s: State, step: Step, id: TaskId)
    requires Enabled(cfg, s, step) && !Fault(step) && id !in Touched(s, step)
    requires !Held(NextWorkers(cfg, s, step), id)
    ensures !Held(s.workers, id)
  {
    if Held(s.workers, id) {
      HoldContinues(cfg, s, step, id);
    }
  }

  // The tallies of a row at rest stand still, and its transaction was committed at most once.
  lemma RowKeepsEffects(cfg: Config, s: State, step: Step, id: TaskId)
    requires LeaseInv(cfg, s) && SiteInv(cfg, s) && EffectsInv(s) && Enabled(cfg, s, step) && !Fault(step)
    requires id in NextTables(cfg, s, step).tasks
    ensures RowEffects(Apply(cfg, s, step), id)
  {
    if id !in s.tables.tasks {
      NewRowEffects(cfg, s, step, id);
    } else if (step.StoreDocument? || step.CommitMap?) && s.workers[step.w].id == id {
      TallyEffects(cfg, s, step, id);
    } else {
      OldRowEffects(cfg, s, step, id);
    }
  }

  lemma NewRowEffects(cfg: Config, s: State, step: Step, id: TaskId)
    requires LeaseInv(cfg, s) && EffectsInv(s) && Enabled(cfg, s, step)
    requires id in NextTables(cfg, s, step).tasks && id !in s.tables.tasks
    ensures RowEffects(Apply(cfg, s, step), id)
  {
    TalliesMove(cfg, s, step, id);
    NewRowRests(cfg, s, step, id);
  }

  lemma TallyEffects(cfg: Config, s: State, step: Step, id: TaskId)
    requires LeaseInv(cfg, s) && EffectsInv(s) && Enabled(cfg, s, step) && id in s.tables.tasks
    requires (step.StoreDocument? || step.CommitMap?) && s.workers[step.w].id == id
    ensures RowEffects(Apply(cfg, s, step), id)
  {
    TalliesMove(cfg, s, step, id);
    TallyHolder(cfg, s, step, id);
  }

  lemma OldRowEffects(cfg: Config, s: State, step: Step, id: TaskId)
    requires LeaseInv(cfg, s) && SiteInv(cfg, s) && EffectsInv(s) && Enabled(cfg, s, step) && !Fault(step)
    requires id in s.tables.tasks && id in NextTables(cfg, s, step).tasks
    requires !((step.StoreDocument? || step.CommitMap?) && s.workers[step.w].id == id)
    ensures RowEffects(Apply(cfg, s, step), id)
  {
    var documents, commits := Tally(s.documents, id), Tally(s.commits, id);
    assert RowEffects(s, id);
    if !Held(NextWorkers(cfg, s, step), id) {
      OldRowKeeps(cfg, s, step, id);
    }
    TalliesStand(cfg, s, step, id, documents, commits);
  }

  lemma TalliesStand(cfg: Config, s: State, step: Step, id: TaskId, documents: nat, commits: nat)
    requires Enabled(cfg, s, step) && Tally(s.documents, id) == documents && Tally(s.commits, id) == commits <= 1
    requires !((step.StoreDocument? || step.CommitMap?) && s.workers[step.w].id == id)
    requires Held(NextWorkers(cfg, s, step), id) || Rests(NextTables(cfg, s, step), id, documents, commits)
    ensures RowEffects(Apply(cfg, s, step), id)
  {
    TalliesMove(cfg, s, step, id);
  }

  lemma NewRowRests(cfg: Config, s: State, step: Step, id: TaskId)
    requires LeaseInv(cfg, s) && EffectsInv(s) && Enabled(cfg, s, step)
    requires id in NextTables(cfg, s, step).tasks && id !in s.tables.tasks
    ensures Tally(s.documents, id) == 0 && Tally(s.commits, id) == 0 && Rests(NextTables(cfg, s, step), id, 0, 0)
    ensures (step.StoreDocument? || step.CommitMap?) ==> s.workers[step.w].id != id
  {
    StepFollows(cfg, s, step);
    assert id !in s.documents && id !in s.commits;
    BusyBelow(cfg, s, step, id);
  }

  // A worker that stores or commits holds its row before and after, and had not committed yet.
  lemma TallyHolder(cfg: Config, s: State, step: Step, id: TaskId)
    requires LeaseInv(cfg, s) && EffectsInv(s) && Enabled(cfg, s, step) && id in s.tables.tasks
    requires (step.StoreDocument? || step.CommitMap?) && s.workers[step.w].id == id
    ensures Held(NextWorkers(cfg, s, step), id)
    ensures Tally(s.commits, id) == 0
  {
    var w := s.workers[step.w];
    assert WorkerEffects(s, w);
    StillHeld(cfg, s, w, step);
    assert NextWorkers(cfg, s, step)[step.w] == NextWorker(cfg, s, w, step);
  }

  lemma StillHeld(cfg: Config, s: State, w: Worker, step: Step)
    requires Guard(cfg, s, w, step) && (step.StoreDocument? || step.CommitMap?)
    ensures Holding(w) && Holding(NextWorker(cfg, s, w, step)) && NextWorker(cfg, s, w, step).id == w.id
  {
  }

  lemma BusyBelow(cfg: Config, s: State, step: Step, id: TaskId)
    requires LeaseInv(cfg, s) && Enabled(cfg, s, step) && id >= s.tables.nextTask
    ensures (step.StoreDocument? || step.CommitMap?) ==> s.workers[step.w].id != id
  {
  }

  lemma TalliesKnown(cfg: Config, s: State, step: Step)
    requires LeaseInv(cfg, s) && EffectsInv(s) && Enabled(cfg, s, step)
    ensures forall id :: id in Apply(cfg, s, step).documents || id in Apply(cfg, s, step).commits ==>
              id < NextTables(cfg, s, step).nextTask
  {
    StepFollows(cfg, s, step);
    if step.StoreDocument? || step.CommitMap? {
      assert WorkerSound(cfg, s.tables, s.clock, s.workers[step.w]);
    }
  }

  lemma StepKeepsEffects(cfg: Config, s: State, step: Step)
    requires cfg.interval <= cfg.lease
    requires LeaseInv(cfg, s) && SiteInv(cfg, s) && EffectsInv(s) && Enabled(cfg, s, step) && !Fault(step)
    ensures EffectsInv(Apply(cfg, s, step))
  {
    TalliesKnown(cfg, s, step);
    forall id | id in NextTables(cfg, s, step).tasks
      ensures RowEffects(Apply(cfg, s, step), id)
    {
      RowKeepsEffects(cfg, s, step, id);
    }
    forall k: nat | k < |NextWorkers(cfg, s, step)|
      ensures WorkerEffects(Apply(cfg, s, step), NextWorkers(cfg, s, step)[k])
    {
      WorkersKeepEffects(cfg, s, step, k);
    }
  }

  lemma {:induction false} EffectsKept(cfg: Config, states: seq<State>, steps: seq<Step>)
    requires 0 <= cfg.interval <= cfg.lease
    requires Run(cfg, states, steps) && Faultless(steps)
    ensures EffectsInv(states[|steps|])
    decreases |steps|
  {
    if steps == [] {
    } else {
      var n := |steps| - 1;
      Prefix(cfg, states, steps);
      EffectsKept(cfg, states[..|steps|], steps[..n]);
      LeaseExclusivity(cfg, states[..|steps|], steps[..n]);
      SiteInvHolds(cfg, states[..|steps|], steps[..n]);
      StepKeepsEffects(cfg, states[n], steps[n]);
    }
  }

  lemma NotProcessingNotHeld(cfg: Config, s: State, id: TaskId)
    requires LeaseInv(cfg, s) && id in s.tables.tasks && s.tables.tasks[id].status != Processing
    ensures !Held(s.workers, id)
  {
  }

  // What the invariant says of a row that nobody works on.
  lemma RestingRow(cfg: Config, s: State, id: TaskId)
    requires LeaseInv(cfg, s) && EffectsInv(s) && id in s.tables.tasks && s.tables.tasks[id].status != Processing
    ensures
      var row := s.tables.tasks[id];
      row.job in s.tables.jobs
      && RestingEffects(row, s.tables.jobs[row.job].kind, Tally(s.documents, id), Tally(s.commits, id))
  {
    assert RowEffects(s, id);
    NotProcessingNotHeld(cfg, s, id);
  }

  // EFFECTS PER TASK. Without faults: a done batch or crawl task has stored between 1 and attempts + 1
  // documents and a failed one at most one per attempt; a map transaction is committed at most once over
  // all attempts of a task, and only in the attempt that completes the task: exactly once when that
  // attempt found links, and never otherwise.
  lemma EffectsHold(cfg: Config, states: seq<State>, steps: seq<Step>)
    requires 0 <= cfg.interval <= cfg.lease
    requires Run(cfg, states, steps) && Faultless(steps)
    ensures
      var s := states[|steps|];
      forall id :: id in s.tables.tasks ==>
        var row := s.tables.tasks[id];
        && row.job in s.tables.jobs
        && Tally(s.commits, id) <= 1
        && (row.status == Done ==>
              Tally(s.documents, id) <= row.attempts + 1
              && (s.tables.jobs[row.job].kind != Map ==> Tally(s.documents, id) >= 1))
        && (row.status == Failed ==> Tally(s.documents, id) <= row.attempts && Tally(s.commits, id) == 0)
        && (row.status == Queued ==> Tally(s.commits, id) == 0)
    ensures
      var s := states[|steps|];
      forall i :: 0 <= i < |s.workers| && s.workers[i].pc == Succeeded && s.workers[i].job.kind == Map
                  && s.workers[i].id in s.tables.tasks ==>
        Tally(s.commits, s.workers[i].id) == Bit(s.workers[i].links != [])
  {
    var s := states[|steps|];
    LeaseExclusivity(cfg, states, steps);
    EffectsKept(cfg, states, steps);
    forall id | id in s.tables.tasks && s.tables.tasks[id].status != Processing
      ensures RestingEffects(s.tables.tasks[id], s.tables.jobs[s.tables.tasks[id].job].kind,
                             Tally(s.documents, id), Tally(s.commits, id))
    {
      RestingRow(cfg, s, id);
    }
    assert forall id :: id in s.tables.tasks ==> RowEffects(s, id);
    assert forall i :: 0 <= i < |s.workers| ==> WorkerEffects(s, s.workers[i]);
  }

  // What the map transaction leaves: one mapped row more for each link, in order, and a row of the job
  // with the URL of each planned task.
  ghost predicate MapsTogether(t: Tables, t': Tables, w: Worker) {
    && t'.nextMapped == t.nextMapped + |w.links|
    && (forall id: Serial :: id in t'.mapped <==> id in t.mapped || t.nextMapped <= id < t'.nextMapped)
    && (forall id: Serial :: t.nextMapped <= id < t'.nextMapped ==>
          t'.mapped[id] == MappedUrl(w.task.job, w.task.requested, w.links[id - t.nextMapped], w.task.depth + 1))
    && (forall k :: 0 <= k < |w.rest| ==> Conflict(t', w.task.job, w.rest[k].final))
  }

  lemma TransactionMaps(t: Tables, w: Worker)
    requires FreshIds(t)
    ensures MapsTogether(t, InsertTasks(InsertMappedBatch(t, MappedRows(w)), w.task.job, w.rest), w)
  {
    InsertMappedBatchAdds(t, MappedRows(w));
    InsertTasksAdds(InsertMappedBatch(t, MappedRows(w)), w.task.job, w.rest);
    InsertTasksCovers(InsertMappedBatch(t, MappedRows(w)), w.task.job, w.rest);
  }

  // TOGETHER. The step that commits a map page's links commits both parts.
  lemma MapCommitsTogether(cfg: Config, s: State, step: Step)
    requires LeaseInv(cfg, s) && Enabled(cfg, s, step) && step.CommitMap?
    ensures MapsTogether(s.tables, NextTables(cfg, s, step), s.workers[step.w])
  {
    var w := s.workers[step.w];
    assert NextTables(cfg, s, step) == InsertTasks(InsertMappedBatch(s.tables, MappedRows(w)), w.task.job, w.rest);
    TransactionMaps(s.tables, w);
  }
}
