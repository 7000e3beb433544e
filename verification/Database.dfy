// The store of internal/store/store.go with its tables as fields that its methods update. Each
// method is proved to leave behind what the statement functions of Tables say.
module Database {
  import opened Sums
  import opened Wrappers
  import opened Urls
  import opened T = Tables

  datatype Finish = StillPending | Settled

  datatype Claim = Claim(id: TaskId, task: Task)

  class Store {
    var jobs: map<JobId, Job>
    var tasks: map<TaskId, Task>
    var documents: map<Serial, Document>
    var mapped: map<Serial, MappedUrl>
    var seen: set<Url>
    var nextJob: nat
    var nextTask: nat
    var nextDocument: Serial
    var nextMapped: Serial

    function View(): Tables
      reads this
    {
      Tables(jobs, tasks, documents, mapped, seen, nextJob, nextTask, nextDocument, nextMapped)
    }

    constructor ()
      ensures View() == EMPTY
    {
      jobs, tasks, documents, mapped, seen := map[], map[], map[], map[], {};
      nextJob, nextTask, nextDocument, nextMapped := 0, 0, 1, 1;
    }

    // ----- Inserting -----

    method InsertJob(job: Job) returns (id: JobId)
      modifies this
      ensures id == old(nextJob) && View() == T.InsertJob(old(View()), job)
    {
      id := nextJob;
      jobs := jobs[id := job];
      nextJob := nextJob + 1;
    }

    method InsertTask(j: JobId, n: NewTask)
      modifies this
      ensures View() == T.InsertTask(old(View()), j, n)
    {
      if !exists id | id in tasks :: tasks[id].job == j && tasks[id].final == n.final {
        tasks := tasks[nextTask := FreshTask(j, n)];
      }
      nextTask := nextTask + 1;
    }

    // The statement of row `broken`, if there is one, fails; outside a transaction the rows before it stay.
    method InsertTasks(j: JobId, ns: seq<NewTask>, broken: Option<nat>) returns (ok: bool)
      modifies this
      ensures ok <==> broken.GetOr(|ns|) >= |ns|
      ensures View() == T.InsertTasks(old(View()), j, if ok then ns else ns[..broken.value])
    {
      ghost var done := if broken.GetOr(|ns|) >= |ns| then ns else ns[..broken.value];
      for i := 0 to |ns|
        invariant i <= |done|
        invariant T.InsertTasks(View(), j, done[i..]) == T.InsertTasks(old(View()), j, done)
      {
        if broken == Some(i) {
          return false;
        }
        assert done[i..][1..] == done[i + 1..];
        InsertTask(j, ns[i]);
      }
      ok := true;
    }

    method InsertDocument(d: Document)
      modifies this
      ensures View() == T.InsertDocument(old(View()), d)
    {
      documents := documents[nextDocument := d];
      nextDocument := nextDocument + 1;
    }

    method InsertMappedBatch(entries: seq<MappedUrl>, broken: Option<nat>) returns (ok: bool)
      modifies this
      ensures ok <==> broken.GetOr(|entries|) >= |entries|
      ensures View() == T.InsertMappedBatch(old(View()), if ok then entries else entries[..broken.value])
    {
      if |entries| == 0 {
        return true;
      }
      ghost var done := if broken.GetOr(|entries|) >= |entries| then entries else entries[..broken.value];
      for i := 0 to |entries|
        invariant i <= |done|
        invariant T.InsertMappedBatch(View(), done[i..]) == T.InsertMappedBatch(old(View()), done)
      {
        if broken == Some(i) {
          return false;
        }
        assert done[i..][1..] == done[i + 1..];
        mapped := mapped[nextMapped := entries[i]];
        nextMapped := nextMapped + 1;
      }
      ok := true;
    }

    // ----- Claiming and finalising -----

    // `locked` are the rows other statements hold.
    method DequeueTask(now: int, leaseTimeout: int, locked: set<TaskId>) returns (claim: Option<Claim>)
      modifies this
      ensures claim.Some? ==>
                && Picks(old(View()), claim.value.id, now - leaseTimeout, locked)
                && View() == ClaimTask(old(View()), claim.value.id, now)
                && claim.value.task == tasks[claim.value.id]
      ensures claim.Some? ==>
                var id := claim.value.id;
                && id in old(tasks) && id !in locked
                && (var row := old(tasks)[id];
                    && (row.status == Queued
                        || (row.status == Processing
                            && (row.heartbeatAt.None? || row.heartbeatAt.value < now - leaseTimeout)))
                    && tasks == old(tasks)[id := row.(status := Processing, heartbeatAt := Some(now))])
                && forall k :: k in old(tasks) && k < id && k !in locked ==>
                     var row := old(tasks)[k];
                     && row.status != Queued
                     && (row.status == Processing ==>
                           row.heartbeatAt.Some? && row.heartbeatAt.value >= now - leaseTimeout)
      ensures claim.None? ==>
                && View() == old(View())
                && forall id | id in tasks :: Claimable(tasks[id], now - leaseTimeout) ==> id in locked
    {
      var threshold := now - leaseTimeout;
      var candidates := set id | id in tasks && id !in locked && Claimable(tasks[id], threshold);
      assert forall k | k in tasks :: k !in locked && Claimable(tasks[k], threshold) ==> k in candidates;
      if candidates == {} {
        return None;
      }
      ghost var least := LeastOf(candidates);
      var id :| id in candidates && forall k :: k in candidates ==> id <= k;
      tasks := tasks[id := tasks[id].(status := Processing, heartbeatAt := Some(now))];
      claim := Some(Claim(id, tasks[id]));
    }

    method UpdateTaskHeartbeat(id: TaskId, now: int)
      modifies this
      ensures View() == Heartbeat(old(View()), id, now)
      ensures id in old(tasks) ==> tasks == old(tasks)[id := old(tasks)[id].(heartbeatAt := Some(now))]
    {
      if id in tasks {
        tasks := tasks[id := tasks[id].(heartbeatAt := Some(now))];
      }
    }

    method CompleteTask(id: TaskId)
      modifies this
      ensures View() == T.CompleteTask(old(View()), id)
      ensures id in old(tasks) ==> tasks == old(tasks)[id := old(tasks)[id].(status := Done)]
    {
      if id in tasks {
        tasks := tasks[id := tasks[id].(status := Done)];
      }
    }

    method FailTask(id: TaskId)
      modifies this
      ensures View() == T.FailTask(old(View()), id)
      ensures id in old(tasks) ==>
                var row := old(tasks)[id];
                tasks == old(tasks)[id := row.(status := Failed, attempts := row.attempts + 1)]
    {
      if id in tasks {
        tasks := tasks[id := tasks[id].(status := Failed, attempts := tasks[id].attempts + 1)];
      }
    }

    method RetryTask(id: TaskId)
      modifies this
      ensures View() == T.RetryTask(old(View()), id)
      ensures id in old(tasks) ==>
                var row := old(tasks)[id];
                tasks == old(tasks)[id := row.(status := Queued, attempts := row.attempts + 1, heartbeatAt := None)]
    {
      if id in tasks {
        tasks := tasks[id := tasks[id].(status := Queued, attempts := tasks[id].attempts + 1, heartbeatAt := None)];
      }
    }

    method UpdateTaskFinalUrl(id: TaskId, final: Url)
      modifies this
      ensures View() == T.UpdateTaskFinalUrl(old(View()), id, final)
      ensures id in old(tasks) && old(tasks)[id].final != final ==>
                (tasks != old(tasks) <==>
                   forall k :: k in old(tasks) && old(tasks)[k].final == final ==>
                     old(tasks)[k].job != old(tasks)[id].job)
    {
      if id in tasks && tasks[id].final != final
         && !exists k | k in tasks :: tasks[k].job == tasks[id].job && tasks[k].final == final && k != id
      {
        tasks := tasks[id := tasks[id].(final := final)];
      }
    }

    // ----- Job status -----

    method UpdateJobStatus(j: JobId, status: JobStatus)
      modifies this
      ensures View() == SetJobStatus(old(View()), j, status)
      ensures j in old(jobs) ==> jobs == old(jobs)[j := old(jobs)[j].(status := status)]
    {
      if j in jobs {
        jobs := jobs[j := jobs[j].(status := status)];
      }
    }

    method GetJob(j: JobId) returns (job: Option<Job>)
      ensures job == if j in jobs then Some(jobs[j]) else None
    {
      job := if j in jobs then Some(jobs[j]) else None;
    }

    method TaskCount(j: JobId) returns (count: nat)
      ensures count == T.TaskCount(View(), j)
    {
      var rows := set id | id in tasks && tasks[id].job == j;
      count := |rows|;
      assert rows == RowsOf(View(), j);
    }

    method PendingTaskCounts(j: JobId) returns (queued: nat, processing: nat)
      ensures queued == |set id | id in tasks && tasks[id].job == j && tasks[id].status == Queued|
      ensures processing == |set id | id in tasks && tasks[id].job == j && tasks[id].status == Processing|
      ensures queued + processing <= T.TaskCount(View(), j)
      ensures queued + processing == 0 <==> Quiescent(View(), j)
    {
      var waiting := set id | id in tasks && tasks[id].job == j && tasks[id].status == Queued;
      var running := set id | id in tasks && tasks[id].job == j && tasks[id].status == Processing;
      queued, processing := |waiting|, |running|;
      assert |waiting + running| == queued + processing by {
        assert waiting !! running;
      }
      SubsetSize(waiting + running, RowsOf(View(), j));
      if Quiescent(View(), j) {
        assert waiting == {} && running == {};
      } else {
        var id :| id in tasks && tasks[id].job == j && Pending(tasks[id]);
        assert id in waiting + running;
      }
    }

    method HasFailedTasks(j: JobId) returns (failed: bool)
      ensures failed <==> HasFailed(View(), j)
    {
      var rows := set id | id in tasks && tasks[id].job == j && tasks[id].status == Failed;
      failed := |rows| > 0;
      if HasFailed(View(), j) {
        var id :| id in tasks && tasks[id].job == j && tasks[id].status == Failed;
        assert id in rows;
      } else {
        assert rows == {};
      }
    }

    // Undisturbed, the three statements settle the job exactly when nothing of it is pending.
    method FinishJob(j: JobId) returns (r: Finish)
      modifies this
      ensures r == Settled <==> Quiescent(old(View()), j)
      ensures View() == if r == Settled then SetJobStatus(old(View()), j, FinalStatus(HasFailed(old(View()), j)))
                        else old(View())
    {
      var queued, processing := PendingTaskCounts(j);
      if queued + processing > 0 {
        return StillPending;
      }
      var failed := HasFailedTasks(j);
      var status := JobCompleted;
      if failed {
        status := JobCompletedWithErrors;
      }
      UpdateJobStatus(j, status);
      r := Settled;
    }

    method CancelExpiredJobs(now: int)
      modifies this`jobs
      ensures View() == CancelExpired(old(View()), now)
    {
      jobs := map j | j in jobs ::
        if Before(jobs[j].expiresAt, now) && jobs[j].status != JobCancelled && !Finished(jobs[j].status)
        then jobs[j].(status := JobCancelled) else jobs[j];
      assert jobs == CancelExpired(old(View()), now).jobs;
    }

    // DELETE FROM jobs, which cascades to the three other tables.
    method DeleteExpiredJobs(now: int)
      modifies this
      ensures View() == DeleteExpired(old(View()), now)
    {
      var gone := set j | j in jobs && Swept(jobs[j], now);
      var keptTasks := map id | id in tasks && tasks[id].job !in gone :: tasks[id];
      var keptDocuments := map id | id in documents && documents[id].job !in gone :: documents[id];
      var keptMapped := map id | id in mapped && mapped[id].job !in gone :: mapped[id];
      var keptJobs := map j | j in jobs && j !in gone :: jobs[j];
      ghost var after := DeleteExpired(View(), now);
      assert keptJobs == after.jobs && keptTasks == after.tasks;
      assert keptDocuments == after.documents && keptMapped == after.mapped;
      jobs, tasks, documents, mapped := keptJobs, keptTasks, keptDocuments, keptMapped;
    }

    // The sweep of internal/cleanup/cleanup.go
    method Sweep(now: int)
      modifies this
      ensures View() == DeleteExpired(CancelExpired(old(View()), now), now)
    {
      CancelExpiredJobs(now);
      DeleteExpiredJobs(now);
    }

    // ----- Dedupe cache -----

    method HasSeenCanonical(url: Url) returns (hit: bool)
      ensures hit <==> url in seen
    {
      hit := url in seen;
    }

    method MarkCanonical(url: Url)
      modifies this`seen
      ensures seen == old(seen) + {url}
    {
      seen := seen + {url};
    }

    // ROLLBACK puts every row back; ids that were drawn stay drawn.
    method Rollback(begun: Tables)
      modifies this
      ensures View() == begun.(nextJob := old(nextJob), nextTask := old(nextTask),
                               nextDocument := old(nextDocument), nextMapped := old(nextMapped))
    {
      jobs, tasks, documents, mapped, seen := begun.jobs, begun.tasks, begun.documents, begun.mapped, begun.seen;
    }
  }
}
