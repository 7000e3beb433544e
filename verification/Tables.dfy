// The rows of the PostgreSQL schema and, for each SQL statement of internal/store/store.go and
// internal/cleanup/cleanup.go, the table contents it leaves behind. Every statement is atomic.
module Tables {
  import opened Sums
  import opened Wrappers
  import opened Urls

  type JobId = nat
  type TaskId = nat

  // The id of a document or mapped row, a BIGSERIAL. (Task ids here count from 0: only their order matters.)
  type Serial = i: int | 0 < i witness 1

  datatype JobKind = BatchScrape | Crawl | Map

  datatype JobStatus = JobQueued | JobRunning | JobCompleted | JobCompletedWithErrors | JobFailed | JobCancelled

  // `start` is the url parameter of a crawl or map request; batch requests leave maxDepth 0 and
  // sameDomain false.
  datatype Job = Job(
    status: JobStatus, kind: JobKind, start: Url, maxDepth: int, sameDomain: bool,
    createdAt: int, expiresAt: Option<int>, deadlineAt: Option<int>)

  datatype TaskStatus = Queued | Processing | Done | Failed | Skipped

  datatype Task = Task(
    job: JobId, requested: Url, final: Url, depth: int, status: TaskStatus, attempts: nat,
    heartbeatAt: Option<int>)

  // The columns an INSERT into crawl_tasks gives.
  datatype NewTask = NewTask(requested: Url, final: Url, depth: int)

  datatype Document = Document(job: JobId, requested: Url, final: Url)

  datatype MappedUrl = MappedUrl(job: JobId, source: Url, target: Url, depth: int)

  // The next* fields are the sequences behind the BIGSERIAL ids; nextJob stands for a source of
  // identifiers that are never issued twice, as gen_random_uuid is.
  datatype Tables = Tables(
    jobs: map<JobId, Job>, tasks: map<TaskId, Task>,
    documents: map<Serial, Document>, mapped: map<Serial, MappedUrl>, seen: set<Url>,
    nextJob: nat, nextTask: nat, nextDocument: Serial, nextMapped: Serial)

  const EMPTY := Tables(map[], map[], map[], map[], {}, 0, 0, 1, 1)

  // ----- Reading -----

  predicate Pending(t: Task) {
    t.status == Queued || t.status == Processing
  }

  // PendingTaskCounts finds nothing queued and nothing processing.
  predicate Quiescent(tables: Tables, j: JobId) {
    forall id | id in tables.tasks :: tables.tasks[id].job == j ==> !Pending(tables.tasks[id])
  }

  // HasFailedTasks
  predicate HasFailed(tables: Tables, j: JobId) {
    exists id | id in tables.tasks :: tables.tasks[id].job == j && tables.tasks[id].status == Failed
  }

  function RowsOf(t: Tables, j: JobId): set<TaskId> {
    set id | id in t.tasks && t.tasks[id].job == j
  }

  // COUNT(*) over the job's rows
  function TaskCount(t: Tables, j: JobId): nat {
    |RowsOf(t, j)|
  }

  // The status FinishJob settles on.
  function FinalStatus(failed: bool): JobStatus {
    if failed then JobCompletedWithErrors else JobCompleted
  }

  predicate Finished(status: JobStatus) {
    status == JobCompleted || status == JobCompletedWithErrors
  }

  lemma {:induction false} LeastOf(ids: set<TaskId>) returns (least: TaskId)
    requires ids != {}
    ensures least in ids && forall k :: k in ids ==> least <= k
    decreases ids
  {
    least :| least in ids;
    if ids == {least} {
    } else {
      assert ids == {least} + (ids - {least}) && ids - {least} != {};
      var other := LeastOf(ids - {least});
      if other < least {
        least := other;
      }
    }
  }

  // ----- Inserting -----

  function FreshTask(j: JobId, n: NewTask): Task {
    Task(j, n.requested, n.final, n.depth, Queued, 0, None)
  }

  predicate Conflict(tables: Tables, j: JobId, final: Url) {
    exists id | id in tables.tasks :: tables.tasks[id].job == j && tables.tasks[id].final == final
  }

  // INSERT INTO crawl_tasks ... ON CONFLICT (job_id, final_url) DO NOTHING. A skipped row still
  // draws an id from the sequence.
  function InsertTask(tables: Tables, j: JobId, n: NewTask): Tables {
    if Conflict(tables, j, n.final) then tables.(nextTask := tables.nextTask + 1)
    else tables.(tasks := tables.tasks[tables.nextTask := FreshTask(j, n)], nextTask := tables.nextTask + 1)
  }

  function InsertTasks(tables: Tables, j: JobId, ns: seq<NewTask>): Tables
    decreases |ns|
  {
    if ns == [] then tables else InsertTasks(InsertTask(tables, j, ns[0]), j, ns[1..])
  }

  // What a statement that failed, or a transaction that was rolled back, leaves behind: ids drawn.
  function SkipIds(tables: Tables, tasks: nat, documents: nat, mapped: nat): Tables {
    tables.(nextTask := tables.nextTask + tasks, nextDocument := tables.nextDocument + documents,
            nextMapped := tables.nextMapped + mapped)
  }

  function InsertJob(tables: Tables, job: Job): Tables {
    tables.(jobs := tables.jobs[tables.nextJob := job], nextJob := tables.nextJob + 1)
  }

  function InsertDocument(tables: Tables, d: Document): Tables {
    tables.(documents := tables.documents[tables.nextDocument := d], nextDocument := tables.nextDocument + 1)
  }

  function InsertMappedBatch(tables: Tables, entries: seq<MappedUrl>): Tables
    decreases |entries|
  {
    if entries == [] then tables
    else
      InsertMappedBatch(
        tables.(mapped := tables.mapped[tables.nextMapped := entries[0]], nextMapped := tables.nextMapped + 1),
        entries[1..])
  }

  // The rows for the links found on one page.
  function MappedFor(j: JobId, source: Url, links: seq<Url>, depth: int): (rows: seq<MappedUrl>)
    ensures |rows| == |links|
  {
    seq(|links|, i requires 0 <= i < |links| => MappedUrl(j, source, links[i], depth))
  }

  // ----- Claiming and leases -----

  // The WHERE clause of DequeueTask.
  predicate Claimable(t: Task, threshold: int) {
    || t.status == Queued
    || (t.status == Processing && (t.heartbeatAt == None || t.heartbeatAt.value < threshold))
  }

  // ORDER BY id LIMIT 1 FOR UPDATE SKIP LOCKED picks `id`.
  predicate Picks(tables: Tables, id: TaskId, threshold: int, locked: set<TaskId>) {
    && id in tables.tasks && id !in locked && Claimable(tables.tasks[id], threshold)
    && forall k | k in tables.tasks :: k !in locked && Claimable(tables.tasks[k], threshold) ==> id <= k
  }

  // UPDATE crawl_tasks ... WHERE id = $1 does nothing when the row is gone.
  function ClaimTask(tables: Tables, id: TaskId, now: int): Tables {
    if id !in tables.tasks then tables
    else tables.(tasks := tables.tasks[id := tables.tasks[id].(status := Processing, heartbeatAt := Some(now))])
  }

  function Heartbeat(tables: Tables, id: TaskId, now: int): Tables {
    if id !in tables.tasks then tables
    else tables.(tasks := tables.tasks[id := tables.tasks[id].(heartbeatAt := Some(now))])
  }

  function CompleteTask(tables: Tables, id: TaskId): Tables {
    if id !in tables.tasks then tables
    else tables.(tasks := tables.tasks[id := tables.tasks[id].(status := Done)])
  }

  function FailTask(tables: Tables, id: TaskId): Tables {
    if id !in tables.tasks then tables
    else
      var t := tables.tasks[id];
      tables.(tasks := tables.tasks[id := t.(status := Failed, attempts := t.attempts + 1)])
  }

  function RetryTask(tables: Tables, id: TaskId): Tables {
    if id !in tables.tasks then tables
    else
      var t := tables.tasks[id];
      tables.(tasks := tables.tasks[id := t.(status := Queued, attempts := t.attempts + 1, heartbeatAt := None)])
  }

  // UpdateTaskFinalURL: skipped when another row of the job already has the URL.
  function UpdateTaskFinalUrl(tables: Tables, id: TaskId, final: Url): Tables {
    if id !in tables.tasks || tables.tasks[id].final == final || Conflict(tables, tables.tasks[id].job, final)
    then tables
    else tables.(tasks := tables.tasks[id := tables.tasks[id].(final := final)])
  }

  // ----- Job status and the sweep -----

  // UpdateJobStatus and StartJob
  function SetJobStatus(tables: Tables, j: JobId, status: JobStatus): Tables {
    if j !in tables.jobs then tables
    else tables.(jobs := tables.jobs[j := tables.jobs[j].(status := status)])
  }

  predicate Before(at: Option<int>, now: int) {
    at.Some? && at.value < now
  }

  // First statement of the sweep: cancel what has expired and not completed.
  function CancelExpired(tables: Tables, now: int): Tables {
    tables.(jobs := map j | j in tables.jobs ::
      var job := tables.jobs[j];
      if Before(job.expiresAt, now) && job.status != JobCancelled && !Finished(job.status)
      then job.(status := JobCancelled) else job)
  }

  predicate Swept(job: Job, now: int) {
    Before(job.expiresAt, now) || Before(job.deadlineAt, now)
  }

  // Second statement of the sweep, with ON DELETE CASCADE into the other tables.
  function DeleteExpired(tables: Tables, now: int): Tables {
    var gone := set j | j in tables.jobs && Swept(tables.jobs[j], now);
    tables.(
      jobs := map j | j in tables.jobs && j !in gone :: tables.jobs[j],
      tasks := map id | id in tables.tasks && tables.tasks[id].job !in gone :: tables.tasks[id],
      documents := map id | id in tables.documents && tables.documents[id].job !in gone :: tables.documents[id],
      mapped := map id | id in tables.mapped && tables.mapped[id].job !in gone :: tables.mapped[id])
  }

  // ----- What the sweep and the rename come to -----

  // The cancelling statement: a job whose expiry has passed is cancelled unless it has completed.
  lemma CancelledExactly(t: Tables, now: int, j: JobId)
    ensures var t' := CancelExpired(t, now);
            && t' == t.(jobs := t'.jobs) && t'.jobs.Keys == t.jobs.Keys
            && (j in t.jobs ==>
                  var job := t.jobs[j];
                  t'.jobs[j] ==
                  if job.expiresAt.Some? && job.expiresAt.value < now
                     && job.status != JobCompleted && job.status != JobCompletedWithErrors
                  then job.(status := JobCancelled) else job)
  {
  }

  // The deleting statement: jobs go whose expiry or deadline has passed, and with them all that refers to them;
  // all else stays as it is.
  lemma DeletedExactly(t: Tables, now: int)
    ensures var t' := DeleteExpired(t, now);
            && t'.seen == t.seen && t'.nextJob == t.nextJob && t'.nextTask == t.nextTask
            && t'.nextDocument == t.nextDocument && t'.nextMapped == t.nextMapped
            && (forall j :: j in t'.jobs <==>
                  && j in t.jobs
                  && !(t.jobs[j].expiresAt.Some? && t.jobs[j].expiresAt.value < now)
                  && !(t.jobs[j].deadlineAt.Some? && t.jobs[j].deadlineAt.value < now))
            && (forall j :: j in t'.jobs ==> t'.jobs[j] == t.jobs[j])
            && (forall id :: id in t'.tasks <==>
                  id in t.tasks && (t.tasks[id].job in t.jobs ==> t.tasks[id].job in t'.jobs))
            && (forall id :: id in t'.tasks ==> t'.tasks[id] == t.tasks[id])
            && (forall id :: id in t'.documents <==>
                  id in t.documents && (t.documents[id].job in t.jobs ==> t.documents[id].job in t'.jobs))
            && (forall id :: id in t'.documents ==> t'.documents[id] == t.documents[id])
            && (forall id :: id in t'.mapped <==>
                  id in t.mapped && (t.mapped[id].job in t.jobs ==> t.mapped[id].job in t'.jobs))
            && (forall id :: id in t'.mapped ==> t'.mapped[id] == t.mapped[id])
  {
  }

  // The rename: the row has the new URL afterwards exactly when no other row of its job had it, else it keeps
  // its own; nothing else changes.
  lemma RenamedExactly(t: Tables, id: TaskId, final: Url)
    requires id in t.tasks
    ensures
      var t', row := UpdateTaskFinalUrl(t, id, final), t.tasks[id];
      var taken := exists k :: k in t.tasks && k != id && t.tasks[k].job == row.job && t.tasks[k].final == final;
      t' == if taken then t else t.(tasks := t.tasks[id := row.(final := final)])
  {
    var row := t.tasks[id];
    if row.final == final {
      assert t.tasks[id := row.(final := final)] == t.tasks;
    }
  }

  // ----- Facts about bulk inserts -----

  // A batch draws an id for every task, conflicting or not, and touches no other table.
  lemma {:induction false} InsertTasksDraws(tables: Tables, j: JobId, ns: seq<NewTask>)
    ensures var t := InsertTasks(tables, j, ns); t == tables.(tasks := t.tasks, nextTask := tables.nextTask + |ns|)
    decreases |ns|
  {
    if ns == [] {
    } else {
      InsertTasksDraws(InsertTask(tables, j, ns[0]), j, ns[1..]);
    }
  }

  lemma {:induction false} InsertMappedBatchDraws(tables: Tables, entries: seq<MappedUrl>)
    ensures var t := InsertMappedBatch(tables, entries);
            t == tables.(mapped := t.mapped, nextMapped := tables.nextMapped + |entries|)
    decreases |entries|
  {
    if entries == [] {
    } else {
      InsertMappedBatchDraws(
        tables.(mapped := tables.mapped[tables.nextMapped := entries[0]], nextMapped := tables.nextMapped + 1),
        entries[1..]);
    }
  }

  // What InsertTasks adds: rows of job j, as given, under new ids; nothing else changes.
  ghost predicate Adds(old_: Tables, new_: Tables, j: JobId, ns: seq<NewTask>) {
    && new_ == old_.(tasks := new_.tasks, nextTask := new_.nextTask)
    && old_.nextTask <= new_.nextTask
    && (forall id :: id in old_.tasks ==> id in new_.tasks && new_.tasks[id] == old_.tasks[id])
    && (forall id :: id in new_.tasks && id !in old_.tasks ==>
          old_.nextTask <= id < new_.nextTask && exists k :: 0 <= k < |ns| && new_.tasks[id] == FreshTask(j, ns[k]))
  }

  lemma {:induction false} InsertTasksAdds(tables: Tables, j: JobId, ns: seq<NewTask>)
    requires forall id :: id in tables.tasks ==> id < tables.nextTask
    ensures Adds(tables, InsertTasks(tables, j, ns), j, ns)
    decreases |ns|
  {
    if ns == [] {
    } else {
      var next := InsertTask(tables, j, ns[0]);
      InsertTasksAdds(next, j, ns[1..]);
      var last := InsertTasks(next, j, ns[1..]);
      forall id | id in last.tasks && id !in tables.tasks
        ensures exists k :: 0 <= k < |ns| && last.tasks[id] == FreshTask(j, ns[k])
      {
        if id in next.tasks {
          assert last.tasks[id] == FreshTask(j, ns[0]);
        } else {
          var k :| 0 <= k < |ns[1..]| && last.tasks[id] == FreshTask(j, ns[1..][k]);
          assert ns[k + 1] == ns[1..][k];
        }
      }
    }
  }

  // UNIQUE (job_id, final_url)
  ghost predicate UniqueFinal(tables: Tables) {
    forall a, b | a in tables.tasks && b in tables.tasks ::
      tables.tasks[a].job == tables.tasks[b].job && tables.tasks[a].final == tables.tasks[b].final ==> a == b
  }

  lemma {:induction false} InsertTasksUnique(tables: Tables, j: JobId, ns: seq<NewTask>)
    requires UniqueFinal(tables)
    requires forall id :: id in tables.tasks ==> id < tables.nextTask
    ensures UniqueFinal(InsertTasks(tables, j, ns))
    decreases |ns|
  {
    if ns == [] {
    } else {
      InsertTasksUnique(InsertTask(tables, j, ns[0]), j, ns[1..]);
    }
  }

  lemma Taken(tables: Tables, j: JobId, n: NewTask)
    ensures Conflict(InsertTask(tables, j, n), j, n.final)
  {
    if !Conflict(tables, j, n.final) {
      assert InsertTask(tables, j, n).tasks[tables.nextTask].final == n.final;
    }
  }

  // Two batches one after the other.
  lemma {:induction false} InsertTasksTwice(tables: Tables, j: JobId, first: seq<NewTask>, second: seq<NewTask>)
    ensures InsertTasks(InsertTasks(tables, j, first), j, second) == InsertTasks(tables, j, first + second)
    decreases |first|
  {
    if first == [] {
      assert first + second == second;
    } else {
      InsertTasksTwice(InsertTask(tables, j, first[0]), j, first[1..], second);
      assert (first + second)[1..] == first[1..] + second;
    }
  }

  // Afterwards every URL of the batch is taken.
  lemma {:induction false} InsertTasksCovers(tables: Tables, j: JobId, ns: seq<NewTask>)
    requires forall id :: id in tables.tasks ==> id < tables.nextTask
    ensures forall k :: 0 <= k < |ns| ==> Conflict(InsertTasks(tables, j, ns), j, ns[k].final)
    decreases |ns|
  {
    if ns == [] {
    } else {
      var next := InsertTask(tables, j, ns[0]);
      Taken(tables, j, ns[0]);
      InsertTasksCovers(next, j, ns[1..]);
      InsertTasksAdds(next, j, ns[1..]);
      var id :| id in next.tasks && next.tasks[id].job == j && next.tasks[id].final == ns[0].final;
      assert InsertTasks(tables, j, ns).tasks[id] == next.tasks[id];
    }
  }

  // A new row's URL was not taken before.
  lemma InsertTasksAvoids(tables: Tables, j: JobId, ns: seq<NewTask>, id: TaskId)
    requires UniqueFinal(tables) && forall k :: k in tables.tasks ==> k < tables.nextTask
    requires id in InsertTasks(tables, j, ns).tasks && id !in tables.tasks
    ensures InsertTasks(tables, j, ns).tasks[id].job == j
    ensures !Conflict(tables, j, InsertTasks(tables, j, ns).tasks[id].final)
  {
    InsertTasksUnique(tables, j, ns);
    InsertTasksAdds(tables, j, ns);
  }

  // No task before ns[k] has its URL.
  predicate IsFirst(ns: seq<NewTask>, k: nat) {
    k < |ns| && forall l :: 0 <= l < k ==> ns[l].final != ns[k].final
  }

  lemma IsFirstLater(ns: seq<NewTask>, k: nat)
    requires ns != [] && IsFirst(ns[1..], k) && ns[0].final != ns[1..][k].final
    ensures IsFirst(ns, k + 1) && ns[k + 1] == ns[1..][k]
  {
  }

  lemma InsertTaskUnique(tables: Tables, j: JobId, n: NewTask)
    requires UniqueFinal(tables) && forall id :: id in tables.tasks ==> id < tables.nextTask
    ensures UniqueFinal(InsertTask(tables, j, n))
    ensures forall id :: id in InsertTask(tables, j, n).tasks ==> id < InsertTask(tables, j, n).nextTask
  {
  }

  // Of several new tasks with one URL, the first is the one that gets the row.
  lemma {:induction false} InsertTasksFirst(tables: Tables, j: JobId, ns: seq<NewTask>, id: TaskId)
    requires UniqueFinal(tables) && forall k :: k in tables.tasks ==> k < tables.nextTask
    requires id in InsertTasks(tables, j, ns).tasks && id !in tables.tasks
    ensures exists k: nat :: IsFirst(ns, k) && InsertTasks(tables, j, ns).tasks[id] == FreshTask(j, ns[k])
    decreases |ns|
  {
    var next := InsertTask(tables, j, ns[0]);
    var row := InsertTasks(next, j, ns[1..]).tasks[id];
    InsertTaskUnique(tables, j, ns[0]);
    if id in next.tasks {
      InsertTasksAdds(next, j, ns[1..]);
      assert IsFirst(ns, 0) && row == FreshTask(j, ns[0]);
    } else {
      InsertTasksFirst(next, j, ns[1..], id);
      var k: nat :| IsFirst(ns[1..], k) && row == FreshTask(j, ns[1..][k]);
      InsertTasksAvoids(next, j, ns[1..], id);
      Taken(tables, j, ns[0]);
      IsFirstLater(ns, k);
    }
  }

  // What InsertMappedBatch adds: the entries, in order, under new ids; nothing else changes.
  lemma {:induction false} InsertMappedBatchAdds(tables: Tables, entries: seq<MappedUrl>)
    requires forall id :: id in tables.mapped ==> id < tables.nextMapped
    ensures var t := InsertMappedBatch(tables, entries);
            && t == tables.(mapped := t.mapped, nextMapped := tables.nextMapped + |entries|)
            && (forall id :: id in tables.mapped ==> id in t.mapped && t.mapped[id] == tables.mapped[id])
            && (forall id :: tables.nextMapped <= id < t.nextMapped ==>
                  id in t.mapped && t.mapped[id] == entries[id - tables.nextMapped])
            && (forall id :: id in t.mapped ==> id in tables.mapped || tables.nextMapped <= id < t.nextMapped)
    decreases |entries|
  {
    if entries == [] {
    } else {
      InsertMappedBatchAdds(
        tables.(mapped := tables.mapped[tables.nextMapped := entries[0]], nextMapped := tables.nextMapped + 1),
        entries[1..]);
    }
  }
}
