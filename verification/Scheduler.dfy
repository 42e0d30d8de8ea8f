/** The queue, the worker table and the scheduler's loops as the code runs them: objects
    updated in place, proved against the functions of Jobs and JobSnapshots. */
module Scheduler {
  import opened Types
  import opened Jobs
  import opened JobSnapshots

  class JobQueue {
    var jobs: map<JobId, Job>
    var maxJobs: nat

    function View(): Queue
      reads this
    {
      Queue(jobs, maxJobs)
    }

    constructor (capacity: nat)
      ensures View() == Queue(map[], capacity)
    {
      jobs, maxJobs := map[], capacity;
    }

    method ActiveJobCount() returns (n: nat)
      ensures n == |View().ActiveIds()|
    {
      n := 0;
      var rest := jobs.Keys;
      ghost var seen: set<JobId> := {};
      while rest != {}
        invariant rest <= jobs.Keys
        invariant seen == (set id | id in jobs && id !in rest && IsActive(jobs[id].status)) && n == |seen|
        decreases rest
      {
        var id :| id in rest;
        rest := rest - {id};
        if IsActive(jobs[id].status) {
          n := n + 1;
          seen := seen + {id};
        }
      }
      assert seen == View().ActiveIds();
    }

    method AddJob(job: Job) returns (added: bool)
      modifies this
      ensures View() == old(View()).AddJob(job)
      ensures added <==> |old(View()).ActiveIds()| < maxJobs
    {
      var n := ActiveJobCount();
      if n >= maxJobs {
        return false;
      }
      jobs := jobs[job.id := job];
      added := true;
    }

    method UpdateStatusMetadata(u: JobStatusUpdate) returns (found: bool)
      modifies this
      ensures View() == old(View()).UpdateStatusMetadata(u) && (found <==> u.jobId in old(jobs))
    {
      found := u.jobId in jobs;
      if found {
        var job := jobs[u.jobId];
        jobs := jobs[u.jobId := job.(status := u.status, executedBy := Some(u.executedBy),
                                     exitCode := u.exitCode, completedAt := u.completedAt)];
      }
    }

    method AssignJob(id: JobId, worker: NodeId) returns (found: bool)
      modifies this
      ensures View() == old(View()).AssignJob(id, worker) && (found <==> id in old(jobs))
    {
      found := id in jobs;
      if found {
        jobs := jobs[id := jobs[id].(assignedWorker := Some(worker), status := Running)];
      }
    }

    method CancelJob(id: JobId, now: Time) returns (cancelled: bool)
      modifies this
      ensures View() == old(View()).CancelJob(id, now)
      ensures cancelled <==> id in old(jobs) && IsActive(old(jobs)[id].status)
    {
      cancelled := id in jobs && IsActive(jobs[id].status);
      if cancelled {
        jobs := jobs[id := jobs[id].(status := Cancelled, completedAt := Some(now))];
      }
    }

    /** Some pending job, if there is one. */
    method FirstPending() returns (id: Option<JobId>)
      ensures id.Some? ==> View().Has(id.value, Pending)
      ensures id.None? ==> PendingIds(View()) == {}
    {
      var rest := jobs.Keys;
      while rest != {}
        invariant rest <= jobs.Keys && forall j :: j in jobs && j !in rest ==> jobs[j].status != Pending
        decreases rest
      {
        var j :| j in rest;
        if jobs[j].status == Pending {
          return Some(j);
        }
        rest := rest - {j};
      }
      id := None;
    }

    /** All jobs by creation time. */
    method AllJobs() returns (list: seq<Job>)
      requires View().Keyed()
      ensures IsListing(View(), list)
    {
      list := [];
      var rest := jobs.Keys;
      while rest != {}
        invariant rest <= jobs.Keys
        invariant IsListing(Without(View(), rest), list)
        decreases rest
      {
        var id :| id in rest;
        ListingGrows(View(), rest, id, list);
        list := InsertByTime(list, jobs[id]);
        rest := rest - {id};
      }
      assert Without(View(), {}) == View();
    }

    method Clear()
      modifies this
      ensures View() == Queue(map[], old(maxJobs))
    {
      jobs := map[];
    }
  }

  ghost function PendingIds(q: Queue): set<JobId> {
    set id | id in q.jobs && q.jobs[id].status == Pending
  }

  // ----- listing by creation time -----------------------------------------------------------

  ghost function Without(q: Queue, ids: set<JobId>): Queue {
    q.(jobs := q.jobs - ids)
  }

  ghost predicate ByTime(list: seq<Job>) {
    forall i, j :: 0 <= i < j < |list| ==> list[i].createdAt <= list[j].createdAt
  }

  function Place(list: seq<Job>, job: Job): (k: nat)
    ensures k <= |list|
    ensures forall i :: 0 <= i < k ==> list[i].createdAt <= job.createdAt
    ensures k < |list| ==> list[k].createdAt > job.createdAt
  {
    if list == [] || list[0].createdAt > job.createdAt then 0 else 1 + Place(list[1..], job)
  }

  function InsertByTime(list: seq<Job>, job: Job): seq<Job> {
    var k := Place(list, job);
    list[..k] + [job] + list[k..]
  }

  lemma InsertKeepsOrder(list: seq<Job>, job: Job)
    requires ByTime(list)
    ensures ByTime(InsertByTime(list, job))
  {
  }

  /** The inserted job sits at its place, the others around it in their old order. */
  lemma InsertedAt(list: seq<Job>, job: Job)
    ensures var out, k := InsertByTime(list, job), Place(list, job);
            && |out| == |list| + 1 && out[k] == job
            && (forall i :: 0 <= i < k ==> out[i] == list[i])
            && (forall i :: k < i < |out| ==> out[i] == list[i - 1])
            && (forall i :: k <= i < |list| ==> out[i + 1] == list[i])
  {
  }

  lemma InsertLists(list: seq<Job>, job: Job, id: JobId)
    ensures Listed(InsertByTime(list, job), id) <==> id == job.id || Listed(list, id)
  {
    InsertedAt(list, job);
    var out, k := InsertByTime(list, job), Place(list, job);
    if i :| 0 <= i < |list| && list[i].id == id {
      assert out[if i < k then i else i + 1].id == id;
    }
  }

  lemma InsertDistinct(list: seq<Job>, job: Job)
    requires Distinct(list) && !Listed(list, job.id)
    ensures Distinct(InsertByTime(list, job))
  {
    InsertedAt(list, job);
  }

  /** Every listed job is the queue's own. */
  ghost predicate Own(q: Queue, list: seq<Job>) {
    forall i :: 0 <= i < |list| ==> list[i].id in q.jobs && q.jobs[list[i].id] == list[i]
  }

  lemma InsertOwn(q: Queue, list: seq<Job>, job: Job)
    requires Own(q, list) && job.id in q.jobs && q.jobs[job.id] == job
    ensures Own(q, InsertByTime(list, job))
  {
    InsertedAt(list, job);
  }

  lemma OwnMore(q: Queue, rest: set<JobId>, id: JobId, list: seq<Job>)
    requires Own(Without(q, rest), list)
    ensures Own(Without(q, rest - {id}), list) && (id in rest ==> !Listed(list, id))
  {
  }

  /** Inserting a job that is not yet listed lists it too. */
  lemma ListingGrows(q: Queue, rest: set<JobId>, id: JobId, list: seq<Job>)
    requires q.Keyed() && id in rest && rest <= q.jobs.Keys && IsListing(Without(q, rest), list)
    ensures IsListing(Without(q, rest - {id}), InsertByTime(list, q.jobs[id]))
  {
    var job, out := q.jobs[id], InsertByTime(list, q.jobs[id]);
    assert ByTime(out) by { InsertKeepsOrder(list, job); }
    OwnMore(q, rest, id, list);
    assert Distinct(out) by { InsertDistinct(list, job); }
    assert Own(Without(q, rest - {id}), out) by { InsertOwn(Without(q, rest - {id}), list, job); }
    forall j | j in Without(q, rest - {id}).jobs ensures Listed(out, j) {
      InsertLists(list, job, j);
    }
  }

  // ----- the worker table ---------------------------------------------------------------------

  class JobAssigner {
    var workers: Workers

    constructor ()
      ensures workers == map[]
    {
      workers := map[];
    }

    method RegisterWorker(id: NodeId)
      modifies this
      ensures workers == Register(old(workers), id)
    {
      workers := workers[id := {}];
    }

    method WorkerHeartbeat(id: NodeId)
      modifies this
      ensures workers == Heartbeat(old(workers), id)
    {
      if id !in workers {
        RegisterWorker(id);
      }
    }

    /** A live worker with the fewest running jobs, if any is live. */
    method LeastLoaded(live: set<NodeId>) returns (worker: Option<NodeId>)
      ensures worker.None? ==> live * workers.Keys == {}
      ensures worker.Some? ==> IsLeastLoaded(workers, live * workers.Keys, worker.value)
    {
      var rest := live * workers.Keys;
      worker := None;
      while rest != {}
        invariant rest <= live * workers.Keys
        invariant worker.None? ==> rest == live * workers.Keys
        invariant worker.Some? ==> IsLeastLoaded(workers, live * workers.Keys - rest, worker.value)
        decreases rest
      {
        var w :| w in rest;
        if worker.None? || |workers[w]| < |workers[worker.value]| {
          worker := Some(w);
        }
        rest := rest - {w};
      }
    }

    method JobStarted(worker: NodeId, job: JobId)
      modifies this
      ensures workers == Load(old(workers), worker, job)
    {
      if worker in workers {
        workers := workers[worker := workers[worker] + {job}];
      }
    }

    method JobCompleted(worker: NodeId, job: JobId)
      modifies this
      ensures workers == Unload(old(workers), worker, job)
    {
      if worker in workers {
        workers := workers[worker := workers[worker] - {job}];
      }
    }

    method Clear()
      modifies this
      ensures workers == map[]
    {
      workers := map[];
    }
  }

  ghost predicate IsLeastLoaded(w: Workers, among: set<NodeId>, worker: NodeId) {
    worker in among && worker in w && forall v :: v in among && v in w ==> |w[worker]| <= |w[v]|
  }

  /** Completing a job undoes its start, and a completion lowers the load of its worker
      by one, exactly when the worker was running the job, and of nobody else. */
  lemma CompletionUndoesStart(w: Workers, worker: NodeId, job: JobId, other: NodeId)
    requires worker in w && other in w
    ensures job !in w[worker] ==> Unload(Load(w, worker, job), worker, job) == w
    ensures |Unload(w, worker, job)[worker]| == |w[worker]| - if job in w[worker] then 1 else 0
    ensures other != worker ==> Unload(w, worker, job)[other] == w[other]
  {
    if job !in w[worker] {
      assert w[worker] + {job} - {job} == w[worker];
      assert Unload(Load(w, worker, job), worker, job) == w;
      assert w[worker] - {job} == w[worker];
    }
  }

  // ----- applying a batch of committed entries --------------------------------------------------

  method ApplyUpdateTo(queue: JobQueue, u: JobStatusUpdate)
    modifies queue
    ensures queue.View() == ApplyUpdate(old(queue.View()), u)
  {
    if u.jobId in queue.jobs && queue.jobs[u.jobId].status == Cancelled {
      return;
    }
    var found := queue.UpdateStatusMetadata(u);
  }

  method ApplyOne(queue: JobQueue, assigner: JobAssigner, c: Command, now: Time)
    modifies queue, assigner
    ensures Machine(queue.View(), assigner.workers) ==
            ApplyCommand(old(Machine(queue.View(), assigner.workers)), c, now)
  {
    match c
    case SubmitJob(id, command, createdAt, image) =>
      if id !in queue.jobs {
        var added := queue.AddJob(NewJob(id, command, createdAt, image));
      }
    case UpdateJobStatus(u) =>
      ApplyUpdateTo(queue, u);
    case BatchUpdateJobStatus(us) =>
      for i := 0 to |us|
        invariant queue.View() == ApplyUpdates(old(queue.View()), us[..i]) && unchanged(assigner)
      {
        ApplyUpdateTo(queue, us[i]);
        assert us[..i + 1][..i] == us[..i];
      }
      assert us[..|us|] == us;
    case RegisterWorker(id) =>
      assigner.RegisterWorker(id);
    case AssignJob(id, worker) =>
      if queue.View().Has(id, Pending) {
        var found := queue.AssignJob(id, worker);
        assigner.WorkerHeartbeat(worker);
      }
    case CancelJob(id) =>
      var cancelled := queue.CancelJob(id, now);
    case Noop =>
  }

  /** The apply loop folds the committed commands over the state machine. */
  method ApplyEntries(queue: JobQueue, assigner: JobAssigner, cs: seq<Timed>)
    modifies queue, assigner
    ensures Machine(queue.View(), assigner.workers) == ApplyAll(old(Machine(queue.View(), assigner.workers)), cs)
  {
    for i := 0 to |cs|
      invariant Machine(queue.View(), assigner.workers)
             == ApplyAll(old(Machine(queue.View(), assigner.workers)), cs[..i])
    {
      ApplyOne(queue, assigner, cs[i].command, cs[i].now);
      assert cs[..i + 1][..i] == cs[..i];
    }
    assert cs[..|cs|] == cs;
  }

  // ----- snapshots -------------------------------------------------------------------------------

  /** The listed jobs in snapshot form and the worker ids. */
  method BuildSnapshot(queue: JobQueue, assigner: JobAssigner, lastApplied: nat, lastTerm: nat)
    returns (snap: Snapshot, ghost list: seq<Job>)
    requires queue.View().Keyed()
    ensures snap.lastIncludedIndex == lastApplied && snap.lastIncludedTerm == lastTerm
    ensures IsListing(queue.View(), list) && snap.jobs == ToSnapshots(list)
    ensures forall w :: w in snap.workers <==> w in assigner.workers
  {
    var jobs := queue.AllJobs();
    list := jobs;
    var workers: seq<NodeId> := [];
    var rest := assigner.workers.Keys;
    while rest != {}
      invariant rest <= assigner.workers.Keys
      invariant forall w :: w in workers <==> w in assigner.workers && w !in rest
      decreases rest
    {
      var w :| w in rest;
      workers := workers + [w];
      rest := rest - {w};
    }
    snap := Snapshot(lastApplied, lastTerm, ToSnapshots(jobs), workers);
  }

  method RebuildFromSnapshot(queue: JobQueue, assigner: JobAssigner, snap: Snapshot)
    modifies queue, assigner
    ensures queue.View() == Rebuild(snap.jobs, old(queue.maxJobs)) && assigner.workers == RegisterAll(snap.workers)
  {
    queue.Clear();
    assigner.Clear();
    for i := 0 to |snap.jobs|
      invariant queue.View() == Rebuild(snap.jobs[..i], old(queue.maxJobs)) && assigner.workers == map[]
    {
      var added := queue.AddJob(FromSnapshot(snap.jobs[i]));
      assert snap.jobs[..i + 1][..i] == snap.jobs[..i];
    }
    assert snap.jobs[..|snap.jobs|] == snap.jobs;
    for i := 0 to |snap.workers|
      invariant queue.View() == Rebuild(snap.jobs, old(queue.maxJobs))
      invariant assigner.workers == RegisterAll(snap.workers[..i])
    {
      assigner.RegisterWorker(snap.workers[i]);
      assert snap.workers[..i + 1][..i] == snap.workers[..i];
    }
    assert snap.workers[..|snap.workers|] == snap.workers;
  }
}
