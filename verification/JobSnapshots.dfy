/** Snapshots of the job state machine: building one after any applied prefix, rebuilding
    from it, and applying the rest of the log. */
module JobSnapshots {
  import opened Types
  import opened Jobs

  /** Absent node ids are written as zero. */
  function ToSnapshot(j: Job): SnapshotJob {
    SnapshotJob(j.id, j.command, j.status,
                if j.assignedWorker.Some? then j.assignedWorker.value else 0,
                if j.executedBy.Some? then j.executedBy.value else 0,
                j.exitCode, j.createdAt, j.completedAt, j.image)
  }

  function FromSnapshot(s: SnapshotJob): Job {
    Job(s.id, s.command, s.image, s.status,
        if s.assignedWorker == 0 then None else Some(s.assignedWorker),
        if s.executedBy == 0 then None else Some(s.executedBy),
        s.exitCode, s.createdAt, s.completedAt)
  }

  function ToSnapshots(list: seq<Job>): seq<SnapshotJob> {
    seq(|list|, i requires 0 <= i < |list| => ToSnapshot(list[i]))
  }

  /** Every job of the queue once, by creation time; jobs of equal time in any order. */
  ghost predicate IsListing(q: Queue, list: seq<Job>) {
    && (forall i, j :: 0 <= i < j < |list| ==> list[i].createdAt <= list[j].createdAt)
    && Distinct(list)
    && (forall i :: 0 <= i < |list| ==> list[i].id in q.jobs && q.jobs[list[i].id] == list[i])
    && (forall id :: id in q.jobs ==> Listed(list, id))
  }

  ghost predicate Distinct(list: seq<Job>) {
    forall i, j :: 0 <= i < j < |list| ==> list[i].id != list[j].id
  }

  ghost predicate Listed(list: seq<Job>, id: JobId) {
    exists i :: 0 <= i < |list| && list[i].id == id
  }

  /** Jobs go back in one by one, each subject to the capacity check. */
  function Rebuild(jobs: seq<SnapshotJob>, maxJobs: nat): Queue {
    if jobs == [] then Queue(map[], maxJobs)
    else Rebuild(jobs[..|jobs| - 1], maxJobs).AddJob(FromSnapshot(jobs[|jobs| - 1]))
  }

  function RegisterAll(workers: seq<NodeId>): Workers {
    if workers == [] then map[]
    else Register(RegisterAll(workers[..|workers| - 1]), workers[|workers| - 1])
  }

  function CountActive(list: seq<Job>): nat {
    if list == [] then 0
    else CountActive(list[..|list| - 1]) + if IsActive(list[|list| - 1].status) then 1 else 0
  }

  /** The active jobs before the last listed one leave room. */
  predicate Fits(list: seq<Job>, maxJobs: nat) {
    list == [] || CountActive(list[..|list| - 1]) < maxJobs
  }

  /** No job names node 0. */
  ghost predicate NamesNoZero(q: Queue) {
    forall id :: id in q.jobs ==> q.jobs[id].assignedWorker != Some(0) && q.jobs[id].executedBy != Some(0)
  }

  // ----- when a rebuild is faithful ------------------------------------------------------

  lemma RestoredJob(j: Job)
    ensures FromSnapshot(ToSnapshot(j)) == j <==> j.assignedWorker != Some(0) && j.executedBy != Some(0)
  {
  }

  function Restored(j: Job): Job {
    FromSnapshot(ToSnapshot(j))
  }

  function Rebuilt(list: seq<Job>, maxJobs: nat): Queue {
    Rebuild(ToSnapshots(list), maxJobs)
  }

  lemma RebuiltLast(list: seq<Job>, maxJobs: nat)
    requires list != []
    ensures Rebuilt(list, maxJobs) == Rebuilt(list[..|list| - 1], maxJobs).AddJob(Restored(list[|list| - 1]))
  {
    assert ToSnapshots(list)[..|list| - 1] == ToSnapshots(list[..|list| - 1]);
  }

  lemma ListedBefore(list: seq<Job>, id: JobId)
    requires Distinct(list) && list != [] && Listed(list[..|list| - 1], id)
    ensures Listed(list, id) && id != list[|list| - 1].id
  {
    var i :| 0 <= i < |list| - 1 && list[..|list| - 1][i].id == id;
    assert list[i].id == id;
  }

  lemma AddedActive(q: Queue, job: Job)
    requires job.id !in q.jobs && |q.ActiveIds()| < q.maxJobs
    ensures |q.AddJob(job).ActiveIds()| == |q.ActiveIds()| + if IsActive(job.status) then 1 else 0
  {
    assert q.AddJob(job).ActiveIds() == q.ActiveIds() + if IsActive(job.status) then {job.id} else {};
  }

  /** The rebuilt queue holds listed jobs only, and its active ones up to the capacity. */
  lemma {:induction false} RebuiltActive(list: seq<Job>, maxJobs: nat)
    requires Distinct(list)
    ensures Rebuilt(list, maxJobs).maxJobs == maxJobs
    ensures forall id :: id in Rebuilt(list, maxJobs).jobs ==> Listed(list, id)
    ensures |Rebuilt(list, maxJobs).ActiveIds()| == Min(CountActive(list), maxJobs)
  {
    if list == [] {
      assert Rebuilt(list, maxJobs).ActiveIds() == {};
    } else {
      var n := |list| - 1;
      var before := Rebuilt(list[..n], maxJobs);
      RebuiltActive(list[..n], maxJobs);
      RebuiltLast(list, maxJobs);
      forall id | Listed(list[..n], id) ensures Listed(list, id) && id != list[n].id {
        ListedBefore(list, id);
      }
      assert Listed(list, list[n].id);
      if |before.ActiveIds()| < maxJobs {
        AddedActive(before, Restored(list[n]));
      }
    }
  }

  lemma AddedLast(list: seq<Job>, q: Queue)
    requires Distinct(list) && list != [] && |q.ActiveIds()| < q.maxJobs
    requires forall i :: 0 <= i < |list| - 1 ==> list[i].id in q.jobs && q.jobs[list[i].id] == Restored(list[i])
    ensures var q' := q.AddJob(Restored(list[|list| - 1]));
            forall i :: 0 <= i < |list| ==> list[i].id in q'.jobs && q'.jobs[list[i].id] == Restored(list[i])
  {
  }

  /** With room for every listed job, every listed job comes back. */
  lemma {:induction false} RebuiltAll(list: seq<Job>, maxJobs: nat)
    requires Distinct(list) && Fits(list, maxJobs)
    ensures forall i :: 0 <= i < |list| ==>
              list[i].id in Rebuilt(list, maxJobs).jobs && Rebuilt(list, maxJobs).jobs[list[i].id] == Restored(list[i])
  {
    if list != [] {
      var n := |list| - 1;
      var before := Rebuilt(list[..n], maxJobs);
      assert Fits(list[..n], maxJobs);
      RebuiltAll(list[..n], maxJobs);
      RebuiltActive(list[..n], maxJobs);
      RebuiltLast(list, maxJobs);
      forall i | 0 <= i < n ensures list[i].id in before.jobs && before.jobs[list[i].id] == Restored(list[i]) {
        assert list[..n][i] == list[i];
      }
      AddedLast(list, before);
    }
  }

  /** Without room, the last listed job is lost. */
  lemma RebuiltLess(list: seq<Job>, maxJobs: nat)
    requires Distinct(list) && !Fits(list, maxJobs)
    ensures list[|list| - 1].id !in Rebuilt(list, maxJobs).jobs
  {
    var n := |list| - 1;
    RebuiltActive(list[..n], maxJobs);
    RebuiltLast(list, maxJobs);
    assert !Listed(list[..n], list[n].id);
  }

  /** A rebuild gives back the queue exactly when the active jobs before the last listed
      one leave room and no job names node 0. */
  lemma RebuildExact(q: Queue, list: seq<Job>)
    requires q.Keyed() && IsListing(q, list)
    ensures Rebuilt(list, q.maxJobs) == q <==> Fits(list, q.maxJobs) && NamesNoZero(q)
  {
    var r := Rebuilt(list, q.maxJobs);
    RebuiltActive(list, q.maxJobs);
    if Fits(list, q.maxJobs) {
      RebuiltAll(list, q.maxJobs);
      forall id | id in q.jobs ensures id in r.jobs && r.jobs[id] == Restored(q.jobs[id]) {
        var i :| 0 <= i < |list| && list[i].id == id;
      }
      forall id | id in r.jobs ensures id in q.jobs {
        var i :| 0 <= i < |list| && list[i].id == id;
      }
      forall id | id in q.jobs
        ensures r.jobs[id] == q.jobs[id] <==> q.jobs[id].assignedWorker != Some(0) && q.jobs[id].executedBy != Some(0) {
        RestoredJob(q.jobs[id]);
      }
      assert r.jobs.Keys == q.jobs.Keys;
    } else {
      RebuiltLess(list, q.maxJobs);
      assert list[|list| - 1].id in q.jobs;
    }
  }

  /** Active jobs below capacity always leave room. */
  lemma BelowCapacityFits(q: Queue, list: seq<Job>)
    requires q.Keyed() && IsListing(q, list) && |q.ActiveIds()| < q.maxJobs
    ensures Fits(list, q.maxJobs)
  {
    CountedOnce(q, list);
  }

  function ActiveListed(list: seq<Job>): set<JobId> {
    if list == [] then {}
    else ActiveListed(list[..|list| - 1]) + if IsActive(list[|list| - 1].status) then {list[|list| - 1].id} else {}
  }

  lemma {:induction false} CountedOnce(q: Queue, list: seq<Job>)
    requires Distinct(list) && forall i :: 0 <= i < |list| ==> list[i].id in q.jobs && q.jobs[list[i].id] == list[i]
    ensures ActiveListed(list) <= q.ActiveIds() && (forall id :: id in ActiveListed(list) ==> Listed(list, id))
    ensures CountActive(list) == |ActiveListed(list)| <= |q.ActiveIds()|
  {
    if list != [] {
      var n := |list| - 1;
      CountedOnce(q, list[..n]);
      forall id | id in ActiveListed(list[..n]) ensures Listed(list, id) && id != list[n].id {
        ListedBefore(list, id);
      }
      assert Listed(list, list[n].id);
    }
    SubsetSize(ActiveListed(list), q.ActiveIds());
  }

  // ----- the rest of the log -----------------------------------------------------------------

  /** Same replicated state: the jobs and the worker ids. */
  ghost predicate SameReplica(a: Machine, b: Machine) {
    a.queue == b.queue && a.workers.Keys == b.workers.Keys
  }

  lemma {:induction false} SameReplicaKept(a: Machine, b: Machine, cs: seq<Timed>)
    requires SameReplica(a, b)
    ensures SameReplica(ApplyAll(a, cs), ApplyAll(b, cs))
  {
    if cs != [] {
      SameReplicaKept(a, b, cs[..|cs| - 1]);
    }
  }

  lemma {:induction false} RegisteredKeys(workers: seq<NodeId>)
    ensures forall w :: w in RegisterAll(workers) <==> w in workers
  {
    if workers != [] {
      var n := |workers| - 1;
      RegisteredKeys(workers[..n]);
      assert workers == workers[..n] + [workers[n]];
    }
  }

  ghost predicate NamesNode(c: Command) {
    match c
    case UpdateJobStatus(u) => u.executedBy != 0
    case BatchUpdateJobStatus(us) => forall i :: 0 <= i < |us| ==> us[i].executedBy != 0
    case AssignJob(_, worker) => worker != 0
    case _ => true
  }

  ghost predicate Sound(q: Queue) {
    q.Keyed() && NamesNoZero(q)
  }

  lemma {:induction false} UpdatesSound(q: Queue, us: seq<JobStatusUpdate>)
    requires Sound(q) && forall i :: 0 <= i < |us| ==> us[i].executedBy != 0
    ensures Sound(ApplyUpdates(q, us))
  {
    if us != [] {
      UpdatesSound(q, us[..|us| - 1]);
    }
  }

  lemma {:induction false} SoundRun(m: Machine, cs: seq<Timed>)
    requires Sound(m.queue) && forall i :: 0 <= i < |cs| ==> NamesNode(cs[i].command)
    ensures Sound(ApplyAll(m, cs).queue) && ApplyAll(m, cs).queue.maxJobs == m.queue.maxJobs
  {
    if cs != [] {
      var n := |cs| - 1;
      SoundRun(m, cs[..n]);
      var before := ApplyAll(m, cs[..n]);
      CommandStep(before, cs[n].command, cs[n].now, 0);
      match cs[n].command
      case BatchUpdateJobStatus(us) => UpdatesSound(before.queue, us);
      case _ =>
    }
  }

  /** Snapshot after k commands, rebuild, apply the rest: the same jobs and worker ids as
      applying everything, if commands name real nodes and the snapshot leaves room. */
  lemma SnapshotPlusTail(m: Machine, cs: seq<Timed>, k: nat, list: seq<Job>, workers: seq<NodeId>)
    requires k <= |cs| && Sound(m.queue) && forall i :: 0 <= i < k ==> NamesNode(cs[i].command)
    requires IsListing(ApplyAll(m, cs[..k]).queue, list)
    requires forall w :: w in workers <==> w in ApplyAll(m, cs[..k]).workers
    requires Fits(list, m.queue.maxJobs)
    ensures SameReplica(ApplyAll(Machine(Rebuilt(list, m.queue.maxJobs), RegisterAll(workers)), cs[k..]),
                        ApplyAll(m, cs))
  {
    var at := ApplyAll(m, cs[..k]);
    SoundRun(m, cs[..k]);
    RebuildExact(at.queue, list);
    RegisteredKeys(workers);
    assert RegisterAll(workers).Keys == at.workers.Keys;
    SameReplicaKept(Machine(Rebuilt(list, m.queue.maxJobs), RegisterAll(workers)), at, cs[k..]);
    assert cs[..k] + cs[k..] == cs;
    ApplyAllJoins(m, cs[..k], cs[k..]);
  }

  /** A full queue whose last job has finished does not survive its own snapshot. */
  lemma FullQueueLosesJob() returns (cs: seq<Timed>, list: seq<Job>)
    ensures forall i :: 0 <= i < |cs| ==> OnlyFinishes(cs[i].command)
    ensures var q := ApplyAll(Machine(Queue(map[], 1), map[]), cs).queue;
            IsListing(q, list) && Rebuilt(list, 1) != q
  {
    cs := FullQueue();
    list := [EARLY, LATE];
    var q := ApplyAll(Machine(Queue(map[], 1), map[]), cs).queue;
    assert IsListing(q, list) by {
      assert Listed(list, list[0].id) && Listed(list, list[1].id);
    }
    assert !Fits(list, 1) by {
      assert list[..1] == [EARLY] && list[..1][..0] == [];
    }
    RebuildExact(q, list);
  }
}
