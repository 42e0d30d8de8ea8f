/** What a log comes to: the jobs and workers of a replica that has applied it, whatever its
    clock said, and what a node's own snapshot must hold of them. */
module JobFolds {
  import opened Types
  import RaftSpec
  import opened Logs
  import opened Jobs
  import opened JobSnapshots
  import Compaction
  import CompactedCluster

  // ----- clocks --------------------------------------------------------------------------------------

  /** Equal, except for when each replica saw the job cancelled. */
  predicate SameButClock(a: Job, b: Job) {
    a == b || (a.status == Cancelled && b.status == Cancelled && a == b.(completedAt := a.completedAt))
  }

  ghost predicate AlikeQueues(a: Queue, b: Queue) {
    && a.maxJobs == b.maxJobs && a.jobs.Keys == b.jobs.Keys
    && forall id :: id in a.jobs ==> SameButClock(a.jobs[id], b.jobs[id])
  }

  ghost predicate Alike(a: Machine, b: Machine) {
    AlikeQueues(a.queue, b.queue) && a.workers.Keys == b.workers.Keys
  }

  lemma AlikeActive(a: Queue, b: Queue)
    requires AlikeQueues(a, b)
    ensures a.ActiveIds() == b.ActiveIds()
  {
  }

  lemma {:induction false} AlikeUpdates(a: Queue, b: Queue, us: seq<JobStatusUpdate>)
    requires AlikeQueues(a, b)
    ensures AlikeQueues(ApplyUpdates(a, us), ApplyUpdates(b, us))
  {
    if us != [] {
      AlikeUpdates(a, b, us[..|us| - 1]);
    }
  }

  lemma AlikeUpdate(a: Queue, b: Queue, u: JobStatusUpdate)
    requires AlikeQueues(a, b)
    ensures AlikeQueues(ApplyUpdate(a, u), ApplyUpdate(b, u))
  {
  }

  lemma AlikeCancel(a: Queue, b: Queue, id: JobId, now: Time, now': Time)
    requires AlikeQueues(a, b)
    ensures AlikeQueues(a.CancelJob(id, now), b.CancelJob(id, now'))
  {
  }

  lemma AlikeAssign(a: Machine, b: Machine, id: JobId, worker: NodeId)
    requires Alike(a, b)
    ensures Alike(ApplyCommand(a, AssignJob(id, worker), 0), ApplyCommand(b, AssignJob(id, worker), 0))
  {
  }

  lemma AlikeAdd(a: Queue, b: Queue, job: Job)
    requires AlikeQueues(a, b)
    ensures AlikeQueues(a.AddJob(job), b.AddJob(job))
  {
    AlikeActive(a, b);
  }

  lemma AlikeCommand(a: Machine, b: Machine, c: Command, now: Time, now': Time)
    requires Alike(a, b)
    ensures Alike(ApplyCommand(a, c, now), ApplyCommand(b, c, now'))
  {
    match c
    case SubmitJob(id, command, createdAt, image) => AlikeAdd(a.queue, b.queue, NewJob(id, command, createdAt, image));
    case UpdateJobStatus(u) => AlikeUpdate(a.queue, b.queue, u);
    case BatchUpdateJobStatus(us) => AlikeUpdates(a.queue, b.queue, us);
    case AssignJob(id, worker) => AlikeAssign(a, b, id, worker);
    case CancelJob(id) => AlikeCancel(a.queue, b.queue, id, now, now');
    case _ =>
  }

  /** The commands of a log, with the clock readings of the replica that applies them. */
  function Stamp(log: Log, clock: seq<Time>): seq<Timed>
    requires |log| <= |clock|
  {
    seq(|log|, i requires 0 <= i < |log| => Timed(log[i].command, clock[i]))
  }

  lemma {:induction false} AlikeRuns(m: Machine, log: Log, clock: seq<Time>, clock': seq<Time>)
    requires |log| <= |clock| && |log| <= |clock'|
    ensures Alike(ApplyAll(m, Stamp(log, clock)), ApplyAll(m, Stamp(log, clock')))
  {
    if log != [] {
      var n := |log| - 1;
      AlikeRuns(m, log[..n], clock, clock');
      assert Stamp(log, clock)[..n] == Stamp(log[..n], clock) && Stamp(log, clock')[..n] == Stamp(log[..n], clock');
      AlikeCommand(ApplyAll(m, Stamp(log[..n], clock)), ApplyAll(m, Stamp(log[..n], clock')), log[n].command,
                   clock[n], clock'[n]);
    }
  }

  lemma AlikeSame(a: Machine, b: Machine, c: Machine, d: Machine)
    requires SameReplica(a, b) && Alike(b, c) && SameReplica(d, c)
    ensures Alike(a, d)
  {
  }

  function Empty(capacity: nat): Machine {
    Machine(Queue(map[], capacity), map[])
  }

  // ----- folds of a log ------------------------------------------------------------------------------

  /** Some replica that applied exactly these entries has these jobs and workers. */
  ghost predicate IsFold(m: Machine, log: Log, capacity: nat) {
    exists clock: seq<Time> ::
      |clock| == |log| && SameReplica(m, ApplyAll(Empty(capacity), Stamp(log, clock)))
  }

  lemma EmptyFold(capacity: nat)
    ensures IsFold(Empty(capacity), [], capacity)
  {
    var none: seq<Time> := [];
    assert Stamp([], none) == [];
    assert SameReplica(Empty(capacity), ApplyAll(Empty(capacity), Stamp([], none)));
  }

  lemma StampJoins(a: Log, b: Log, clock: seq<Time>, clock': seq<Time>)
    requires |a| == |clock| && |b| <= |clock'|
    ensures Stamp(a + b, clock + clock') == Stamp(a, clock) + Stamp(b, clock')
  {
  }

  lemma TakenClock(log: Log, clock: seq<Time>)
    requires |log| <= |clock|
    ensures Stamp(log, clock) == Stamp(log, clock[..|log|])
  {
  }

  /** Applying the next entries of the log extends the fold by them. */
  lemma FoldExtends(m: Machine, log: Log, more: Log, clock: seq<Time>, capacity: nat)
    requires IsFold(m, log, capacity) && |more| <= |clock|
    ensures IsFold(ApplyAll(m, Stamp(more, clock)), log + more, capacity)
  {
    var before: seq<Time> :| |before| == |log| && SameReplica(m, ApplyAll(Empty(capacity), Stamp(log, before)));
    var fold, all := ApplyAll(Empty(capacity), Stamp(log, before)), before + clock[..|more|];
    TakenClock(more, clock);
    StampJoins(log, more, before, clock[..|more|]);
    ApplyAllJoins(Empty(capacity), Stamp(log, before), Stamp(more, clock));
    SameReplicaKept(m, fold, Stamp(more, clock));
    assert |all| == |log + more|;
    assert SameReplica(ApplyAll(m, Stamp(more, clock)), ApplyAll(Empty(capacity), Stamp(log + more, all)));
  }

  lemma FoldReaches(m: Machine, log: Log, o: nat, x: nat, clock: seq<Time>, capacity: nat)
    requires o <= x <= |log| && x - o <= |clock| && IsFold(m, log[..o], capacity)
    ensures IsFold(ApplyAll(m, Stamp(log[o..x], clock)), log[..x], capacity)
  {
    FoldExtends(m, log[..o], log[o..x], clock, capacity);
    assert log[..o] + log[o..x] == log[..x];
  }

  lemma FoldSame(m: Machine, m': Machine, log: Log, capacity: nat)
    requires IsFold(m, log, capacity) && SameReplica(m', m)
    ensures IsFold(m', log, capacity)
  {
    var clock: seq<Time> :| |clock| == |log| && SameReplica(m, ApplyAll(Empty(capacity), Stamp(log, clock)));
    assert SameReplica(m', ApplyAll(Empty(capacity), Stamp(log, clock)));
  }

  lemma {:induction false} CapacityStays(m: Machine, cs: seq<Timed>)
    ensures ApplyAll(m, cs).queue.maxJobs == m.queue.maxJobs && (m.queue.Keyed() ==> ApplyAll(m, cs).queue.Keyed())
  {
    if cs != [] {
      var n := |cs| - 1;
      CapacityStays(m, cs[..n]);
      KeyedStays(ApplyAll(m, cs[..n]), cs[n].command, cs[n].now);
    }
  }

  lemma KeyedStays(m: Machine, c: Command, now: Time)
    ensures ApplyCommand(m, c, now).queue.maxJobs == m.queue.maxJobs
    ensures m.queue.Keyed() ==> ApplyCommand(m, c, now).queue.Keyed()
  {
    if c.BatchUpdateJobStatus? {
      UpdatesKeyed(m.queue, c.updates);
    }
  }

  lemma {:induction false} UpdatesKeyed(q: Queue, us: seq<JobStatusUpdate>)
    ensures ApplyUpdates(q, us).maxJobs == q.maxJobs && (q.Keyed() ==> ApplyUpdates(q, us).Keyed())
  {
    if us != [] {
      UpdatesKeyed(q, us[..|us| - 1]);
    }
  }

  lemma FoldShape(m: Machine, log: Log, capacity: nat)
    requires IsFold(m, log, capacity)
    ensures m.queue.maxJobs == capacity && m.queue.Keyed()
  {
    var clock: seq<Time> :| |clock| == |log| && SameReplica(m, ApplyAll(Empty(capacity), Stamp(log, clock)));
    CapacityStays(Empty(capacity), Stamp(log, clock));
  }

  /** Two folds of one log differ in the times of cancellations at most. */
  lemma FoldsAlike(a: Machine, b: Machine, log: Log, capacity: nat)
    requires IsFold(a, log, capacity) && IsFold(b, log, capacity)
    ensures Alike(a, b)
  {
    var ca: seq<Time> :| |ca| == |log| && SameReplica(a, ApplyAll(Empty(capacity), Stamp(log, ca)));
    var cb: seq<Time> :| |cb| == |log| && SameReplica(b, ApplyAll(Empty(capacity), Stamp(log, cb)));
    AlikeRuns(Empty(capacity), log, ca, cb);
    AlikeSame(a, ApplyAll(Empty(capacity), Stamp(log, ca)), ApplyAll(Empty(capacity), Stamp(log, cb)), b);
  }

  // ----- what a node's own snapshot holds ------------------------------------------------------------

  /** The machine a node is rebuilt to from the snapshot it keeps. */
  function RebuiltFrom(s: RaftSpec.NodeState, capacity: nat): Machine {
    if s.snapshot.None? then Empty(capacity)
    else Machine(Rebuild(s.snapshot.value.jobs, capacity), RegisterAll(s.snapshot.value.workers))
  }

  /** A listing that can be restored: there is room, and no job names node 0. */
  ghost predicate Restorable(m: Machine, list: seq<Job>) {
    IsListing(m.queue, list) && Fits(list, m.queue.maxJobs) && NamesNoZero(m.queue)
  }

  ghost predicate Lists(m: Machine, jobs: seq<SnapshotJob>, workers: seq<NodeId>) {
    && (exists list :: Restorable(m, list) && jobs == ToSnapshots(list))
    && (forall w :: w in workers <==> w in m.workers)
  }

  lemma ListedRestores(m: Machine, jobs: seq<SnapshotJob>, workers: seq<NodeId>)
    requires m.queue.Keyed() && Lists(m, jobs, workers)
    ensures SameReplica(Machine(Rebuild(jobs, m.queue.maxJobs), RegisterAll(workers)), m)
  {
    var list :| Restorable(m, list) && jobs == ToSnapshots(list);
    RebuildExact(m.queue, list);
    RegisteredKeys(workers);
    assert RegisterAll(workers).Keys == m.workers.Keys;
  }

  /** The node's snapshot is a fold of the entries it stands for, and its machine of those it
      has applied; u is the node without compaction. */
  ghost predicate Faithful(m: Machine, s: RaftSpec.NodeState, u: RaftSpec.NodeState, capacity: nat) {
    && s.logOffset <= s.lastApplied <= |u.log|
    && IsFold(RebuiltFrom(s, capacity), u.log[..s.logOffset], capacity)
    && IsFold(m, u.log[..s.lastApplied], capacity)
  }

  // ----- steps ---------------------------------------------------------------------------------------

  lemma CompactFaithful(m: Machine, s: RaftSpec.NodeState, u: RaftSpec.NodeState, threshold: nat,
                        jobs: seq<SnapshotJob>, workers: seq<NodeId>, capacity: nat)
    requires Faithful(m, s, u, capacity)
    requires RaftSpec.MaybeCompact(s, threshold, jobs, workers) != s ==> Lists(m, jobs, workers)
    ensures Faithful(m, RaftSpec.MaybeCompact(s, threshold, jobs, workers), u, capacity)
  {
    var s' := RaftSpec.MaybeCompact(s, threshold, jobs, workers);
    if s' != s {
      FoldShape(m, u.log[..s.lastApplied], capacity);
      ListedRestores(m, jobs, workers);
      FoldSame(m, RebuiltFrom(s', capacity), u.log[..s.lastApplied], capacity);
    }
  }

  lemma BatchIsNext(s: RaftSpec.NodeState, u: RaftSpec.NodeState)
    requires CompactedCluster.Beside(s, u)
    ensures s.lastApplied <= s.commitIndex <= |u.log|
    ensures RaftSpec.TakeCommitted(s).1 == u.log[s.lastApplied..s.commitIndex]
    ensures RaftSpec.TakeCommitted(s).0 == s.(lastApplied := s.commitIndex)
  {
    Compaction.ApplyTwin(s, u.(lastApplied := s.lastApplied));
    CompactedCluster.BesideEnds(s, u);
  }

  lemma BatchFaithful(m: Machine, s: RaftSpec.NodeState, u: RaftSpec.NodeState, x: nat, clock: seq<Time>, capacity: nat)
    requires Faithful(m, s, u, capacity) && s.lastApplied <= x <= |u.log| && x - s.lastApplied <= |clock|
    ensures Faithful(ApplyAll(m, Stamp(u.log[s.lastApplied..x], clock)), s.(lastApplied := x), u, capacity)
  {
    FoldExtends(m, u.log[..s.lastApplied], u.log[s.lastApplied..x], clock, capacity);
    assert u.log[..s.lastApplied] + u.log[s.lastApplied..x] == u.log[..x];
  }

  lemma ApplyFaithful(m: Machine, s: RaftSpec.NodeState, u: RaftSpec.NodeState, clock: seq<Time>, capacity: nat)
    requires Faithful(m, s, u, capacity) && CompactedCluster.Beside(s, u)
    requires |RaftSpec.TakeCommitted(s).1| <= |clock|
    ensures Faithful(ApplyAll(m, Stamp(RaftSpec.TakeCommitted(s).1, clock)), RaftSpec.TakeCommitted(s).0, u, capacity)
  {
    BatchIsNext(s, u);
    BatchFaithful(m, s, u, s.commitIndex, clock, capacity);
  }

  lemma RestartFaithful(m: Machine, s: RaftSpec.NodeState, u: RaftSpec.NodeState,
                        s': RaftSpec.NodeState, u': RaftSpec.NodeState, capacity: nat)
    requires Faithful(m, s, u, capacity) && s'.snapshot == s.snapshot && s'.logOffset == s.logOffset == s'.lastApplied
    requires u'.log == u.log
    ensures Faithful(RebuiltFrom(s', capacity), s', u', capacity)
  {
  }

  lemma QuietFaithful(m: Machine, s: RaftSpec.NodeState, u: RaftSpec.NodeState,
                      s': RaftSpec.NodeState, u': RaftSpec.NodeState, capacity: nat)
    requires Faithful(m, s, u, capacity) && Agree(u.log, u'.log, s.lastApplied)
    requires s'.snapshot == s.snapshot && s'.logOffset == s.logOffset && s'.lastApplied == s.lastApplied
    ensures Faithful(m, s', u', capacity)
  {
    assert u'.log[..s.lastApplied] == u.log[..s.lastApplied] && u'.log[..s.logOffset] == u.log[..s.logOffset];
  }
}
