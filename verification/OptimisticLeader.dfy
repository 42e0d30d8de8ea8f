/** The leader marks a job as running before the assignment commits.  Its queue is run
    beside that of a follower that is fed the same commits and nothing else. */
module OptimisticLeader {
  import opened Types
  import opened Jobs

  /** The two queues after the same commits, and the log that has not committed yet. */
  datatype Pair = Pair(leader: Machine, follower: Machine, tail: seq<Command>)

  datatype Move =
    | Mark(job: JobId, worker: NodeId)      // the drain loop assigns and proposes
    | Propose(command: Command)             // anything else enters the log
    | Commit(leaderNow: Time, followerNow: Time)

  predicate Enabled(p: Pair, v: Move) {
    match v
    case Mark(job, _) => p.leader.queue.Has(job, Pending)
    case Propose(_) => true
    case Commit(_, _) => p.tail != []
  }

  /** The leader's own queue is marked at once; the load set is the leader's alone. */
  function MarkLocally(m: Machine, job: JobId, worker: NodeId): Machine {
    Machine(m.queue.AssignJob(job, worker), Load(m.workers, worker, job))
  }

  function Next(p: Pair, v: Move): Pair
    requires Enabled(p, v)
  {
    match v
    case Mark(job, worker) =>
      p.(leader := MarkLocally(p.leader, job, worker), tail := p.tail + [AssignJob(job, worker)])
    case Propose(command) => p.(tail := p.tail + [command])
    case Commit(leaderNow, followerNow) =>
      Pair(ApplyCommand(p.leader, p.tail[0], leaderNow), ApplyCommand(p.follower, p.tail[0], followerNow), p.tail[1..])
  }

  ghost predicate IsRun(p: Pair, vs: seq<Move>, q: Pair)
    decreases |vs|
  {
    if vs == [] then q == p
    else Enabled(p, vs[0]) && IsRun(Next(p, vs[0]), vs[1..], q)
  }

  /** An assignment of the job is in the log and has not committed. */
  ghost predicate Outstanding(tail: seq<Command>, job: JobId) {
    exists i :: 0 <= i < |tail| && tail[i].AssignJob? && tail[i].jobId == job
  }

  /** Everything but who runs it, and when this node saw it finish. */
  predicate SameJob(a: Job, b: Job) {
    && a.id == b.id && a.command == b.command && a.image == b.image
    && a.executedBy == b.executedBy && a.exitCode == b.exitCode && a.createdAt == b.createdAt
    && (a.completedAt.Some? <==> b.completedAt.Some?)
  }

  /** Marked early, not yet assigned at the follower. */
  ghost predicate Ahead(a: Job, b: Job, tail: seq<Command>, id: JobId) {
    a.status == Running && b.status == Pending && Outstanding(tail, id)
  }

  ghost predicate JobsAgree(a: Job, b: Job, tail: seq<Command>, id: JobId) {
    SameJob(a, b) && (a.status == b.status || Ahead(a, b, tail, id))
  }

  ghost predicate Agrees(l: Queue, f: Queue, tail: seq<Command>) {
    && l.maxJobs == f.maxJobs && l.jobs.Keys == f.jobs.Keys
    && (forall id :: id in l.jobs ==> JobsAgree(l.jobs[id], f.jobs[id], tail, id))
  }

  lemma SameActive(l: Queue, f: Queue, tail: seq<Command>)
    requires Agrees(l, f, tail)
    ensures l.ActiveIds() == f.ActiveIds()
  {
  }

  // ----- steps --------------------------------------------------------------------------

  lemma LongerTail(l: Queue, f: Queue, tail: seq<Command>, c: Command)
    requires Agrees(l, f, tail)
    ensures Agrees(l, f, tail + [c])
  {
    forall id | Outstanding(tail, id) ensures Outstanding(tail + [c], id) {
      var i :| 0 <= i < |tail| && tail[i].AssignJob? && tail[i].jobId == id;
      assert (tail + [c])[i] == tail[i];
    }
  }

  lemma MarkAgrees(l: Queue, f: Queue, tail: seq<Command>, job: JobId, worker: NodeId)
    requires Agrees(l, f, tail) && l.Has(job, Pending)
    ensures Agrees(l.AssignJob(job, worker), f, tail + [AssignJob(job, worker)])
  {
    LongerTail(l, f, tail, AssignJob(job, worker));
    assert (tail + [AssignJob(job, worker)])[|tail|] == AssignJob(job, worker);
    assert Outstanding(tail + [AssignJob(job, worker)], job);
  }

  /** Dropping the head of the log leaves every other job's assignment outstanding. */
  lemma ShorterTail(tail: seq<Command>, id: JobId)
    requires tail != [] && Outstanding(tail, id)
    ensures Outstanding(tail[1..], id) || (tail[0].AssignJob? && tail[0].jobId == id)
  {
    var i :| 0 <= i < |tail| && tail[i].AssignJob? && tail[i].jobId == id;
    if i > 0 {
      assert tail[1..][i - 1] == tail[i];
    }
  }

  lemma OtherHead(l: Queue, f: Queue, tail: seq<Command>)
    requires Agrees(l, f, tail) && tail != [] && !tail[0].AssignJob?
    ensures Agrees(l, f, tail[1..])
  {
    forall id | Outstanding(tail, id) ensures Outstanding(tail[1..], id) {
      ShorterTail(tail, id);
    }
  }

  lemma UpdateAgrees(l: Queue, f: Queue, tail: seq<Command>, u: JobStatusUpdate)
    requires Agrees(l, f, tail)
    ensures Agrees(ApplyUpdate(l, u), ApplyUpdate(f, u), tail)
  {
  }

  lemma {:induction false} UpdatesAgree(l: Queue, f: Queue, tail: seq<Command>, us: seq<JobStatusUpdate>)
    requires Agrees(l, f, tail)
    ensures Agrees(ApplyUpdates(l, us), ApplyUpdates(f, us), tail)
  {
    if us != [] {
      var n := |us| - 1;
      UpdatesAgree(l, f, tail, us[..n]);
      UpdateAgrees(ApplyUpdates(l, us[..n]), ApplyUpdates(f, us[..n]), tail, us[n]);
    }
  }

  lemma SubmitAgrees(l: Queue, f: Queue, tail: seq<Command>, job: Job)
    requires Agrees(l, f, tail)
    ensures Agrees(l.AddJob(job), f.AddJob(job), tail)
  {
    SameActive(l, f, tail);
  }

  lemma CancelAgrees(l: Queue, f: Queue, tail: seq<Command>, id: JobId, now: Time, now': Time)
    requires Agrees(l, f, tail)
    ensures Agrees(l.CancelJob(id, now), f.CancelJob(id, now'), tail)
  {
  }

  /** Committing an assignment: the follower catches up with the mark. */
  lemma AssignAgrees(p: Pair, now: Time, now': Time)
    requires Agrees(p.leader.queue, p.follower.queue, p.tail) && p.tail != [] && p.tail[0].AssignJob?
    ensures Agrees(ApplyCommand(p.leader, p.tail[0], now).queue,
                   ApplyCommand(p.follower, p.tail[0], now').queue, p.tail[1..])
  {
    var l, f := p.leader.queue, p.follower.queue;
    var l', f' := ApplyCommand(p.leader, p.tail[0], now).queue, ApplyCommand(p.follower, p.tail[0], now').queue;
    forall id | id in l'.jobs ensures JobsAgree(l'.jobs[id], f'.jobs[id], p.tail[1..], id) {
      assert JobsAgree(l.jobs[id], f.jobs[id], p.tail, id);
      if id != p.tail[0].jobId && Outstanding(p.tail, id) {
        ShorterTail(p.tail, id);
      }
    }
  }

  lemma CommitAgrees(p: Pair, now: Time, now': Time)
    requires Agrees(p.leader.queue, p.follower.queue, p.tail) && p.tail != []
    ensures Agrees(ApplyCommand(p.leader, p.tail[0], now).queue,
                   ApplyCommand(p.follower, p.tail[0], now').queue, p.tail[1..])
  {
    var l, f := p.leader.queue, p.follower.queue;
    if p.tail[0].AssignJob? {
      AssignAgrees(p, now, now');
    } else {
      OtherHead(l, f, p.tail);
      match p.tail[0]
      case SubmitJob(id, command, createdAt, image) =>
        SubmitAgrees(l, f, p.tail[1..], NewJob(id, command, createdAt, image));
      case UpdateJobStatus(u) => UpdateAgrees(l, f, p.tail[1..], u);
      case BatchUpdateJobStatus(us) => UpdatesAgree(l, f, p.tail[1..], us);
      case CancelJob(id) => CancelAgrees(l, f, p.tail[1..], id, now, now');
      case _ =>
    }
  }

  lemma MoveAgrees(p: Pair, v: Move)
    requires Agrees(p.leader.queue, p.follower.queue, p.tail) && Enabled(p, v)
    ensures var q := Next(p, v); Agrees(q.leader.queue, q.follower.queue, q.tail)
  {
    match v
    case Mark(job, worker) => MarkAgrees(p.leader.queue, p.follower.queue, p.tail, job, worker);
    case Propose(command) => LongerTail(p.leader.queue, p.follower.queue, p.tail, command);
    case Commit(now, now') => CommitAgrees(p, now, now');
  }

  lemma {:induction false} RunAgrees(p: Pair, vs: seq<Move>, q: Pair)
    requires Agrees(p.leader.queue, p.follower.queue, p.tail) && IsRun(p, vs, q)
    ensures Agrees(q.leader.queue, q.follower.queue, q.tail)
    decreases |vs|
  {
    if vs != [] {
      MoveAgrees(p, vs[0]);
      RunAgrees(Next(p, vs[0]), vs[1..], q);
    }
  }

  /** Over every run from equal queues: the same jobs, the same active jobs, statuses that
      differ only on outstanding assignments, and none that differ once none is. */
  lemma LeaderRefinesReplica(m: Machine, vs: seq<Move>, q: Pair)
    requires IsRun(Pair(m, m, []), vs, q)
    ensures q.leader.queue.jobs.Keys == q.follower.queue.jobs.Keys
    ensures q.leader.queue.ActiveIds() == q.follower.queue.ActiveIds()
    ensures forall id :: id in q.leader.queue.jobs ==>
              JobsAgree(q.leader.queue.jobs[id], q.follower.queue.jobs[id], q.tail, id)
    ensures (forall id :: !Outstanding(q.tail, id)) ==>
              forall id :: id in q.leader.queue.jobs ==>
                q.leader.queue.jobs[id].status == q.follower.queue.jobs[id].status
  {
    RunAgrees(Pair(m, m, []), vs, q);
    SameActive(q.leader.queue, q.follower.queue, q.tail);
  }

  // ----- who runs a job ------------------------------------------------------------------------

  /** How often the commands assign the job. */
  function Assigns(cs: seq<Command>, id: JobId): nat {
    if cs == [] then 0
    else Assigns(cs[1..], id) + if cs[0].AssignJob? && cs[0].jobId == id then 1 else 0
  }

  /** What a move adds to the log. */
  function Added(v: Move): seq<Command> {
    match v
    case Mark(job, worker) => [AssignJob(job, worker)]
    case Propose(command) => [command]
    case Commit(_, _) => []
  }

  function AddedBy(vs: seq<Move>): seq<Command> {
    if vs == [] then [] else Added(vs[0]) + AddedBy(vs[1..])
  }

  /** No update of the job sets an active status. */
  ghost predicate OnlyFinishesJob(c: Command, id: JobId) {
    forall i :: 0 <= i < |UpdatesOf(c)| && UpdatesOf(c)[i].jobId == id ==> !IsActive(UpdatesOf(c)[i].status)
  }

  ghost predicate AllFinish(cs: seq<Command>, id: JobId) {
    forall i :: 0 <= i < |cs| ==> OnlyFinishesJob(cs[i], id)
  }

  /** Active at both, the job has one worker; marked ahead, the one its assignment names. */
  ghost predicate SameWorker(p: Pair, id: JobId) {
    && Agrees(p.leader.queue, p.follower.queue, p.tail) && AllFinish(p.tail, id)
    && (id in p.leader.queue.jobs ==> OneWorker(p.leader.queue.jobs[id], p.follower.queue.jobs[id], p.tail, id))
  }

  ghost predicate OneWorker(a: Job, b: Job, tail: seq<Command>, id: JobId) {
    if a.status == b.status then IsActive(a.status) ==> a.assignedWorker == b.assignedWorker
    else Names(tail, id, a.assignedWorker)
  }

  ghost predicate Names(tail: seq<Command>, id: JobId, worker: Option<NodeId>) {
    exists i :: 0 <= i < |tail| && tail[i].AssignJob? && tail[i].jobId == id && Some(tail[i].workerId) == worker
  }

  lemma {:induction false} AssignsJoin(a: seq<Command>, b: seq<Command>, id: JobId)
    ensures Assigns(a + b, id) == Assigns(a, id) + Assigns(b, id)
  {
    if a == [] {
      assert a + b == b;
    } else {
      assert (a + b)[1..] == a[1..] + b;
      AssignsJoin(a[1..], b, id);
    }
  }

  lemma {:induction false} AssignsOnce(tail: seq<Command>, id: JobId, i: nat)
    requires i < |tail| && tail[i].AssignJob? && tail[i].jobId == id
    ensures Assigns(tail, id) >= 1
  {
    if i > 0 {
      AssignsOnce(tail[1..], id, i - 1);
    }
  }

  lemma NamesLonger(tail: seq<Command>, c: Command, id: JobId, worker: Option<NodeId>)
    requires Names(tail, id, worker)
    ensures Names(tail + [c], id, worker)
  {
    var i :| 0 <= i < |tail| && tail[i].AssignJob? && tail[i].jobId == id && Some(tail[i].workerId) == worker;
    assert (tail + [c])[i] == tail[i];
  }

  lemma ProposeSame(p: Pair, c: Command, id: JobId)
    requires SameWorker(p, id) && OnlyFinishesJob(c, id)
    ensures SameWorker(p.(tail := p.tail + [c]), id)
  {
    var l, f := p.leader.queue, p.follower.queue;
    LongerTail(l, f, p.tail, c);
    if id in l.jobs && l.jobs[id].status != f.jobs[id].status {
      NamesLonger(p.tail, c, id, l.jobs[id].assignedWorker);
    }
  }

  lemma MarkSame(p: Pair, job: JobId, worker: NodeId, id: JobId)
    requires SameWorker(p, id) && p.leader.queue.Has(job, Pending)
    ensures SameWorker(Next(p, Mark(job, worker)), id)
  {
    var l, f, c := p.leader.queue, p.follower.queue, AssignJob(job, worker);
    MarkAgrees(l, f, p.tail, job, worker);
    assert (p.tail + [c])[|p.tail|] == c;
    if job == id {
      assert Names(p.tail + [c], id, Some(worker));
    } else if id in l.jobs && l.jobs[id].status != f.jobs[id].status {
      NamesLonger(p.tail, c, id, l.jobs[id].assignedWorker);
    }
  }

  /** The head of the log names the job's worker, or the rest does. */
  lemma NamesShorter(tail: seq<Command>, id: JobId, worker: Option<NodeId>)
    requires Names(tail, id, worker) && tail != []
    ensures Names(tail[1..], id, worker)
         || (tail[0].AssignJob? && tail[0].jobId == id && Some(tail[0].workerId) == worker)
    ensures Assigns(tail, id) <= 1 && tail[0].AssignJob? && tail[0].jobId == id ==> Some(tail[0].workerId) == worker
  {
    var i :| 0 <= i < |tail| && tail[i].AssignJob? && tail[i].jobId == id && Some(tail[i].workerId) == worker;
    if i > 0 {
      assert tail[1..][i - 1] == tail[i];
      AssignsOnce(tail[1..], id, i - 1);
    }
  }

  lemma AssignSame(p: Pair, now: Time, now': Time, id: JobId)
    requires SameWorker(p, id) && p.tail != [] && p.tail[0].AssignJob? && Assigns(p.tail, id) <= 1
    ensures SameWorker(Next(p, Commit(now, now')), id)
  {
    AssignAgrees(p, now, now');
    var l, f := p.leader.queue, p.follower.queue;
    if id in l.jobs && l.jobs[id].status != f.jobs[id].status {
      NamesShorter(p.tail, id, l.jobs[id].assignedWorker);
    }
  }

  /** The command may finish the job. */
  ghost predicate Affects(c: Command, id: JobId) {
    Touches(UpdatesOf(c), id) || c == CancelJob(id)
  }

  /** Short of an assignment, a command leaves a job as it was or finished. */
  lemma CommandEffect(m: Machine, c: Command, now: Time, id: JobId)
    requires id in m.queue.jobs && !c.AssignJob? && OnlyFinishesJob(c, id)
    ensures var q' := ApplyCommand(m, c, now).queue;
            && id in q'.jobs
            && if Affects(c, id) then !IsActive(q'.jobs[id].status) else q'.jobs[id] == m.queue.jobs[id]
  {
    CommandStep(m, c, now, id);
    if c.UpdateJobStatus? || c.BatchUpdateJobStatus? {
      UpdatesApplied(m, c, now);
      if m.queue.jobs[id].status != Cancelled {
        StatusAfter(m.queue, UpdatesOf(c), id);
      }
    }
  }

  /** A job that appears has not been assigned. */
  lemma Newcomer(m: Machine, c: Command, now: Time, id: JobId)
    requires id !in m.queue.jobs && id in ApplyCommand(m, c, now).queue.jobs
    ensures ApplyCommand(m, c, now).queue.jobs[id].assignedWorker == None
  {
    if c.UpdateJobStatus? || c.BatchUpdateJobStatus? {
      UpdatesApplied(m, c, now);
      UpdatesAddNoJob(m.queue, UpdatesOf(c));
    }
  }

  lemma OtherSame(p: Pair, now: Time, now': Time, id: JobId)
    requires SameWorker(p, id) && p.tail != [] && !p.tail[0].AssignJob?
    ensures SameWorker(Next(p, Commit(now, now')), id)
  {
    CommitAgrees(p, now, now');
    var c := p.tail[0];
    assert OnlyFinishesJob(c, id);
    if id in p.leader.queue.jobs {
      var a, b := p.leader.queue.jobs[id], p.follower.queue.jobs[id];
      CommandEffect(p.leader, c, now, id);
      CommandEffect(p.follower, c, now', id);
      if a.status != b.status {
        NamesShorter(p.tail, id, a.assignedWorker);
      }
    } else if id in ApplyCommand(p.leader, c, now).queue.jobs {
      Newcomer(p.leader, c, now, id);
      Newcomer(p.follower, c, now', id);
      NewAgrees(p, now, now', id);
    }
  }

  lemma NewAgrees(p: Pair, now: Time, now': Time, id: JobId)
    requires Agrees(p.leader.queue, p.follower.queue, p.tail) && p.tail != []
    requires id !in p.leader.queue.jobs && id in ApplyCommand(p.leader, p.tail[0], now).queue.jobs
    ensures id in ApplyCommand(p.follower, p.tail[0], now').queue.jobs
    ensures ApplyCommand(p.leader, p.tail[0], now).queue.jobs[id].status
         == ApplyCommand(p.follower, p.tail[0], now').queue.jobs[id].status
  {
    CommitAgrees(p, now, now');
    var c := p.tail[0];
    if c.UpdateJobStatus? || c.BatchUpdateJobStatus? {
      UpdatesApplied(p.leader, c, now);
      UpdatesAddNoJob(p.leader.queue, UpdatesOf(c));
    }
  }

  lemma MoveSame(p: Pair, v: Move, id: JobId)
    requires SameWorker(p, id) && Enabled(p, v) && AllFinish(Added(v), id) && Assigns(p.tail, id) <= 1
    ensures SameWorker(Next(p, v), id)
  {
    match v
    case Mark(job, worker) => MarkSame(p, job, worker, id);
    case Propose(command) =>
      assert OnlyFinishesJob(Added(v)[0], id);
      ProposeSame(p, command, id);
    case Commit(now, now') =>
      if p.tail[0].AssignJob? {
        AssignSame(p, now, now', id);
      } else {
        OtherSame(p, now, now', id);
      }
  }

  lemma CountsLeft(p: Pair, v: Move, rest: seq<Command>, id: JobId)
    requires Enabled(p, v)
    ensures Assigns(Next(p, v).tail + rest, id) <= Assigns(p.tail + (Added(v) + rest), id)
  {
    AssignsJoin(Next(p, v).tail, rest, id);
    AssignsJoin(p.tail, Added(v) + rest, id);
    AssignsJoin(Added(v), rest, id);
    AssignsJoin(p.tail, Added(v), id);
  }

  lemma {:induction false} RunSame(p: Pair, vs: seq<Move>, q: Pair, id: JobId)
    requires SameWorker(p, id) && IsRun(p, vs, q)
    requires Assigns(p.tail + AddedBy(vs), id) <= 1 && AllFinish(AddedBy(vs), id)
    ensures SameWorker(q, id)
    decreases |vs|
  {
    if vs != [] {
      AssignsJoin(p.tail, AddedBy(vs), id);
      assert AddedBy(vs) == Added(vs[0]) + AddedBy(vs[1..]);
      assert AllFinish(Added(vs[0]), id) by {
        assert forall i :: 0 <= i < |Added(vs[0])| ==> Added(vs[0])[i] == AddedBy(vs)[i];
      }
      assert AllFinish(AddedBy(vs[1..]), id) by {
        var k := |Added(vs[0])|;
        assert forall i :: 0 <= i < |AddedBy(vs[1..])| ==> AddedBy(vs[1..])[i] == AddedBy(vs)[i + k];
      }
      MoveSame(p, vs[0], id);
      CountsLeft(p, vs[0], AddedBy(vs[1..]), id);
      RunSame(Next(p, vs[0]), vs[1..], q, id);
    }
  }

  /** A job that is assigned at most once, and whose updates only finish it, runs on the
      same worker at the leader and at the follower. */
  lemma RunsOnOneWorker(m: Machine, vs: seq<Move>, q: Pair, id: JobId)
    requires IsRun(Pair(m, m, []), vs, q)
    requires Assigns(AddedBy(vs), id) <= 1 && AllFinish(AddedBy(vs), id)
    ensures q.leader.queue.Has(id, Running) && q.follower.queue.Has(id, Running) ==>
              q.leader.queue.jobs[id].assignedWorker == q.follower.queue.jobs[id].assignedWorker
  {
    assert [] + AddedBy(vs) == AddedBy(vs);
    RunSame(Pair(m, m, []), vs, q, id);
  }
}
