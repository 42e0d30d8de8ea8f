/** Early marks whose assignment never commits: the leader does not wait for the proposal to
    be appended, and an entry that is appended may still be overwritten.  The leader's
    queue then shows a job as running that no other queue does. */
module LostMarks {
  import opened Types
  import opened Jobs
  import opened OptimisticLeader
  import opened JobRecords
  import opened JobSnapshots

  datatype Deed =
    | Ordinary(move: Move)
    | Lose(job: JobId, worker: NodeId)      // marked, and never appended
    | Overwrite(kept: nat)                  // a new leader replaces the rest of the tail

  predicate CanDo(p: Pair, d: Deed) {
    match d
    case Ordinary(v) => Enabled(p, v)
    case Lose(job, _) => p.leader.queue.Has(job, Pending)
    case Overwrite(kept) => kept <= |p.tail|
  }

  function Done(p: Pair, d: Deed): Pair
    requires CanDo(p, d)
  {
    match d
    case Ordinary(v) => Next(p, v)
    case Lose(job, worker) => p.(leader := MarkLocally(p.leader, job, worker))
    case Overwrite(kept) => p.(tail := p.tail[..kept])
  }

  /** The same job, which the leader may believe to be running already. */
  predicate Level(a: Job, b: Job) {
    SameJob(a, b) && (a.status == b.status || (a.status == Running && b.status == Pending))
  }

  ghost predicate Tracks(l: Queue, f: Queue) {
    && l.maxJobs == f.maxJobs && l.jobs.Keys == f.jobs.Keys
    && forall id :: id in l.jobs ==> Level(l.jobs[id], f.jobs[id])
  }

  // ----- the queues keep track of one another ------------------------------------------------------

  /** Assignments that would explain every difference. */
  lemma {:induction false} Excuses(l: Queue, f: Queue, ids: set<JobId>) returns (tail: seq<Command>)
    requires Tracks(l, f) && ids <= l.jobs.Keys
    ensures forall id :: id in ids ==> Outstanding(tail, id)
  {
    tail := [];
    if ids != {} {
      var id :| id in ids;
      var rest := Excuses(l, f, ids - {id});
      tail := rest + [AssignJob(id, 0)];
      assert tail[|rest|] == AssignJob(id, 0) && Outstanding(tail, id);
      forall k | k in ids - {id} ensures Outstanding(tail, k) {
        var i :| 0 <= i < |rest| && rest[i].AssignJob? && rest[i].jobId == k;
        assert tail[i] == rest[i];
      }
    }
  }

  lemma TracksAgrees(l: Queue, f: Queue) returns (tail: seq<Command>)
    requires Tracks(l, f)
    ensures Agrees(l, f, tail)
  {
    tail := Excuses(l, f, l.jobs.Keys);
  }

  lemma AgreesTracks(l: Queue, f: Queue, tail: seq<Command>)
    requires Agrees(l, f, tail)
    ensures Tracks(l, f)
  {
  }

  lemma CommandTracks(l: Machine, f: Machine, c: Command, now: Time, now': Time)
    requires Tracks(l.queue, f.queue)
    ensures Tracks(ApplyCommand(l, c, now).queue, ApplyCommand(f, c, now').queue)
  {
    var tail := TracksAgrees(l.queue, f.queue);
    var p := Pair(l, f, [c] + tail);
    assert p.tail[1..] == tail;
    forall id | Outstanding(tail, id) ensures Outstanding(p.tail, id) {
      var i :| 0 <= i < |tail| && tail[i].AssignJob? && tail[i].jobId == id;
      assert p.tail[i + 1] == tail[i];
    }
    CommitAgrees(p, now, now');
    AgreesTracks(ApplyCommand(l, c, now).queue, ApplyCommand(f, c, now').queue, tail);
  }

  lemma DeedTracks(p: Pair, d: Deed)
    requires Tracks(p.leader.queue, p.follower.queue) && CanDo(p, d)
    ensures var q := Done(p, d); Tracks(q.leader.queue, q.follower.queue)
  {
    if d.Ordinary? && d.move.Commit? {
      CommandTracks(p.leader, p.follower, p.tail[0], d.move.leaderNow, d.move.followerNow);
    }
  }

  // ----- when a difference has no excuse, exactly -----------------------------------------------------

  ghost predicate Differ(p: Pair, id: JobId) {
    && id in p.leader.queue.jobs && id in p.follower.queue.jobs
    && p.leader.queue.jobs[id].status != p.follower.queue.jobs[id].status
  }

  /** The leader believes the job to be running and nothing in the log will make it so. */
  ghost predicate Stranded(p: Pair, id: JobId) {
    Differ(p, id) && !Outstanding(p.tail, id)
  }

  lemma {:induction false} TouchedAlike(l: Queue, f: Queue, us: seq<JobStatusUpdate>, id: JobId)
    requires id in l.jobs && id in f.jobs && l.jobs[id].status != Cancelled && f.jobs[id].status != Cancelled
    requires Touches(us, id)
    ensures id in ApplyUpdates(l, us).jobs && id in ApplyUpdates(f, us).jobs
    ensures ApplyUpdates(l, us).jobs[id].status == ApplyUpdates(f, us).jobs[id].status
  {
    var before := us[..|us| - 1];
    LastUpdate(us, id);
    StatusAfter(l, before, id);
    StatusAfter(f, before, id);
    if Touches(before, id) {
      TouchedAlike(l, f, before, id);
    }
  }

  lemma CommandSettles(l: Machine, f: Machine, c: Command, now: Time, now': Time, id: JobId)
    requires Tracks(l.queue, f.queue) && id in l.queue.jobs && l.queue.jobs[id].status != f.queue.jobs[id].status
    ensures var l', f' := ApplyCommand(l, c, now).queue, ApplyCommand(f, c, now').queue;
            id in l'.jobs && id in f'.jobs && (l'.jobs[id].status != f'.jobs[id].status <==> !Speaks(c, id))
  {
    CommandStep(l, c, now, id);
    CommandStep(f, c, now', id);
    if c.UpdateJobStatus? || c.BatchUpdateJobStatus? {
      UpdatesApplied(l, c, now);
      UpdatesApplied(f, c, now');
      if Touches(UpdatesOf(c), id) {
        TouchedAlike(l.queue, f.queue, UpdatesOf(c), id);
      } else {
        StatusAfter(l.queue, UpdatesOf(c), id);
        StatusAfter(f.queue, UpdatesOf(c), id);
      }
    }
  }

  lemma {:induction false} UpdatesAlike(l: Queue, f: Queue, us: seq<JobStatusUpdate>, id: JobId)
    requires id in l.jobs && id in f.jobs && l.jobs[id].status == f.jobs[id].status
    ensures id in ApplyUpdates(l, us).jobs && id in ApplyUpdates(f, us).jobs
    ensures ApplyUpdates(l, us).jobs[id].status == ApplyUpdates(f, us).jobs[id].status
  {
    if us != [] {
      UpdatesAlike(l, f, us[..|us| - 1], id);
    }
  }

  lemma CommandAlike(l: Machine, f: Machine, c: Command, now: Time, now': Time, id: JobId)
    requires Tracks(l.queue, f.queue)
    requires id in l.queue.jobs ==> l.queue.jobs[id].status == f.queue.jobs[id].status
    ensures var l', f' := ApplyCommand(l, c, now).queue, ApplyCommand(f, c, now').queue;
            id in l'.jobs && id in f'.jobs ==> l'.jobs[id].status == f'.jobs[id].status
  {
    if (c.UpdateJobStatus? || c.BatchUpdateJobStatus?) && id in l.queue.jobs {
      UpdatesApplied(l, c, now);
      UpdatesApplied(f, c, now');
      UpdatesAlike(l.queue, f.queue, UpdatesOf(c), id);
    } else if c.UpdateJobStatus? || c.BatchUpdateJobStatus? {
      UpdatesApplied(l, c, now);
      UpdatesAddNoJob(l.queue, UpdatesOf(c));
    }
  }

  lemma CommitDiffers(p: Pair, now: Time, now': Time, id: JobId)
    requires Tracks(p.leader.queue, p.follower.queue) && p.tail != []
    ensures Differ(Next(p, Commit(now, now')), id) <==> Differ(p, id) && !Speaks(p.tail[0], id)
  {
    if Differ(p, id) {
      CommandSettles(p.leader, p.follower, p.tail[0], now, now', id);
    } else {
      CommandAlike(p.leader, p.follower, p.tail[0], now, now', id);
    }
  }

  lemma OutstandingHead(tail: seq<Command>, id: JobId)
    requires tail != []
    ensures Outstanding(tail, id) <==> Outstanding(tail[1..], id) || (tail[0].AssignJob? && tail[0].jobId == id)
  {
    if Outstanding(tail, id) {
      ShorterTail(tail, id);
    }
    if Outstanding(tail[1..], id) {
      var i :| 0 <= i < |tail[1..]| && tail[1..][i].AssignJob? && tail[1..][i].jobId == id;
      assert tail[i + 1] == tail[1..][i];
    }
  }

  lemma OutstandingLast(tail: seq<Command>, c: Command, id: JobId)
    ensures Outstanding(tail + [c], id) <==> Outstanding(tail, id) || (c.AssignJob? && c.jobId == id)
  {
    if Outstanding(tail, id) {
      var i :| 0 <= i < |tail| && tail[i].AssignJob? && tail[i].jobId == id;
      assert (tail + [c])[i] == tail[i];
    }
    assert (tail + [c])[|tail|] == c;
  }

  /** Exactly what strands a job and what settles it. */
  ghost predicate StrandedAfter(p: Pair, d: Deed, id: JobId) {
    match d
    case Ordinary(Mark(_, _)) => Stranded(p, id)
    case Ordinary(Propose(c)) => Stranded(p, id) && !(c.AssignJob? && c.jobId == id)
    case Ordinary(Commit(_, _)) => p.tail != [] && Stranded(p, id) && !Speaks(p.tail[0], id)
    case Lose(job, _) => Stranded(p, id) || (id == job && !Outstanding(p.tail, id))
    case Overwrite(kept) => kept <= |p.tail| && Differ(p, id) && !Outstanding(p.tail[..kept], id)
  }

  lemma StrandedExact(p: Pair, d: Deed, id: JobId)
    requires Tracks(p.leader.queue, p.follower.queue) && CanDo(p, d)
    ensures Stranded(Done(p, d), id) <==> StrandedAfter(p, d, id)
  {
    match d
    case Ordinary(Mark(job, worker)) => OutstandingLast(p.tail, AssignJob(job, worker), id);
    case Ordinary(Propose(c)) => OutstandingLast(p.tail, c, id);
    case Ordinary(Commit(now, now')) =>
      CommitDiffers(p, now, now', id);
      OutstandingHead(p.tail, id);
    case Lose(_, _) =>
    case Overwrite(_) =>
  }

  // ----- runs -----------------------------------------------------------------------------------------

  ghost predicate IsHistory(p: Pair, ds: seq<Deed>, q: Pair)
    decreases |ds|
  {
    if ds == [] then q == p
    else CanDo(p, ds[0]) && IsHistory(Done(p, ds[0]), ds[1..], q)
  }

  lemma {:induction false} HistoryTracks(p: Pair, ds: seq<Deed>, q: Pair)
    requires Tracks(p.leader.queue, p.follower.queue) && IsHistory(p, ds, q)
    ensures Tracks(q.leader.queue, q.follower.queue)
    decreases |ds|
  {
    if ds != [] {
      DeedTracks(p, ds[0]);
      HistoryTracks(Done(p, ds[0]), ds[1..], q);
    }
  }

  /** Over every history, losses included: the same jobs, of which the same are active, and
      statuses that differ only where the leader shows a pending job as running; they
      differ with nothing outstanding exactly on the stranded jobs. */
  lemma LeaderTracksReplica(m: Machine, ds: seq<Deed>, q: Pair)
    requires IsHistory(Pair(m, m, []), ds, q)
    ensures q.leader.queue.jobs.Keys == q.follower.queue.jobs.Keys
    ensures q.leader.queue.ActiveIds() == q.follower.queue.ActiveIds()
    ensures forall id :: id in q.leader.queue.jobs ==> Level(q.leader.queue.jobs[id], q.follower.queue.jobs[id])
    ensures Agrees(q.leader.queue, q.follower.queue, q.tail) <==> forall id :: !Stranded(q, id)
  {
    HistoryTracks(Pair(m, m, []), ds, q);
    if Agrees(q.leader.queue, q.follower.queue, q.tail) {
      forall id ensures !Stranded(q, id) {
        if Differ(q, id) {
          assert JobsAgree(q.leader.queue.jobs[id], q.follower.queue.jobs[id], q.tail, id);
        }
      }
    } else if forall id :: !Stranded(q, id) {
      forall id | id in q.leader.queue.jobs
        ensures JobsAgree(q.leader.queue.jobs[id], q.follower.queue.jobs[id], q.tail, id)
      {
        assert !Stranded(q, id);
      }
    }
  }

  /** The deed says nothing of the job. */
  ghost predicate Silent(p: Pair, d: Deed, id: JobId) {
    match d
    case Ordinary(Propose(c)) => !(c.AssignJob? && c.jobId == id)
    case Ordinary(Commit(_, _)) => p.tail != [] ==> !Speaks(p.tail[0], id)
    case _ => true
  }

  /** Until something is said of it, a stranded job stays stranded, and the leader, which takes
      it to be running, does not assign it again. */
  lemma StaysStranded(p: Pair, d: Deed, id: JobId)
    requires Tracks(p.leader.queue, p.follower.queue) && CanDo(p, d) && Stranded(p, id) && Silent(p, d, id)
    ensures Stranded(Done(p, d), id)
    ensures !(d.Ordinary? && d.move.Mark? && d.move.job == id) && !(d.Lose? && d.job == id)
  {
    StrandedExact(p, d, id);
  }

  /** A job as its leader marks it, and nobody else. */
  const MARKED: Job := Job(1, "", None, Running, Some(7), None, None, 0, None)

  /** A mark that is lost strands its job. */
  lemma LostMark() returns (m: Machine, ds: seq<Deed>, q: Pair)
    ensures m.queue == Queue(map[], 1) && IsHistory(Pair(m, m, []), ds, q)
    ensures q.tail == [] && Stranded(q, 1) && q.follower.queue.Has(1, Pending)
    ensures q.leader.queue == Queue(map[1 := MARKED], 1)
  {
    m := Machine(Queue(map[], 1), map[]);
    var submit := SubmitJob(1, "", 0, None);
    var p0 := Pair(m, m, []);
    var p1 := Done(p0, Ordinary(Propose(submit)));
    var p2 := Done(p1, Ordinary(Commit(0, 0)));
    assert p2.tail == [] && p2.leader.queue.Has(1, Pending);
    q := Done(p2, Lose(1, 7));
    ds := [Ordinary(Propose(submit)), Ordinary(Commit(0, 0)), Lose(1, 7)];
    assert ds[1..] == [Ordinary(Commit(0, 0)), Lose(1, 7)] && ds[1..][1..] == [Lose(1, 7)] && [Lose(1, 7)][1..] == [];
    assert IsHistory(p2, [Lose(1, 7)], q);
    assert IsHistory(p1, ds[1..], q);
  }

  // ----- the leader's snapshot -------------------------------------------------------------------------

  /** A node rebuilt from the leader's snapshot shows the leader's early marks: on exactly those
      jobs it differs from a follower that applied the same commits. */
  lemma SnapshotSpreadsMarks(m: Machine, ds: seq<Deed>, q: Pair, list: seq<Job>, id: JobId)
    requires IsHistory(Pair(m, m, []), ds, q) && q.leader.queue.Keyed() && IsListing(q.leader.queue, list)
    requires Fits(list, q.leader.queue.maxJobs) && NamesNoZero(q.leader.queue) && id in q.follower.queue.jobs
    ensures id in Rebuilt(list, q.leader.queue.maxJobs).jobs
    ensures Rebuilt(list, q.leader.queue.maxJobs).jobs[id].status != q.follower.queue.jobs[id].status <==> Differ(q, id)
  {
    HistoryTracks(Pair(m, m, []), ds, q);
    RebuildExact(q.leader.queue, list);
  }

  /** Two followers without anything outstanding, of which one has installed the leader's
      snapshot, disagree on a job. */
  lemma SpreadMark() returns (m: Machine, ds: seq<Deed>, q: Pair, list: seq<Job>)
    ensures m.queue == Queue(map[], 1) && IsHistory(Pair(m, m, []), ds, q) && IsListing(q.leader.queue, list)
    ensures q.tail == [] && q.follower.queue.Has(1, Pending) && Rebuilt(list, 1).Has(1, Running)
  {
    m, ds, q := LostMark();
    list := [MARKED];
    assert list[0].id == 1 && Listed(list, 1);
    assert CountActive(list[..0]) == 0;
    RebuildExact(q.leader.queue, list);
  }
}
