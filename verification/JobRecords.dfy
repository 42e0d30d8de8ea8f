/** What a queue shows of a job, field by field: the last command that spoke of it decides,
    over every sequence of commands. */
module JobRecords {
  import opened Types
  import opened Jobs

  /** The command can change a job that the queue has. */
  ghost predicate Speaks(c: Command, id: JobId) {
    Touches(UpdatesOf(c), id) || c == CancelJob(id) || (c.AssignJob? && c.jobId == id)
  }

  ghost predicate Quiet(cs: seq<Timed>, id: JobId) {
    forall i :: 0 <= i < |cs| ==> !Speaks(cs[i].command, id)
  }

  lemma QuietCommand(m: Machine, c: Command, now: Time, id: JobId)
    requires id in m.queue.jobs && !Speaks(c, id)
    ensures id in ApplyCommand(m, c, now).queue.jobs && ApplyCommand(m, c, now).queue.jobs[id] == m.queue.jobs[id]
  {
    if c.UpdateJobStatus? || c.BatchUpdateJobStatus? {
      UpdatesApplied(m, c, now);
      UntouchedByAll(m.queue, UpdatesOf(c), id);
    }
  }

  lemma {:induction false} UntouchedByAll(q: Queue, us: seq<JobStatusUpdate>, id: JobId)
    requires id in q.jobs && !Touches(us, id)
    ensures id in ApplyUpdates(q, us).jobs && ApplyUpdates(q, us).jobs[id] == q.jobs[id]
  {
    if us != [] {
      LastUpdate(us, id);
      UntouchedByAll(q, us[..|us| - 1], id);
    }
  }

  lemma {:induction false} QuietRun(m: Machine, cs: seq<Timed>, id: JobId)
    requires id in m.queue.jobs && Quiet(cs, id)
    ensures id in ApplyAll(m, cs).queue.jobs && ApplyAll(m, cs).queue.jobs[id] == m.queue.jobs[id]
  {
    if cs != [] {
      var n := |cs| - 1;
      QuietRun(m, cs[..n], id);
      QuietCommand(ApplyAll(m, cs[..n]), cs[n].command, cs[n].now, id);
    }
  }

  /** After some commands, one that speaks of the job, and others that do not. */
  function Then(before: seq<Timed>, c: Timed, rest: seq<Timed>): seq<Timed> {
    before + [c] + rest
  }

  lemma LastWord(m: Machine, before: seq<Timed>, c: Timed, rest: seq<Timed>, id: JobId)
    requires id in ApplyCommand(ApplyAll(m, before), c.command, c.now).queue.jobs && Quiet(rest, id)
    ensures var q := ApplyAll(m, Then(before, c, rest)).queue;
            id in q.jobs && q.jobs[id] == ApplyCommand(ApplyAll(m, before), c.command, c.now).queue.jobs[id]
  {
    ApplyAllJoins(m, before + [c], rest);
    assert (before + [c])[..|before|] == before;
    QuietRun(ApplyAll(m, before + [c]), rest, id);
  }

  // ----- updates -------------------------------------------------------------------------------------

  /** Update i is the last that the batch has of the job, and none before it cancels it. */
  ghost predicate Final(us: seq<JobStatusUpdate>, i: nat, id: JobId) {
    && i < |us| && us[i].jobId == id
    && (forall j :: i < j < |us| ==> us[j].jobId != id)
    && (forall j :: 0 <= j < i && us[j].jobId == id ==> us[j].status != Cancelled)
  }

  /** What the update says of the job is so; what it does not speak of is as before. */
  predicate Shows(job: Job, was: Job, u: JobStatusUpdate) {
    && job.status == u.status && job.executedBy == Some(u.executedBy)
    && job.exitCode == u.exitCode && job.completedAt == u.completedAt
    && job.id == was.id && job.command == was.command && job.image == was.image
    && job.createdAt == was.createdAt && job.assignedWorker == was.assignedWorker
  }

  /** Everything but the fields that updates write. */
  predicate SameIdentity(a: Job, b: Job) {
    && a.id == b.id && a.command == b.command && a.image == b.image && a.createdAt == b.createdAt
    && a.assignedWorker == b.assignedWorker
  }

  lemma {:induction false} IdentityKept(q: Queue, us: seq<JobStatusUpdate>, id: JobId)
    requires id in q.jobs
    ensures id in ApplyUpdates(q, us).jobs && SameIdentity(ApplyUpdates(q, us).jobs[id], q.jobs[id])
  {
    if us != [] {
      IdentityKept(q, us[..|us| - 1], id);
    }
  }

  lemma {:induction false} FinalShows(q: Queue, us: seq<JobStatusUpdate>, i: nat, id: JobId)
    requires id in q.jobs && q.jobs[id].status != Cancelled && Final(us, i, id)
    ensures id in ApplyUpdates(q, us).jobs && Shows(ApplyUpdates(q, us).jobs[id], q.jobs[id], us[i])
  {
    var n := |us| - 1;
    if i < n {
      FinalShows(q, us[..n], i, id);
    } else {
      StatusAfter(q, us[..n], id);
      IdentityKept(q, us[..n], id);
    }
  }

  /** A job that is not cancelled shows its last update until another command speaks of it. */
  lemma UpdateStands(m: Machine, before: seq<Timed>, c: Timed, rest: seq<Timed>, i: nat, id: JobId)
    requires var q := ApplyAll(m, before).queue; id in q.jobs && q.jobs[id].status != Cancelled
    requires Final(UpdatesOf(c.command), i, id) && Quiet(rest, id)
    ensures var q := ApplyAll(m, Then(before, c, rest)).queue;
            id in q.jobs && Shows(q.jobs[id], ApplyAll(m, before).queue.jobs[id], UpdatesOf(c.command)[i])
  {
    var at := ApplyAll(m, before);
    UpdatesApplied(at, c.command, c.now);
    FinalShows(at.queue, UpdatesOf(c.command), i, id);
    LastWord(m, before, c, rest, id);
  }

  // ----- assignments and cancellations -----------------------------------------------------------------

  /** A pending job is given to the named worker and runs there; any other job is left alone. */
  lemma AssignmentStands(m: Machine, before: seq<Timed>, worker: NodeId, now: Time, rest: seq<Timed>, id: JobId)
    requires id in ApplyAll(m, before).queue.jobs && Quiet(rest, id)
    ensures var q, was := ApplyAll(m, Then(before, Timed(AssignJob(id, worker), now), rest)).queue,
                          ApplyAll(m, before).queue.jobs[id];
            && id in q.jobs
            && (was.status == Pending ==>
                  && q.jobs[id].status == Running && q.jobs[id].assignedWorker == Some(worker)
                  && q.jobs[id].id == was.id && q.jobs[id].command == was.command && q.jobs[id].image == was.image
                  && q.jobs[id].executedBy == was.executedBy && q.jobs[id].exitCode == was.exitCode
                  && q.jobs[id].createdAt == was.createdAt && q.jobs[id].completedAt == was.completedAt)
            && (was.status != Pending ==> q.jobs[id] == was)
  {
    LastWord(m, before, Timed(AssignJob(id, worker), now), rest, id);
  }

  /** An active job is cancelled at the time its cancellation is applied; a finished job is
      left alone. */
  lemma CancellationStands(m: Machine, before: seq<Timed>, now: Time, rest: seq<Timed>, id: JobId)
    requires id in ApplyAll(m, before).queue.jobs && Quiet(rest, id)
    ensures var q, was := ApplyAll(m, Then(before, Timed(CancelJob(id), now), rest)).queue,
                          ApplyAll(m, before).queue.jobs[id];
            && id in q.jobs
            && (IsActive(was.status) ==>
                  && q.jobs[id].status == Cancelled && q.jobs[id].completedAt == Some(now)
                  && SameIdentity(q.jobs[id], was)
                  && q.jobs[id].executedBy == was.executedBy && q.jobs[id].exitCode == was.exitCode)
            && (!IsActive(was.status) ==> q.jobs[id] == was)
  {
    LastWord(m, before, Timed(CancelJob(id), now), rest, id);
  }

  // ----- submissions ------------------------------------------------------------------------------------

  /** The job is what the submission asked for, not yet given to anybody. */
  predicate AsSubmitted(job: Job, c: Command) {
    && c.SubmitJob? && job.id == c.jobId && job.command == c.command && job.image == c.image
    && job.createdAt == c.createdAt && job.status == Pending
    && job.assignedWorker == None && job.executedBy == None && job.exitCode == None && job.completedAt == None
  }

  /** A job is in the queue after a command exactly when it was, or is submitted while fewer
      jobs are active than there is capacity for; it is then as submitted. */
  lemma SubmissionExact(m: Machine, c: Command, now: Time, id: JobId)
    ensures id in ApplyCommand(m, c, now).queue.jobs <==>
              || id in m.queue.jobs
              || (c.SubmitJob? && c.jobId == id && |m.queue.ActiveIds()| < m.queue.maxJobs)
    ensures id !in m.queue.jobs && id in ApplyCommand(m, c, now).queue.jobs ==>
              AsSubmitted(ApplyCommand(m, c, now).queue.jobs[id], c)
    ensures ApplyCommand(m, c, now).queue.maxJobs == m.queue.maxJobs
  {
    CommandStep(m, c, now, id);
    if c.UpdateJobStatus? || c.BatchUpdateJobStatus? {
      UpdatesApplied(m, c, now);
      UpdatesAddNoJob(m.queue, UpdatesOf(c));
      CapacityKept(m.queue, UpdatesOf(c));
    }
  }

  lemma {:induction false} CapacityKept(q: Queue, us: seq<JobStatusUpdate>)
    ensures ApplyUpdates(q, us).maxJobs == q.maxJobs
  {
    if us != [] {
      CapacityKept(q, us[..|us| - 1]);
    }
  }

  /** What was submitted never changes. */
  predicate SameOrder(job: Job, c: Command) {
    && c.SubmitJob? && job.id == c.jobId && job.command == c.command && job.image == c.image
    && job.createdAt == c.createdAt
  }

  lemma OrderKept(m: Machine, c: Command, now: Time, id: JobId)
    requires id in m.queue.jobs
    ensures id in ApplyCommand(m, c, now).queue.jobs
    ensures var a, b := ApplyCommand(m, c, now).queue.jobs[id], m.queue.jobs[id];
            a.id == b.id && a.command == b.command && a.image == b.image && a.createdAt == b.createdAt
  {
    CommandStep(m, c, now, id);
    if c.UpdateJobStatus? || c.BatchUpdateJobStatus? {
      UpdatesApplied(m, c, now);
      IdentityKept(m.queue, UpdatesOf(c), id);
    }
  }

  /** Over every sequence, a job that was not there before carries the id, command, image and
      time of the submission that found room for it. */
  lemma {:induction false} SubmissionStands(m: Machine, cs: seq<Timed>, id: JobId)
    requires id !in m.queue.jobs && id in ApplyAll(m, cs).queue.jobs
    ensures exists i :: && 0 <= i < |cs| && id !in ApplyAll(m, cs[..i]).queue.jobs
                        && |ApplyAll(m, cs[..i]).queue.ActiveIds()| < ApplyAll(m, cs[..i]).queue.maxJobs
                        && SameOrder(ApplyAll(m, cs).queue.jobs[id], cs[i].command)
  {
    var n := |cs| - 1;
    var at := ApplyAll(m, cs[..n]);
    SubmissionExact(at, cs[n].command, cs[n].now, id);
    if id in at.queue.jobs {
      SubmissionStands(m, cs[..n], id);
      var i :| && 0 <= i < n && id !in ApplyAll(m, cs[..n][..i]).queue.jobs
               && |ApplyAll(m, cs[..n][..i]).queue.ActiveIds()| < ApplyAll(m, cs[..n][..i]).queue.maxJobs
               && SameOrder(at.queue.jobs[id], cs[..n][i].command);
      assert cs[..n][..i] == cs[..i] && cs[..n][i] == cs[i];
      OrderKept(at, cs[n].command, cs[n].now, id);
    }
  }

  // ----- workers -----------------------------------------------------------------------------------------

  /** The command makes the worker known. */
  predicate Introduces(m: Machine, c: Command, worker: NodeId) {
    c == RegisterWorker(worker) || (c.AssignJob? && c.workerId == worker && m.queue.Has(c.jobId, Pending))
  }

  lemma WorkersStep(m: Machine, c: Command, now: Time, worker: NodeId)
    ensures worker in ApplyCommand(m, c, now).workers <==> worker in m.workers || Introduces(m, c, worker)
    ensures worker in m.workers && worker in ApplyCommand(m, c, now).workers ==>
              ApplyCommand(m, c, now).workers[worker] == if c == RegisterWorker(worker) then {} else m.workers[worker]
  {
  }

  ghost predicate Introduced(m: Machine, cs: seq<Timed>, worker: NodeId) {
    exists i :: 0 <= i < |cs| && Introduces(ApplyAll(m, cs[..i]), cs[i].command, worker)
  }

  lemma IntroducedLast(m: Machine, cs: seq<Timed>, worker: NodeId)
    requires cs != []
    ensures var n := |cs| - 1;
            Introduced(m, cs, worker) <==>
              Introduced(m, cs[..n], worker) || Introduces(ApplyAll(m, cs[..n]), cs[n].command, worker)
  {
    var n := |cs| - 1;
    assert forall i :: 0 <= i < n ==> cs[..n][..i] == cs[..i] && cs[..n][i] == cs[i];
    if Introduced(m, cs[..n], worker) {
      var i :| 0 <= i < n && Introduces(ApplyAll(m, cs[..n][..i]), cs[..n][i].command, worker);
      assert Introduces(ApplyAll(m, cs[..i]), cs[i].command, worker);
    }
    if Introduced(m, cs, worker) && !Introduces(ApplyAll(m, cs[..n]), cs[n].command, worker) {
      var i :| 0 <= i < |cs| && Introduces(ApplyAll(m, cs[..i]), cs[i].command, worker);
      assert Introduces(ApplyAll(m, cs[..n][..i]), cs[..n][i].command, worker);
    }
  }

  /** Over every sequence, the known workers are those that were known, were registered, or
      were given a pending job. */
  lemma {:induction false} WorkersExact(m: Machine, cs: seq<Timed>, worker: NodeId)
    ensures worker in ApplyAll(m, cs).workers <==> worker in m.workers || Introduced(m, cs, worker)
  {
    if cs != [] {
      var n := |cs| - 1;
      WorkersExact(m, cs[..n], worker);
      WorkersStep(ApplyAll(m, cs[..n]), cs[n].command, cs[n].now, worker);
      IntroducedLast(m, cs, worker);
    }
  }

  /** A worker that registers starts with nothing to do, and only the leader's own marks, not
      the log, give it anything. */
  lemma {:induction false} RegistrationClears(m: Machine, before: seq<Timed>, worker: NodeId, now: Time,
                                              rest: seq<Timed>)
    ensures var w := ApplyAll(m, Then(before, Timed(RegisterWorker(worker), now), rest)).workers;
            worker in w && w[worker] == {}
    decreases |rest|
  {
    var c := Timed(RegisterWorker(worker), now);
    var cs := Then(before, c, rest);
    if rest == [] {
      assert cs[..|cs| - 1] == before;
    } else {
      var n := |rest| - 1;
      RegistrationClears(m, before, worker, now, rest[..n]);
      assert cs[..|cs| - 1] == Then(before, c, rest[..n]);
      WorkersStep(ApplyAll(m, cs[..|cs| - 1]), rest[n].command, rest[n].now, worker);
    }
  }
}
