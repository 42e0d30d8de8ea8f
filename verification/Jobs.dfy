/** The replicated job state machine: the queue, the worker table, and the effect of each
    committed command on them.  The clock, which only cancellation reads, is passed in.
    Job output and error text stay on the executing node and are not modelled. */
module Jobs {
  import opened Types

  datatype Job = Job(
    id: JobId,
    command: string,
    image: Option<string>,
    status: JobStatus,
    assignedWorker: Option<NodeId>,
    executedBy: Option<NodeId>,
    exitCode: Option<int>,
    createdAt: Time,
    completedAt: Option<Time>)

  function NewJob(id: JobId, command: string, createdAt: Time, image: Option<string>): Job {
    Job(id, command, image, Pending, None, None, None, createdAt, None)
  }

  /** Pending and running jobs take up capacity. */
  predicate IsActive(status: JobStatus) {
    status == Pending || status == Running
  }

  datatype Queue = Queue(jobs: map<JobId, Job>, maxJobs: nat)
  {
    function ActiveIds(): set<JobId> {
      set id | id in jobs && IsActive(jobs[id].status)
    }

    /** A full queue drops the job. */
    function AddJob(job: Job): Queue {
      if |ActiveIds()| >= maxJobs then this else this.(jobs := jobs[job.id := job])
    }

    function UpdateStatusMetadata(u: JobStatusUpdate): Queue {
      if u.jobId !in jobs then this
      else this.(jobs := jobs[u.jobId :=
        jobs[u.jobId].(status := u.status, executedBy := Some(u.executedBy),
                       exitCode := u.exitCode, completedAt := u.completedAt)])
    }

    /** Whatever the job's status was. */
    function AssignJob(id: JobId, worker: NodeId): Queue {
      if id !in jobs then this
      else this.(jobs := jobs[id := jobs[id].(assignedWorker := Some(worker), status := Running)])
    }

    function CancelJob(id: JobId, now: Time): Queue {
      if id !in jobs || !IsActive(jobs[id].status) then this
      else this.(jobs := jobs[id := jobs[id].(status := Cancelled, completedAt := Some(now))])
    }

    predicate Has(id: JobId, status: JobStatus) {
      id in jobs && jobs[id].status == status
    }

    /** Jobs sit under their own ids. */
    ghost predicate Keyed() {
      forall id :: id in jobs ==> jobs[id].id == id
    }
  }

  /** Worker ids with the jobs each is thought to be running. */
  type Workers = map<NodeId, set<JobId>>

  /** Registering again forgets what the worker was running. */
  function Register(w: Workers, id: NodeId): Workers {
    w[id := {}]
  }

  function Heartbeat(w: Workers, id: NodeId): Workers {
    if id in w then w else Register(w, id)
  }

  function Load(w: Workers, worker: NodeId, job: JobId): Workers {
    if worker in w then w[worker := w[worker] + {job}] else w
  }

  function Unload(w: Workers, worker: NodeId, job: JobId): Workers {
    if worker in w then w[worker := w[worker] - {job}] else w
  }

  datatype Machine = Machine(queue: Queue, workers: Workers)

  // ----- applying committed commands ----------------------------------------------------

  /** A cancelled job ignores status updates. */
  function ApplyUpdate(q: Queue, u: JobStatusUpdate): Queue {
    if q.Has(u.jobId, Cancelled) then q else q.UpdateStatusMetadata(u)
  }

  function ApplyUpdates(q: Queue, us: seq<JobStatusUpdate>): Queue {
    if us == [] then q else ApplyUpdate(ApplyUpdates(q, us[..|us| - 1]), us[|us| - 1])
  }

  function ApplyCommand(m: Machine, c: Command, now: Time): Machine {
    match c
    case SubmitJob(id, command, createdAt, image) =>
      if id in m.queue.jobs then m
      else m.(queue := m.queue.AddJob(NewJob(id, command, createdAt, image)))
    case UpdateJobStatus(u) => m.(queue := ApplyUpdate(m.queue, u))
    case BatchUpdateJobStatus(us) => m.(queue := ApplyUpdates(m.queue, us))
    case RegisterWorker(id) => m.(workers := Register(m.workers, id))
    case AssignJob(id, worker) =>
      if m.queue.Has(id, Pending)
      then Machine(m.queue.AssignJob(id, worker), Heartbeat(m.workers, worker))
      else m
    case CancelJob(id) => m.(queue := m.queue.CancelJob(id, now))
    case Noop => m
  }

  /** A committed command and the clock reading when this node applies it. */
  datatype Timed = Timed(command: Command, now: Time)

  function ApplyAll(m: Machine, cs: seq<Timed>): Machine {
    if cs == [] then m
    else
      var last := cs[|cs| - 1];
      ApplyCommand(ApplyAll(m, cs[..|cs| - 1]), last.command, last.now)
  }

  lemma {:induction false} ApplyAllJoins(m: Machine, a: seq<Timed>, b: seq<Timed>)
    ensures ApplyAll(m, a + b) == ApplyAll(ApplyAll(m, a), b)
  {
    if b == [] {
      assert a + b == a;
    } else {
      var n := |b| - 1;
      assert (a + b)[..|a + b| - 1] == a + b[..n];
      ApplyAllJoins(m, a, b[..n]);
    }
  }

  // ----- lifecycle -------------------------------------------------------------------------

  /** What a command can do to one job. */
  ghost predicate JobStep(q: Queue, q': Queue, id: JobId) {
    && q'.maxJobs == q.maxJobs
    && (id in q.jobs ==> id in q'.jobs)
    && (q.Has(id, Cancelled) ==> q'.jobs[id] == q.jobs[id])
  }

  lemma UpdateStep(q: Queue, u: JobStatusUpdate, id: JobId)
    ensures JobStep(q, ApplyUpdate(q, u), id)
  {
  }

  lemma {:induction false} UpdatesStep(q: Queue, us: seq<JobStatusUpdate>, id: JobId)
    ensures JobStep(q, ApplyUpdates(q, us), id)
  {
    if us != [] {
      UpdatesStep(q, us[..|us| - 1], id);
      UpdateStep(ApplyUpdates(q, us[..|us| - 1]), us[|us| - 1], id);
    }
  }

  lemma CommandStep(m: Machine, c: Command, now: Time, id: JobId)
    ensures JobStep(m.queue, ApplyCommand(m, c, now).queue, id)
  {
    match c
    case BatchUpdateJobStatus(us) => UpdatesStep(m.queue, us, id);
    case _ =>
  }

  /** A cancelled job never changes again, and no job is ever forgotten. */
  lemma {:induction false} CancelledForever(m: Machine, cs: seq<Timed>, id: JobId)
    ensures JobStep(m.queue, ApplyAll(m, cs).queue, id)
  {
    if cs != [] {
      var n := |cs| - 1;
      CancelledForever(m, cs[..n], id);
      CommandStep(ApplyAll(m, cs[..n]), cs[n].command, cs[n].now, id);
    }
  }

  function Singles(us: seq<JobStatusUpdate>, now: Time): seq<Timed> {
    seq(|us|, i requires 0 <= i < |us| => Timed(UpdateJobStatus(us[i]), now))
  }

  /** A batch is its updates one by one. */
  lemma {:induction false} BatchIsSingles(m: Machine, us: seq<JobStatusUpdate>, now: Time)
    ensures ApplyCommand(m, BatchUpdateJobStatus(us), now) == ApplyAll(m, Singles(us, now))
  {
    if us != [] {
      var n := |us| - 1;
      BatchIsSingles(m, us[..n], now);
      assert Singles(us, now)[..n] == Singles(us[..n], now);
    }
  }

  /** The update does not set an active status; workers report Completed or Failed. */
  predicate Finishes(u: JobStatusUpdate) {
    !IsActive(u.status)
  }

  predicate OnlyFinishes(c: Command) {
    match c
    case UpdateJobStatus(u) => Finishes(u)
    case BatchUpdateJobStatus(us) => forall i :: 0 <= i < |us| ==> Finishes(us[i])
    case _ => true
  }

  /** Finished jobs stay finished, so only submissions add to the active ones. */
  ghost predicate Winds(q: Queue, q': Queue) {
    && q'.maxJobs == q.maxJobs && q'.Keyed()
    && (forall id :: id in q.jobs ==> id in q'.jobs)
    && q'.ActiveIds() * q.jobs.Keys <= q.ActiveIds()
    && (|q.ActiveIds()| <= q.maxJobs ==> |q'.ActiveIds()| <= q.maxJobs)
  }

  /** Changing a job that exists, without making it active, winds the queue down. */
  lemma WindsByUpdate(q: Queue, id: JobId, job: Job)
    requires q.Keyed() && id in q.jobs && job.id == id
    requires IsActive(job.status) ==> IsActive(q.jobs[id].status)
    ensures Winds(q, q.(jobs := q.jobs[id := job]))
  {
    SubsetSize(q.(jobs := q.jobs[id := job]).ActiveIds(), q.ActiveIds());
  }

  lemma WindsByAdd(q: Queue, job: Job)
    requires q.Keyed() && job.id !in q.jobs
    ensures Winds(q, q.AddJob(job))
  {
    var q' := q.(jobs := q.jobs[job.id := job]);
    SubsetSize(q'.ActiveIds(), q.ActiveIds() + {job.id});
  }

  lemma {:induction false} UpdatesWind(q: Queue, us: seq<JobStatusUpdate>)
    requires q.Keyed() && forall i :: 0 <= i < |us| ==> Finishes(us[i])
    ensures Winds(q, ApplyUpdates(q, us))
  {
    if us != [] {
      var n := |us| - 1;
      UpdatesWind(q, us[..n]);
      var q1 := ApplyUpdates(q, us[..n]);
      var u := us[n];
      if !q1.Has(u.jobId, Cancelled) && u.jobId in q1.jobs {
        WindsByUpdate(q1, u.jobId, q1.UpdateStatusMetadata(u).jobs[u.jobId]);
      }
    }
  }

  lemma CommandWinds(m: Machine, c: Command, now: Time)
    requires m.queue.Keyed() && OnlyFinishes(c)
    ensures Winds(m.queue, ApplyCommand(m, c, now).queue)
  {
    var q := m.queue;
    match c
    case SubmitJob(id, command, createdAt, image) =>
      if id !in q.jobs {
        WindsByAdd(q, NewJob(id, command, createdAt, image));
      }
    case UpdateJobStatus(u) =>
      assert ApplyUpdates(q, []) == q;
      assert ApplyUpdates(q, [u]) == ApplyUpdate(q, u);
      UpdatesWind(q, [u]);
    case BatchUpdateJobStatus(us) =>
      UpdatesWind(q, us);
    case AssignJob(id, worker) =>
      if q.Has(id, Pending) {
        WindsByUpdate(q, id, q.AssignJob(id, worker).jobs[id]);
      }
    case CancelJob(id) =>
      if id in q.jobs && IsActive(q.jobs[id].status) {
        WindsByUpdate(q, id, q.CancelJob(id, now).jobs[id]);
      }
    case _ =>
  }

  /** When no update sets an active status, a finished job never becomes active again and
      the active jobs never outnumber the capacity. */
  lemma {:induction false} LifecycleHolds(m: Machine, cs: seq<Timed>)
    requires m.queue.Keyed() && forall i :: 0 <= i < |cs| ==> OnlyFinishes(cs[i].command)
    ensures Winds(m.queue, ApplyAll(m, cs).queue)
  {
    if cs != [] {
      var n := |cs| - 1;
      LifecycleHolds(m, cs[..n]);
      CommandWinds(ApplyAll(m, cs[..n]), cs[n].command, cs[n].now);
    }
  }

  // ----- when a finished job comes back, exactly ---------------------------------------------

  /** The status updates a command carries. */
  function UpdatesOf(c: Command): seq<JobStatusUpdate> {
    match c
    case UpdateJobStatus(u) => [u]
    case BatchUpdateJobStatus(us) => us
    case _ => []
  }

  ghost predicate Touches(us: seq<JobStatusUpdate>, id: JobId) {
    exists i :: 0 <= i < |us| && us[i].jobId == id
  }

  ghost predicate Cancels(us: seq<JobStatusUpdate>, id: JobId) {
    exists i :: 0 <= i < |us| && us[i].jobId == id && us[i].status == Cancelled
  }

  /** The job's last update sets an active status, and none cancels it. */
  ghost predicate EndsActive(us: seq<JobStatusUpdate>, id: JobId) {
    && !Cancels(us, id)
    && exists i :: 0 <= i < |us| && us[i].jobId == id && IsActive(us[i].status)
                   && forall j :: i < j < |us| ==> us[j].jobId != id
  }

  /** The last update decides, if it is about the job. */
  lemma LastUpdate(us: seq<JobStatusUpdate>, id: JobId)
    requires us != []
    ensures var before, u := us[..|us| - 1], us[|us| - 1];
            && (Touches(us, id) <==> Touches(before, id) || u.jobId == id)
            && (Cancels(us, id) <==> Cancels(before, id) || (u.jobId == id && u.status == Cancelled))
            && (EndsActive(us, id) <==>
                  if u.jobId == id then IsActive(u.status) && !Cancels(before, id) else EndsActive(before, id))
  {
    var n := |us| - 1;
    var before, u := us[..n], us[n];
    assert forall i :: 0 <= i < n ==> before[i] == us[i];
    if u.jobId != id && EndsActive(before, id) {
      var i :| 0 <= i < n && before[i].jobId == id && IsActive(before[i].status)
               && forall j :: i < j < n ==> before[j].jobId != id;
      assert us[i].jobId == id;
    }
    if u.jobId == id && IsActive(u.status) {
      assert us[n].jobId == id;
    }
  }

  /** A job's status after a batch, as far as it can be told from the batch. */
  lemma {:induction false} StatusAfter(q: Queue, us: seq<JobStatusUpdate>, id: JobId)
    requires id in q.jobs && q.jobs[id].status != Cancelled
    ensures var q' := ApplyUpdates(q, us);
            && id in q'.jobs
            && (q'.jobs[id].status == Cancelled <==> Cancels(us, id))
            && (Touches(us, id) ==> (IsActive(q'.jobs[id].status) <==> EndsActive(us, id)))
            && (!Touches(us, id) ==> q'.jobs[id] == q.jobs[id])
  {
    if us != [] {
      StatusAfter(q, us[..|us| - 1], id);
      LastUpdate(us, id);
    }
  }

  /** The command puts a finished job back to work. */
  ghost predicate Revives(q: Queue, c: Command, id: JobId) {
    (q.Has(id, Completed) || q.Has(id, Failed)) && EndsActive(UpdatesOf(c), id)
  }

  /** The command finishes a job that was pending or running. */
  ghost predicate Retires(q: Queue, c: Command, id: JobId) {
    id in q.jobs && IsActive(q.jobs[id].status) && Touches(UpdatesOf(c), id) && !EndsActive(UpdatesOf(c), id)
  }

  lemma UpdatesApplied(m: Machine, c: Command, now: Time)
    requires c.UpdateJobStatus? || c.BatchUpdateJobStatus?
    ensures ApplyCommand(m, c, now).queue == ApplyUpdates(m.queue, UpdatesOf(c))
  {
    if c.UpdateJobStatus? {
      assert ApplyUpdates(m.queue, []) == m.queue;
      assert [c.update][..0] == [];
    }
  }

  /** A finished job becomes active exactly when the command's last update of it sets an
      active status and neither the job nor an update is cancelled. */
  lemma RevivalExact(m: Machine, c: Command, now: Time, id: JobId)
    requires id in m.queue.jobs && !IsActive(m.queue.jobs[id].status)
    ensures id in ApplyCommand(m, c, now).queue.jobs
    ensures IsActive(ApplyCommand(m, c, now).queue.jobs[id].status) <==> Revives(m.queue, c, id)
  {
    CommandStep(m, c, now, id);
    if c.UpdateJobStatus? || c.BatchUpdateJobStatus? {
      UpdatesApplied(m, c, now);
      if m.queue.jobs[id].status != Cancelled {
        StatusAfter(m.queue, UpdatesOf(c), id);
      }
    }
  }

  ghost function RevivedIds(q: Queue, c: Command): set<JobId> {
    set id | id in q.jobs && Revives(q, c, id)
  }

  ghost function RetiredIds(q: Queue, c: Command): set<JobId> {
    set id | id in q.jobs && Retires(q, c, id)
  }

  lemma {:induction false} UpdatesAddNoJob(q: Queue, us: seq<JobStatusUpdate>)
    ensures ApplyUpdates(q, us).jobs.Keys == q.jobs.Keys
  {
    if us != [] {
      UpdatesAddNoJob(q, us[..|us| - 1]);
    }
  }

  /** Updates trade retired jobs for revived ones. */
  lemma ActiveAfter(m: Machine, c: Command, now: Time)
    requires c.UpdateJobStatus? || c.BatchUpdateJobStatus?
    ensures ApplyCommand(m, c, now).queue.ActiveIds()
         == m.queue.ActiveIds() - RetiredIds(m.queue, c) + RevivedIds(m.queue, c)
  {
    var q, q' := m.queue, ApplyCommand(m, c, now).queue;
    UpdatesApplied(m, c, now);
    UpdatesAddNoJob(q, UpdatesOf(c));
    forall id | id in q.jobs
      ensures id in q'.ActiveIds() <==> id in q.ActiveIds() - RetiredIds(q, c) + RevivedIds(q, c)
    {
      if IsActive(q.jobs[id].status) {
        StatusAfter(q, UpdatesOf(c), id);
      } else {
        RevivalExact(m, c, now, id);
      }
    }
  }

  lemma TradedSize(active: set<JobId>, retired: set<JobId>, revived: set<JobId>)
    requires retired <= active && revived !! active
    ensures |active - retired + revived| == |active| - |retired| + |revived|
  {
    assert |active - retired| == |active| - |retired|;
    assert |active - retired + revived| == |active - retired| + |revived|;
  }

  /** A command takes the queue over its capacity exactly when it revives more jobs than
      the free places and the jobs it retires make room for. */
  lemma OverflowExact(m: Machine, c: Command, now: Time)
    requires m.queue.Keyed() && |m.queue.ActiveIds()| <= m.queue.maxJobs
    ensures |ApplyCommand(m, c, now).queue.ActiveIds()| > m.queue.maxJobs <==>
            |m.queue.ActiveIds()| + |RevivedIds(m.queue, c)| > m.queue.maxJobs + |RetiredIds(m.queue, c)|
  {
    var q := m.queue;
    var active, retired, revived := q.ActiveIds(), RetiredIds(q, c), RevivedIds(q, c);
    if c.UpdateJobStatus? || c.BatchUpdateJobStatus? {
      ActiveAfter(m, c, now);
      assert retired <= active && revived !! active;
      TradedSize(active, retired, revived);
    } else {
      CommandWinds(m, c, now);
      assert retired == {} && revived == {};
    }
  }

  lemma ThreeCommands(m: Machine, a: Command, b: Command, c: Command)
    ensures ApplyAll(m, [Timed(a, 0), Timed(b, 0), Timed(c, 0)])
         == ApplyCommand(ApplyCommand(ApplyCommand(m, a, 0), b, 0), c, 0)
  {
    var cs := [Timed(a, 0), Timed(b, 0), Timed(c, 0)];
    assert cs[..2] == [Timed(a, 0), Timed(b, 0)] && cs[..2][..1] == [Timed(a, 0)] && cs[..1][..0] == [];
    assert ApplyAll(m, [Timed(a, 0)]) == ApplyCommand(m, a, 0);
    assert ApplyAll(m, cs[..2]) == ApplyCommand(ApplyCommand(m, a, 0), b, 0);
  }

  const EARLY := NewJob(1, "a", 3, None)
  const LATE := NewJob(2, "b", 5, None).(status := Completed, executedBy := Some(1))

  /** Commands that leave a queue of one place with one pending and one finished job. */
  lemma FullQueue() returns (cs: seq<Timed>)
    ensures forall i :: 0 <= i < |cs| ==> OnlyFinishes(cs[i].command)
    ensures ApplyAll(Machine(Queue(map[], 1), map[]), cs).queue == Queue(map[2 := LATE, 1 := EARLY], 1)
  {
    var m := Machine(Queue(map[], 1), map[]);
    var a, b := SubmitJob(2, "b", 5, None), UpdateJobStatus(JobStatusUpdate(2, Completed, 1, None, None));
    var c := SubmitJob(1, "a", 3, None);
    cs := [Timed(a, 0), Timed(b, 0), Timed(c, 0)];
    ThreeCommands(m, a, b, c);
    assert m.queue.ActiveIds() == {};
    var m2 := ApplyCommand(ApplyCommand(m, a, 0), b, 0);
    assert m2.queue == Queue(map[2 := LATE], 1) && m2.queue.ActiveIds() == {};
  }

  /** In a reachable full queue, a batch that reports a finished job as running revives it
      and exceeds the capacity. */
  lemma RevivedOverCapacity() returns (cs: seq<Timed>, c: Command)
    ensures var m := ApplyAll(Machine(Queue(map[], 1), map[]), cs);
            && c.BatchUpdateJobStatus? && m.queue.Has(2, Completed) && Revives(m.queue, c, 2)
            && |m.queue.ActiveIds()| == 1 && |ApplyCommand(m, c, 0).queue.ActiveIds()| > m.queue.maxJobs
  {
    cs := FullQueue();
    var m := ApplyAll(Machine(Queue(map[], 1), map[]), cs);
    var u := JobStatusUpdate(2, Running, 1, None, None);
    c := BatchUpdateJobStatus([u]);
    assert m.queue.ActiveIds() == {1};
    assert [u][0].jobId == 2;
    assert EndsActive([u], 2);
    assert RevivedIds(m.queue, c) == {2} && RetiredIds(m.queue, c) == {};
    OverflowExact(m, c, 0);
  }
}
